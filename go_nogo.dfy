/** The Go/No-Go test: ten arrows, eight `up` (press) and two `down`
    (withhold); each trial lasts 1000 ms, and what counts is whether the
    button was pressed during it. */
module GoNoGo {
  import opened Js
  import Common
  import Login

  datatype Arrow = Up | Down

  /** `Array(8).fill('up').concat(Array(2).fill('down'))`. */
  const TrialTypes: seq<Arrow> := [Up, Up, Up, Up, Up, Up, Up, Up, Down, Down]

  /** `generateTrials`: the trial types in shuffled order. */
  method GenerateTrials(picks: seq<nat>) returns (arrows: seq<Arrow>)
    ensures |arrows| == 10
    ensures multiset(arrows)[Up] == 8 && multiset(arrows)[Down] == 2
  {
    arrows := Common.ShuffledCopy(TrialTypes, picks);
    assert multiset(TrialTypes)[Up] == 8 && multiset(TrialTypes)[Down] == 2;
  }

  /** `isCorrect` as the source writes it:
      `(isGoTrial && pressTime) || (!isGoTrial && !pressTime)`. For a go
      trial with a press this is the press timestamp itself. */
  function IsCorrectAsWritten(trial: Arrow, latch: Option<int>): Value {
    var goAndPressed := if trial == Up then LatchValue(latch) else Bool(false);
    if Truthy(goAndPressed) then goAndPressed
    else Bool(trial == Down && !Latched(latch))
  }

  /** `isCorrect` as a boolean: a press on a go trial, or none on a no-go
      trial. */
  function IsCorrect(trial: Arrow, latch: Option<int>): bool {
    (trial == Up && Latched(latch)) || (trial == Down && !Latched(latch))
  }

  /** The value written is truthy exactly when the boolean reading holds. */
  lemma AsWrittenAgreesInTruthiness(trial: Arrow, latch: Option<int>)
    ensures Truthy(IsCorrectAsWritten(trial, latch)) == IsCorrect(trial, latch)
  {
  }

  /** A correct go trial pressed at time 1700 records `isCorrect: 1700`,
      not `true`. */
  lemma AsWrittenIsNotBoolean()
    ensures IsCorrectAsWritten(Up, Some(1700)) == Num(1700)
    ensures IsCorrect(Up, Some(1700))
  {
  }

  datatype Response = Response(trial: Arrow, reactionTime: Option<int>, userResponse: string, isCorrect: bool)

  /** The record the trial timer writes at `trialEnd`. */
  function Record(trial: Arrow, latch: Option<int>, trialEnd: int): (r: Response)
    ensures r.trial == trial
    ensures r.userResponse == "pressed" || r.userResponse == "not pressed"
    ensures r.userResponse == "pressed" <==> Latched(latch)
    ensures r.reactionTime.None? <==> !Latched(latch)
    ensures r.reactionTime.Some? ==> r.reactionTime.value == trialEnd - latch.value
    ensures r.isCorrect <==> (trial == Up <==> r.userResponse == "pressed")
  {
    Response(trial,
             if Latched(latch) then Some(trialEnd - latch.value) else None,
             if Latched(latch) then "pressed" else "not pressed",
             IsCorrect(trial, latch))
  }

  /** The component's state. `pressTime` is the `buttonPressTime` ref;
      `delayTimer` and `trialTimer` are the pending 2000 ms initial delay
      and 1000 ms trial timers. */
  class Test {
    const name: string
    var arrows: seq<Arrow>
    var trialIndex: nat
    var responses: seq<Response>
    var initialDelay: bool
    var delayTimer: bool
    var trialTimer: bool
    var trialStartTime: int
    var pressTime: Option<int>

    /** One record per finished trial, for that trial's arrow; the trial
        timer runs only after the initial delay and while trials remain. */
    ghost predicate Valid()
      reads this
    {
      && |arrows| == 10
      && multiset(arrows)[Up] == 8 && multiset(arrows)[Down] == 2
      && trialIndex <= |arrows|
      && |responses| == trialIndex
      && (forall i :: 0 <= i < |responses| ==> responses[i].trial == arrows[i])
      && (delayTimer <==> initialDelay)
      && (trialTimer ==> !initialDelay && trialIndex < |arrows|)
      && (!initialDelay && trialIndex < |arrows| ==> trialTimer)
      && (initialDelay ==> trialIndex == 0)
    }

    /** The state once mounted: trials generated, the initial delay
        running. */
    constructor(token: Option<string>, decode: Login.Decoder, picks: seq<nat>)
      ensures Valid()
      ensures name == Login.TokenName(token, decode)
      ensures trialIndex == 0 && responses == [] && initialDelay && delayTimer && !trialTimer
      ensures pressTime.None?
    {
      name := Login.TokenName(token, decode);
      var generated := GenerateTrials(picks);
      arrows := generated;
      trialIndex := 0;
      responses := [];
      initialDelay := true;
      delayTimer := true;
      trialTimer := false;
      trialStartTime := 0;
      pressTime := None;
    }

    /** The initial delay ends; the effect starts the first trial at `now`,
        clearing the latch. No trial starts before this. */
    method DelayElapsed(now: int)
      requires Valid()
      modifies this
      ensures Valid()
      ensures arrows == old(arrows) && trialIndex == old(trialIndex) && responses == old(responses)
      ensures !initialDelay && !delayTimer
      ensures old(delayTimer) ==> trialTimer && trialStartTime == now && pressTime.None?
      ensures !old(delayTimer) ==> trialTimer == old(trialTimer) && trialStartTime == old(trialStartTime)
                                   && pressTime == old(pressTime)
    {
      if delayTimer {
        initialDelay := false;
        delayTimer := false;
        trialStartTime := now;
        pressTime := None;
        trialTimer := true;
      }
    }

    /** `handleButtonClick` at time `now`: only the first press of a trial
        is latched. */
    method Press(now: int)
      requires Valid()
      modifies this`pressTime
      ensures Valid()
      ensures !Latched(old(pressTime)) ==> pressTime == Some(now)
      ensures Latched(old(pressTime)) ==> pressTime == old(pressTime)
    {
      if !Latched(pressTime) {
        pressTime := Some(now);
      }
    }

    /** The trial timer fires at `now`: one record for the current arrow,
        the index moves on, and the effect either starts the next trial
        (clearing the latch) or, once the index reaches the end, yields the
        results to post. */
    method TrialElapsed(now: int, date: string) returns (post: Option<Common.Submission<Response>>)
      requires Valid()
      modifies this
      ensures Valid()
      ensures arrows == old(arrows) && initialDelay == old(initialDelay) && delayTimer == old(delayTimer)
      ensures !old(trialTimer) ==>
                trialIndex == old(trialIndex) && responses == old(responses) && trialTimer == old(trialTimer)
                && trialStartTime == old(trialStartTime) && pressTime == old(pressTime) && post.None?
      ensures old(trialTimer) ==>
                && responses == old(responses) + [Record(old(arrows[trialIndex]), old(pressTime), now)]
                && trialIndex == old(trialIndex) + 1
                && (trialIndex < |arrows| ==> trialTimer && trialStartTime == now && pressTime.None? && post.None?)
                && (trialIndex == |arrows| ==>
                      !trialTimer && pressTime == old(pressTime) && trialStartTime == old(trialStartTime)
                      && post == Common.Post(name, responses, "GoNoGo", date))
    {
      post := None;
      if !trialTimer {
        return;
      }
      responses := responses + [Record(arrows[trialIndex], pressTime, now)];
      trialIndex := trialIndex + 1;
      if trialIndex >= |arrows| {
        trialTimer := false;
        post := Common.Post(name, responses, "GoNoGo", date);
      } else {
        trialStartTime := now;
        pressTime := None;
      }
    }
  }

  /** The end-to-end run of the test's own scenario: a press on an `up`
      trial and none on a `down` trial are both scored correct; a press on
      a `down` trial is scored wrong. */
  lemma ScenarioScoring(pressedAt: int)
    requires pressedAt != 0
    ensures Record(Up, Some(pressedAt), pressedAt + 300).isCorrect
    ensures Record(Down, None, 1000).isCorrect
    ensures !Record(Down, Some(pressedAt), pressedAt + 300).isCorrect
    ensures !Record(Up, None, 1000).isCorrect
  {
  }
}
