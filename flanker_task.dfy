/** The Flanker test: a row of five arrows; the user answers `left` or
    `right`, and each answer is scored against the trial's
    `correctResponse` field. */
module FlankerTask {
  import opened Js
  import Common
  import Login

  datatype Trial = Trial(condition: string, flanker: string, target: string, correctResponse: string)

  /** The compiled-in trial table. */
  const Trials: seq<Trial> := [
    Trial("congruent", ">>>>>", ">", "right"),
    Trial("congruent", "<<<<<", "<", "left"),
    Trial("incongruent", ">>><>", "<", "right"),
    Trial("incongruent", "<<><<", ">", "right")
  ]

  /** The arrow in the middle of the row. */
  function Centre(t: Trial): char
    requires |t.flanker| == 5
  {
    t.flanker[2]
  }

  /** In every row the expected answer follows the middle arrow:
      `right` exactly for `>`, `left` exactly for `<`. */
  lemma TableAnswersFollowCentre(i: nat)
    requires i < |Trials|
    ensures |Trials[i].flanker| == 5
    ensures Trials[i].correctResponse == "right" <==> Centre(Trials[i]) == '>'
    ensures Trials[i].correctResponse == "left" <==> Centre(Trials[i]) == '<'
  {
  }

  /** A row is `congruent` exactly when all five arrows point the same
      way. */
  lemma TableConditions(i: nat)
    requires i < |Trials|
    ensures Trials[i].condition == "congruent" <==> forall k :: 0 <= k < 5 ==> Trials[i].flanker[k] == Trials[i].flanker[0]
  {
    if i == 2 {
      assert Trials[i].flanker[3] != Trials[i].flanker[0];
    } else if i == 3 {
      assert Trials[i].flanker[2] != Trials[i].flanker[0];
    }
  }

  /** The third row's `target` is `<` while its middle arrow is `>` and its
      expected answer `right`; `target` is never read, and the other rows'
      `target` is the middle arrow. */
  lemma ThirdRowTargetDisagrees()
    ensures Trials[2].target == "<" && Centre(Trials[2]) == '>' && Trials[2].correctResponse == "right"
    ensures forall i :: 0 <= i < |Trials| && i != 2 ==> Trials[i].target == [Centre(Trials[i])]
  {
  }

  datatype Response = Response(trial: Trial, reactionTime: int, userResponse: string, isCorrect: bool, condition: string)

  /** The record of `response` after `reactionTime` ms. */
  function Record(trial: Trial, response: string, reactionTime: int): (r: Response)
    ensures r.trial == trial && r.reactionTime == reactionTime && r.userResponse == response
    ensures r.isCorrect <==> response == trial.correctResponse
    ensures r.condition == trial.condition
  {
    Response(trial, reactionTime, response, response == trial.correctResponse, trial.condition)
  }

  predicate Scored(r: Response) {
    (r.isCorrect <==> r.userResponse == r.trial.correctResponse) && r.condition == r.trial.condition
  }

  /** The component's state. `pressTime` is the `buttonPressTime` ref;
      `trialStartTime` is 0 until the first stimulus, which is how
      subtraction reads the initial `null`. The fixation timers that
      `startTrial` schedules are never cancelled, so `fixationTimers`
      counts those still pending. */
  class Test {
    const name: string
    const shuffledTrials: seq<Trial>
    var trialIndex: nat
    var responses: seq<Response>
    var pressTime: Option<int>
    var trialStartTime: int
    var showFixation: bool
    var initialDelay: bool
    var delayTimer: bool
    var fixationTimers: nat

    /** One scored record per accepted response, for the trial at its
        position; during the initial delay the cross is up, no fixation
        timer is pending and no trial has run. */
    ghost predicate Valid()
      reads this
    {
      && |shuffledTrials| == |Trials| && multiset(shuffledTrials) == multiset(Trials)
      && trialIndex <= |shuffledTrials|
      && |responses| == trialIndex
      && (forall i :: 0 <= i < |responses| ==> responses[i].trial == shuffledTrials[i] && Scored(responses[i]))
      && (delayTimer <==> initialDelay)
      && (initialDelay ==> showFixation && fixationTimers == 0 && trialIndex == 0)
    }

    /** The state once mounted: a shuffled copy of the table, the cross up
        and the initial delay running. */
    constructor(token: Option<string>, decode: Login.Decoder, picks: seq<nat>)
      ensures Valid()
      ensures name == Login.TokenName(token, decode)
      ensures |shuffledTrials| == |Trials| && multiset(shuffledTrials) == multiset(Trials)
      ensures trialIndex == 0 && responses == [] && pressTime.None? && showFixation
      ensures initialDelay && delayTimer && fixationTimers == 0
    {
      name := Login.TokenName(token, decode);
      var shuffled := Common.ShuffledCopy(Trials, picks);
      shuffledTrials := shuffled;
      trialIndex := 0;
      responses := [];
      pressTime := None;
      trialStartTime := 0;
      showFixation := true;
      initialDelay := true;
      delayTimer := true;
      fixationTimers := 0;
    }

    /** `startTrial`: past the last trial it yields the results to post;
        otherwise it shows the cross and schedules one more fixation
        timer. */
    method StartTrial(date: string) returns (post: Option<Common.Submission<Response>>)
      requires Valid() && !initialDelay
      modifies this`showFixation, this`fixationTimers
      ensures Valid()
      ensures trialIndex >= |shuffledTrials| ==>
                post == Common.Post(name, responses, "Flanker Task", date)
                && showFixation == old(showFixation) && fixationTimers == old(fixationTimers)
      ensures trialIndex < |shuffledTrials| ==> post.None? && showFixation && fixationTimers == old(fixationTimers) + 1
    {
      if trialIndex >= |shuffledTrials| {
        post := Common.Post(name, responses, "Flanker Task", date);
      } else {
        post := None;
        showFixation := true;
        fixationTimers := fixationTimers + 1;
      }
    }

    /** The initial delay ends and the effect calls `startTrial`. */
    method DelayElapsed(date: string) returns (post: Option<Common.Submission<Response>>)
      requires Valid()
      modifies this
      ensures Valid()
      ensures trialIndex == old(trialIndex) && responses == old(responses)
      ensures pressTime == old(pressTime) && trialStartTime == old(trialStartTime)
      ensures !initialDelay && !delayTimer
      ensures !old(delayTimer) ==> post.None? && showFixation == old(showFixation) && fixationTimers == old(fixationTimers)
      ensures old(delayTimer) ==> post.None? && showFixation && fixationTimers == 1
    {
      post := None;
      if delayTimer {
        initialDelay := false;
        delayTimer := false;
        post := StartTrial(date);
      }
    }

    /** A fixation timer fires at `now`: the flanker row appears, the
        reaction clock starts and the latch is cleared. This is the only
        place the latch is cleared. */
    method FixationElapsed(now: int)
      requires Valid()
      modifies this
      ensures Valid()
      ensures trialIndex == old(trialIndex) && responses == old(responses)
      ensures initialDelay == old(initialDelay) && delayTimer == old(delayTimer)
      ensures old(fixationTimers) > 0 ==>
                fixationTimers == old(fixationTimers) - 1 && !showFixation && trialStartTime == now && pressTime.None?
      ensures old(fixationTimers) == 0 ==>
                fixationTimers == 0 && showFixation == old(showFixation)
                && trialStartTime == old(trialStartTime) && pressTime == old(pressTime)
    {
      if fixationTimers > 0 {
        fixationTimers := fixationTimers - 1;
        showFixation := false;
        trialStartTime := now;
        pressTime := None;
      }
    }

    /** `handleResponse(response)` at time `now`: accepted only while the
        latch is clear, trials remain and the cross is down. An accepted
        response sets the latch, appends one record, moves the index on,
        and the effect calls `startTrial`. */
    method Respond(response: string, now: int, date: string) returns (post: Option<Common.Submission<Response>>)
      requires Valid()
      modifies this
      ensures Valid()
      ensures initialDelay == old(initialDelay) && delayTimer == old(delayTimer)
      ensures trialStartTime == old(trialStartTime)
      ensures !old(!Latched(pressTime) && trialIndex < |shuffledTrials| && !showFixation) ==>
                pressTime == old(pressTime) && trialIndex == old(trialIndex) && responses == old(responses)
                && showFixation == old(showFixation) && fixationTimers == old(fixationTimers) && post.None?
      ensures old(!Latched(pressTime) && trialIndex < |shuffledTrials| && !showFixation) ==>
                pressTime == Some(now)
                && responses == old(responses) + [Record(old(shuffledTrials[trialIndex]), response, now - old(trialStartTime))]
                && trialIndex == old(trialIndex) + 1
      ensures old(!Latched(pressTime) && trialIndex < |shuffledTrials| && !showFixation) && trialIndex < |shuffledTrials| ==>
                post.None? && showFixation && fixationTimers == old(fixationTimers) + 1
      ensures old(!Latched(pressTime) && trialIndex < |shuffledTrials| && !showFixation) && trialIndex == |shuffledTrials| ==>
                post == Common.Post(name, responses, "Flanker Task", date)
                && showFixation == old(showFixation) && fixationTimers == old(fixationTimers)
    {
      post := None;
      if Latched(pressTime) || trialIndex >= |shuffledTrials| || showFixation {
        return;
      }
      pressTime := Some(now);
      responses := responses + [Record(shuffledTrials[trialIndex], response, now - trialStartTime)];
      trialIndex := trialIndex + 1;
      post := StartTrial(date);
    }
  }

  /** No response is accepted before the first stimulus: during the
      initial delay the cross is up. */
  method RespondDuringDelay(t: Test, response: string, now: int, date: string)
    requires t.Valid() && t.initialDelay
    modifies t
    ensures t.Valid()
    ensures t.responses == old(t.responses) && t.trialIndex == old(t.trialIndex)
  {
    var post := t.Respond(response, now, date);
  }
}
