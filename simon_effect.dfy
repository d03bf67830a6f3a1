/** The Simon Effect test: a red or blue image appears on the left or the
    right; the user presses the button of the image's colour; where the
    image appears does not matter for the score. */
module SimonEffect {
  import opened Js
  import Common
  import Login

  datatype Position = Left | Right
  datatype Color = Red | Blue

  datatype Stimulus = Stimulus(position: Position, image: Color)

  /** The predefined trials. */
  const Predefined: seq<Stimulus> := [
    Stimulus(Left, Blue),
    Stimulus(Right, Red),
    Stimulus(Left, Red),
    Stimulus(Right, Blue)
  ]

  datatype Trial = Trial(position: Position, image: Color, condition: string)

  /** A trial is congruent when red is on the left or blue on the right. */
  function Condition(s: Stimulus): string {
    if (s.position == Left && s.image == Red) || (s.position == Right && s.image == Blue)
    then "congruent" else "incongruent"
  }

  /** `predefinedTrials.map(trial => ({ ...trial, condition }))`. */
  function Label(stimuli: seq<Stimulus>): (trials: seq<Trial>)
    ensures |trials| == |stimuli|
    ensures forall i :: 0 <= i < |stimuli| ==>
              trials[i].position == stimuli[i].position && trials[i].image == stimuli[i].image
              && trials[i].condition == Condition(stimuli[i])
  {
    seq(|stimuli|, i requires 0 <= i < |stimuli| => Trial(stimuli[i].position, stimuli[i].image, Condition(stimuli[i])))
  }

  /** The condition is one of two labels, `congruent` exactly for the two
      pairings named above. */
  lemma ConditionLabels(s: Stimulus)
    ensures Condition(s) == "congruent" || Condition(s) == "incongruent"
    ensures Condition(s) == "congruent" <==> (s.position == Left) == (s.image == Red)
  {
  }

  /** The labelled table: two trials of each condition. */
  const Labelled: seq<Trial> := [
    Trial(Left, Blue, "incongruent"), Trial(Right, Red, "incongruent"),
    Trial(Left, Red, "congruent"), Trial(Right, Blue, "congruent")]

  lemma PredefinedConditions()
    ensures Label(Predefined) == Labelled
  {
  }

  /** The button colour matches the image colour, whatever the position. */
  function IsCorrect(trial: Trial, pressed: Color): bool {
    (trial.image == Blue && pressed == Blue) || (trial.image == Red && pressed == Red)
  }

  lemma CorrectIffColourMatches(trial: Trial, pressed: Color)
    ensures IsCorrect(trial, pressed) <==> pressed == trial.image
    ensures IsCorrect(trial, pressed) == IsCorrect(trial.(position := Left), pressed)
                                      == IsCorrect(trial.(position := Right), pressed)
  {
  }

  datatype Response = Response(trial: Trial, reactionTime: int, userResponse: string, isCorrect: bool, condition: string)

  /** The record of a press of `color` after `reactionTime` ms. */
  function Record(trial: Trial, color: Color, reactionTime: int): (r: Response)
    ensures r.trial == trial && r.reactionTime == reactionTime && r.userResponse == "pressed"
    ensures r.isCorrect <==> color == trial.image
    ensures r.condition == trial.condition
  {
    Response(trial, reactionTime, "pressed", IsCorrect(trial, color), trial.condition)
  }

  /** The component's state. `pressTime` is the `buttonPressTime` ref;
      `trialStartTime` is 0 until the first image appears, which is how
      subtraction reads the initial `null`. The fixation timers that
      `startTrial` schedules are never cancelled, so `fixationTimers`
      counts those still pending. */
  class Test {
    const name: string
    const trials: seq<Trial>
    var trialIndex: nat
    var responses: seq<Response>
    var pressTime: Option<int>
    var trialStartTime: int
    var showFixation: bool
    var initialDelay: bool
    var delayTimer: bool
    var fixationTimers: nat

    /** One record per accepted press, for the trial at its position. */
    ghost predicate Valid()
      reads this
    {
      && multiset(trials) == multiset(Labelled)
      && trialIndex <= |trials|
      && |responses| == trialIndex
      && (forall i :: 0 <= i < |responses| ==> responses[i].trial == trials[i])
      && (delayTimer <==> initialDelay)
    }

    /** The state once mounted: the labelled trials shuffled, the fixation
        cross up and the initial delay running. */
    constructor(token: Option<string>, decode: Login.Decoder, picks: seq<nat>)
      ensures Valid()
      ensures name == Login.TokenName(token, decode)
      ensures |trials| == 4 && multiset(trials) == multiset(Label(Predefined))
      ensures trialIndex == 0 && responses == [] && pressTime.None? && showFixation
      ensures initialDelay && delayTimer && fixationTimers == 0
    {
      name := Login.TokenName(token, decode);
      PredefinedConditions();
      var shuffled := Common.ShuffledCopy(Label(Predefined), picks);
      trials := shuffled;
      trialIndex := 0;
      responses := [];
      pressTime := None;
      trialStartTime := 0;
      showFixation := true;
      initialDelay := true;
      delayTimer := true;
      fixationTimers := 0;
    }

    /** `startTrial`: past the last trial it yields the results to post;
        otherwise it shows the cross and schedules one more fixation
        timer. */
    method StartTrial(date: string) returns (post: Option<Common.Submission<Response>>)
      requires Valid()
      modifies this`showFixation, this`fixationTimers
      ensures Valid()
      ensures trialIndex >= |trials| ==>
                post == Common.Post(name, responses, "SimonEffect", date)
                && showFixation == old(showFixation) && fixationTimers == old(fixationTimers)
      ensures trialIndex < |trials| ==> post.None? && showFixation && fixationTimers == old(fixationTimers) + 1
    {
      if trialIndex >= |trials| {
        post := Common.Post(name, responses, "SimonEffect", date);
      } else {
        post := None;
        showFixation := true;
        fixationTimers := fixationTimers + 1;
      }
    }

    /** The initial delay ends and the effect calls `startTrial`. */
    method DelayElapsed(date: string) returns (post: Option<Common.Submission<Response>>)
      requires Valid()
      modifies this
      ensures Valid()
      ensures trialIndex == old(trialIndex) && responses == old(responses)
      ensures pressTime == old(pressTime) && trialStartTime == old(trialStartTime)
      ensures !initialDelay && !delayTimer
      ensures !old(delayTimer) ==> post.None? && showFixation == old(showFixation) && fixationTimers == old(fixationTimers)
      ensures old(delayTimer) && trialIndex < |trials| ==> post.None? && showFixation && fixationTimers == old(fixationTimers) + 1
      ensures old(delayTimer) && trialIndex >= |trials| ==>
                post == Common.Post(name, responses, "SimonEffect", date)
                && showFixation == old(showFixation) && fixationTimers == old(fixationTimers)
    {
      post := None;
      if delayTimer {
        initialDelay := false;
        delayTimer := false;
        post := StartTrial(date);
      }
    }

    /** A fixation timer fires at `now`: the image appears, the reaction
        clock starts and the latch is cleared. This is the only place the
        latch is cleared. */
    method FixationElapsed(now: int)
      requires Valid()
      modifies this
      ensures Valid()
      ensures trialIndex == old(trialIndex) && responses == old(responses)
      ensures initialDelay == old(initialDelay) && delayTimer == old(delayTimer)
      ensures old(fixationTimers) > 0 ==>
                fixationTimers == old(fixationTimers) - 1 && !showFixation && trialStartTime == now && pressTime.None?
      ensures old(fixationTimers) == 0 ==>
                fixationTimers == 0 && showFixation == old(showFixation)
                && trialStartTime == old(trialStartTime) && pressTime == old(pressTime)
    {
      if fixationTimers > 0 {
        fixationTimers := fixationTimers - 1;
        showFixation := false;
        trialStartTime := now;
        pressTime := None;
      }
    }

    /** `handleButtonClick(color)` at time `now`. Accepted only while the
        latch is clear; there is no check of the cross. An accepted press
        past the last trial throws after setting the latch and records
        nothing. Otherwise one record is appended, the index moves on and
        the effect for the new index runs: it restarts the initial delay if
        that is still running, and calls `startTrial` if not. */
    method Press(color: Color, now: int, date: string) returns (post: Option<Common.Submission<Response>>)
      requires Valid()
      modifies this
      ensures Valid()
      ensures initialDelay == old(initialDelay) && delayTimer == old(delayTimer)
      ensures trialStartTime == old(trialStartTime)
      ensures Latched(old(pressTime)) ==>
                pressTime == old(pressTime) && trialIndex == old(trialIndex) && responses == old(responses)
                && showFixation == old(showFixation) && fixationTimers == old(fixationTimers) && post.None?
      ensures !Latched(old(pressTime)) ==> pressTime == Some(now)
      ensures !Latched(old(pressTime)) && old(trialIndex) >= |trials| ==>
                trialIndex == old(trialIndex) && responses == old(responses) && post.None?
                && showFixation == old(showFixation) && fixationTimers == old(fixationTimers)
      ensures !Latched(old(pressTime)) && old(trialIndex) < |trials| ==>
                responses == old(responses) + [Record(old(trials[trialIndex]), color, now - old(trialStartTime))]
                && trialIndex == old(trialIndex) + 1
      ensures !Latched(old(pressTime)) && old(trialIndex) < |trials| && initialDelay ==>
                post.None? && fixationTimers == old(fixationTimers) && showFixation == old(showFixation)
      ensures !Latched(old(pressTime)) && old(trialIndex) < |trials| && !initialDelay && trialIndex < |trials| ==>
                post.None? && fixationTimers == old(fixationTimers) + 1 && showFixation
      ensures !Latched(old(pressTime)) && old(trialIndex) < |trials| && !initialDelay && trialIndex == |trials| ==>
                post == Common.Post(name, responses, "SimonEffect", date)
                && fixationTimers == old(fixationTimers) && showFixation == old(showFixation)
    {
      post := None;
      if Latched(pressTime) {
        return;
      }
      pressTime := Some(now);
      if trialIndex >= |trials| {
        return;
      }
      responses := responses + [Record(trials[trialIndex], color, now - trialStartTime)];
      trialIndex := trialIndex + 1;
      if !initialDelay {
        post := StartTrial(date);
      }
    }
  }

  /** Two presses in a row record one response: the latch stays set until
      the next image appears. */
  method DoublePress(t: Test, first: Color, second: Color, now: int, date: string)
    requires t.Valid() && !Latched(t.pressTime) && now != 0 && t.trialIndex < |t.trials|
    modifies t
    ensures t.Valid()
    ensures |t.responses| == |old(t.responses)| + 1
    ensures t.responses[|t.responses| - 1].isCorrect == (first == t.responses[|t.responses| - 1].trial.image)
  {
    var p1 := t.Press(first, now, date);
    var p2 := t.Press(second, now, date);
  }
}
