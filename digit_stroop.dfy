/** The Digit Stroop test: two digits in different font sizes; the user
    answers `<`, `=` or `>` about the digits themselves. */
module DigitStroop {
  import opened Js
  import Common
  import Login

  datatype Trial = Trial(num1: string, num2: string, fontSize1: string, fontSize2: string)

  /** The compiled-in trial table. */
  const Trials: seq<Trial> := [
    Trial("1", "2", "48px", "24px"),
    Trial("3", "3", "36px", "36px"),
    Trial("4", "1", "24px", "48px"),
    Trial("2", "2", "48px", "48px")
  ]

  /** `determineCorrectResponse`: the digits are compared as strings. */
  function CorrectResponse(t: Trial): (r: string)
    ensures r == ">" || r == "<" || r == "="
    ensures r == "=" <==> t.num1 == t.num2
    ensures r == ">" <==> StrLess(t.num2, t.num1)
    ensures r == "<" <==> StrLess(t.num1, t.num2)
  {
    StrLessTrichotomy(t.num1, t.num2);
    if StrLess(t.num2, t.num1) then ">"
    else if StrLess(t.num1, t.num2) then "<"
    else "="
  }

  /** For the table's single digits the string comparison agrees with
      the numeric one. */
  lemma TableAnswers()
    ensures CorrectResponse(Trials[0]) == "<"
    ensures CorrectResponse(Trials[1]) == "="
    ensures CorrectResponse(Trials[2]) == ">"
    ensures CorrectResponse(Trials[3]) == "="
  {
  }

  /** With several digits the string comparison is not the numeric one:
      "10" sorts before "9". */
  lemma StringComparisonOfNumbers()
    ensures CorrectResponse(Trial("10", "9", "", "")) == "<"
  {
  }

  datatype Response = Response(trial: Trial, reactionTime: int, userResponse: string, isCorrect: bool)

  predicate Scored(r: Response) {
    r.isCorrect <==> r.userResponse == CorrectResponse(r.trial)
  }

  /** The component's state. `fixationTimer` is the pending 1000 ms timer
      that ends the fixation cross; `startTime` is 0 until it first fires,
      which is how subtraction reads the initial `null`. */
  class Test {
    const name: string
    var shuffledTrials: seq<Trial>
    var currentTrial: nat
    var startTime: int
    var responses: seq<Response>
    var isFixation: bool
    var fixationTimer: bool
    var completionDate: Option<string>

    /** One record per trial presented, in presentation order, each scored
        against its own trial; the stimulus is visible only while a trial
        remains. */
    ghost predicate Valid()
      reads this
    {
      && currentTrial <= |shuffledTrials|
      && |responses| == currentTrial
      && multiset(shuffledTrials) == multiset(Trials)
      && (forall i :: 0 <= i < |responses| ==> responses[i].trial == shuffledTrials[i] && Scored(responses[i]))
      && (fixationTimer ==> isFixation && currentTrial < |shuffledTrials|)
      && (!isFixation ==> currentTrial < |shuffledTrials|)
    }

    /** The state once mounted: a shuffled copy of the table, the name from
        the stored token, the fixation cross up and its timer running. */
    constructor(token: Option<string>, decode: Login.Decoder, picks: seq<nat>)
      ensures Valid()
      ensures name == Login.TokenName(token, decode)
      ensures |shuffledTrials| == |Trials| && multiset(shuffledTrials) == multiset(Trials)
      ensures currentTrial == 0 && responses == [] && isFixation && fixationTimer
      ensures startTime == 0 && completionDate.None?
    {
      name := Login.TokenName(token, decode);
      var shuffled := Common.ShuffledCopy(Trials, picks);
      shuffledTrials := shuffled;
      currentTrial := 0;
      startTime := 0;
      responses := [];
      isFixation := true;
      fixationTimer := true;
      completionDate := None;
    }

    /** The fixation timer fires: the digits appear and the reaction clock
        starts at `now`. */
    method FixationElapsed(now: int)
      requires Valid()
      modifies this
      ensures Valid()
      ensures old(fixationTimer) ==> !isFixation && startTime == now && !fixationTimer
      ensures !old(fixationTimer) ==> isFixation == old(isFixation) && startTime == old(startTime) && !fixationTimer
      ensures shuffledTrials == old(shuffledTrials) && currentTrial == old(currentTrial)
      ensures responses == old(responses) && completionDate == old(completionDate)
    {
      if fixationTimer {
        isFixation := false;
        startTime := now;
        fixationTimer := false;
      }
    }

    /** `handleButtonClick(response)` at time `now`, followed by the
        zero-delay advance and the effect it triggers; `date` is the
        completion timestamp. Ignored while the cross is up or once every
        trial is done. */
    method Click(response: string, now: int, date: string) returns (post: Option<Common.Submission<Response>>)
      requires Valid()
      modifies this
      ensures Valid()
      ensures shuffledTrials == old(shuffledTrials)
      ensures old(currentTrial >= |shuffledTrials| || isFixation) ==>
                currentTrial == old(currentTrial) && responses == old(responses) && isFixation == old(isFixation)
                && startTime == old(startTime) && fixationTimer == old(fixationTimer)
                && completionDate == old(completionDate) && post.None?
      ensures old(currentTrial < |shuffledTrials| && !isFixation) ==>
                var trial := old(shuffledTrials[currentTrial]);
                && responses == old(responses) + [Response(trial, now - old(startTime), response, response == CorrectResponse(trial))]
                && currentTrial == old(currentTrial) + 1
                && isFixation && startTime == old(startTime)
                && fixationTimer == (currentTrial < |shuffledTrials|)
                && (currentTrial < |shuffledTrials| ==> post.None? && completionDate == old(completionDate))
                && (currentTrial == |shuffledTrials| ==>
                      completionDate == Some(date) && post == Common.Post(name, responses, "Digit Stroop", date))
    {
      post := None;
      if currentTrial >= |shuffledTrials| || isFixation {
        return;
      }
      var trial := shuffledTrials[currentTrial];
      var correct := CorrectResponse(trial);
      responses := responses + [Response(trial, now - startTime, response, response == correct)];
      isFixation := true;
      currentTrial := currentTrial + 1;
      if currentTrial < |shuffledTrials| {
        fixationTimer := true;
      } else {
        completionDate := Some(date);
        post := Common.Post(name, responses, "Digit Stroop", date);
      }
    }
  }

  /** Two clicks in a row record one response: the first puts the cross
      back up, so the second is ignored. */
  method DoubleClick(t: Test, first: string, second: string, now: int, date: string)
    requires t.Valid() && !t.isFixation
    modifies t
    ensures t.Valid()
    ensures |t.responses| == |old(t.responses)| + 1
    ensures t.responses[|t.responses| - 1].userResponse == first
  {
    var p1 := t.Click(first, now, date);
    var p2 := t.Click(second, now, date);
  }
}
