/** The Dual Task test: each of five trials shows a fixation cross, then a
    number (or nothing), then, after a random delay, a red circle. The user
    presses a button as soon as the circle appears and then says which
    number was shown (`x` for none). `Math.random()` values are the
    parameters of type `Unit`. */
module DualTask {
  import opened Js
  import Common
  import Login

  /** A value of `Math.random()`: the fraction `u.0 / u.1`, in [0, 1). */
  type Unit = u: (nat, nat) | u.0 < u.1 witness (0, 1)

  /** `Math.floor(u * k)`; division by the positive denominator rounds
      down. */
  function FloorScale(u: Unit, k: int): (r: int)
    ensures k > 0 ==> 0 <= r < k
  {
    if k > 0 then ScaleBelow(u, k); u.0 * k / u.1
    else u.0 * k / u.1
  }

  lemma ScaleBelow(u: Unit, k: int)
    requires k > 0
    ensures 0 <= u.0 * k / u.1 < k
  {
    assert u.0 * k < u.1 * k by {
      assert (u.1 - u.0) * k > 0;
    }
    assert u.0 * k >= 0;
  }

  /** `getRandomDelay(min, max)`. */
  function RandomDelay(min: int, max: int, u: Unit): (r: int)
    ensures min <= max ==> min <= r <= max
  {
    FloorScale(u, max - min + 1) + min
  }

  /** Every delay before the circle lies between 350 and 500 ms, and both
      ends occur. */
  lemma CircleDelayBounds(u: Unit)
    ensures 350 <= RandomDelay(350, 500, u) <= 500
    ensures RandomDelay(350, 500, (0, 1)) == 350
    ensures RandomDelay(350, 500, (150, 151)) == 500
  {
  }

  /** What the screen shows as the number: nothing yet (`null`), the empty
      string, or a number. */
  datatype Shown = NoNumber | Blank | Number(n: nat)

  /** A response button: a number or `x`. */
  datatype Choice = Pick(n: nat) | X

  const DisplayNumbers: seq<Shown> := [Number(1), Number(2), Number(3), Blank]
  const ResponseNumbers: seq<Choice> := [Pick(1), Pick(2), Pick(3), X]
  const TotalTrials := 5

  /** `String(currentNumber)`. */
  function ShownString(s: Shown): string {
    match s
    case NoNumber => "null"
    case Blank => ""
    case Number(n) => NatToString(n)
  }

  /** `String(number)`. */
  function ChoiceString(c: Choice): string {
    match c
    case Pick(n) => NatToString(n)
    case X => "x"
  }

  /** The scoring expression of `handleNumberSelection`. */
  function IsCorrect(shown: Shown, choice: Choice): bool {
    (shown == Blank && choice == X) || ChoiceString(choice) == ShownString(shown)
  }

  /** A selection is correct exactly when it names the number shown, or
      is `x` when nothing was shown; `x` is wrong when a number was shown,
      and no answer matches a missing number. */
  lemma IsCorrectMeaning(shown: Shown, choice: Choice)
    ensures IsCorrect(shown, choice) <==>
              (shown == Blank && choice == X) || (shown.Number? && choice.Pick? && shown.n == choice.n)
  {
    match shown
    case NoNumber =>
      match choice {
        case Pick(m) => assert IsDigit(NatToString(m)[0]);
                        assert "null"[0] == 'n';
        case X =>
      }
    case Blank =>
      match choice {
        case Pick(m) => assert NatToString(m) != [];
        case X =>
      }
    case Number(n) =>
      match choice {
        case Pick(m) => NatToStringInjective(m, n);
        case X => assert IsDigit(NatToString(n)[0]);
      }
  }

  /** `displayNumbers[Math.floor(u * displayNumbers.length)]`: always one
      of the four display values, never `null`. */
  function RandomNumber(u: Unit): (s: Shown)
    ensures s in DisplayNumbers && s != NoNumber
  {
    DisplayNumbers[FloorScale(u, |DisplayNumbers|)]
  }

  datatype Container = Container2 | Container4

  /** `Math.random() > 0.5 ? 'container2' : 'container4'`. */
  function RandomContainer(u: Unit): Container {
    if 2 * u.0 > u.1 then Container2 else Container4
  }

  /** Both containers occur, and a value of exactly one half goes to
      container 4. */
  lemma ContainerOutcomes()
    ensures RandomContainer((3, 4)) == Container2
    ensures RandomContainer((1, 4)) == Container4
    ensures RandomContainer((1, 2)) == Container4
  {
  }

  datatype Phase = Fixation | ShowNumber | CircleReady | Circle | Response | Completed

  /** The next timer of the chain `startTrial` sets up. */
  datatype Timer = NoTimer | FixationTimer | NumberTimer | CircleTimer(delay: int)

  datatype Record = Record(trial: nat, reactionTime: Option<int>, isCorrect: bool, condition: Shown, selectedNumber: Choice)

  /** The name the completion effect posts under: `Anonymous` without a
      token, `None` (the effect throws) when the token does not decode. */
  function CompletionName(token: Option<string>, decode: Login.Decoder): (name: Option<string>)
    ensures token.None? ==> name == Some("Anonymous")
    ensures token.Some? ==> (name.None? <==> Login.ParseJwt(token.value, decode).None?)
    ensures token.Some? && name.Some? ==> name.value == Login.ParseJwt(token.value, decode).value.name
  {
    if token.None? then Some("Anonymous")
    else
      var claims := Login.ParseJwt(token.value, decode);
      if claims.None? then None else Some(claims.value.name)
  }

  /** The component's state. `pending` is the next timer of the current
      trial's chain; `hideTimer` the 150 ms timer that hides the circle. */
  class Test {
    var phase: Phase
    var currentNumber: Shown
    var reactionStart: int
    var reactionTime: Option<int>
    var userResponses: seq<Record>
    var trialIndex: nat
    var showCircle: bool
    var circleContainer: Container
    var pending: Timer
    var hideTimer: bool

    /** Records are numbered 1, 2, … and scored; the run is completed
        exactly when five are recorded; each phase before the circle has
        its timer pending; the number on screen is one of the display
        values until the run completes. */
    ghost predicate Valid()
      reads this
    {
      && trialIndex < TotalTrials
      && (phase == Completed <==> |userResponses| == TotalTrials)
      && (phase != Completed ==> |userResponses| == trialIndex)
      && (phase == Completed ==> trialIndex == TotalTrials - 1 && currentNumber == NoNumber)
      && (forall i :: 0 <= i < |userResponses| ==>
            userResponses[i].trial == i + 1
            && userResponses[i].condition in DisplayNumbers
            && userResponses[i].selectedNumber in ResponseNumbers
            && userResponses[i].isCorrect == IsCorrect(userResponses[i].condition, userResponses[i].selectedNumber))
      && (pending == FixationTimer <==> phase == Fixation)
      && (pending == NumberTimer <==> phase == ShowNumber)
      && (pending.CircleTimer? <==> phase == CircleReady)
      && (pending.CircleTimer? ==> 350 <= pending.delay <= 500)
      && (phase == Response ==> reactionTime.Some?)
      && (phase != Completed ==> currentNumber in DisplayNumbers)
    }

    /** `startTrial` on the current state. */
    method StartTrial(uNumber: Unit, uContainer: Unit)
      modifies this`phase, this`showCircle, this`currentNumber, this`circleContainer, this`pending
      ensures phase == Fixation && !showCircle && pending == FixationTimer
      ensures currentNumber == RandomNumber(uNumber) && circleContainer == RandomContainer(uContainer)
    {
      phase := Fixation;
      showCircle := false;
      currentNumber := RandomNumber(uNumber);
      circleContainer := RandomContainer(uContainer);
      pending := FixationTimer;
    }

    /** The mount effect's first `startTrial`. */
    constructor(uNumber: Unit, uContainer: Unit)
      ensures Valid()
      ensures phase == Fixation && trialIndex == 0 && userResponses == [] && reactionTime.None?
      ensures currentNumber == RandomNumber(uNumber) && circleContainer == RandomContainer(uContainer)
      ensures pending == FixationTimer && !showCircle && !hideTimer
    {
      reactionStart := 0;
      reactionTime := None;
      userResponses := [];
      trialIndex := 0;
      hideTimer := false;
      phase := Fixation;
      showCircle := false;
      currentNumber := RandomNumber(uNumber);
      circleContainer := RandomContainer(uContainer);
      pending := FixationTimer;
    }

    /** The 1 s fixation timer fires: the number is shown. */
    method FixationElapsed()
      requires Valid()
      modifies this`phase, this`pending
      ensures Valid()
      ensures old(phase) == Fixation ==> phase == ShowNumber && pending == NumberTimer
      ensures old(phase) != Fixation ==> phase == old(phase) && pending == old(pending)
      ensures userResponses == old(userResponses) && trialIndex == old(trialIndex) && currentNumber == old(currentNumber)
      ensures reactionTime == old(reactionTime) && reactionStart == old(reactionStart)
      ensures showCircle == old(showCircle) && hideTimer == old(hideTimer) && circleContainer == old(circleContainer)
    {
      if pending == FixationTimer {
        phase := ShowNumber;
        pending := NumberTimer;
      }
    }

    /** The 1 s number timer fires: the number stays up and the random
        delay before the circle starts. */
    method NumberElapsed(u: Unit)
      requires Valid()
      modifies this`phase, this`pending
      ensures Valid()
      ensures old(phase) == ShowNumber ==> phase == CircleReady && pending == CircleTimer(RandomDelay(350, 500, u))
      ensures old(phase) != ShowNumber ==> phase == old(phase) && pending == old(pending)
      ensures userResponses == old(userResponses) && trialIndex == old(trialIndex) && currentNumber == old(currentNumber)
      ensures reactionTime == old(reactionTime) && reactionStart == old(reactionStart)
      ensures showCircle == old(showCircle) && hideTimer == old(hideTimer) && circleContainer == old(circleContainer)
    {
      if pending == NumberTimer {
        phase := CircleReady;
        pending := CircleTimer(RandomDelay(350, 500, u));
      }
    }

    /** The random delay ends at `now`: the circle appears, the reaction
        clock starts and the hide timer is set. */
    method CircleElapsed(now: int)
      requires Valid()
      modifies this`phase, this`pending, this`reactionStart, this`showCircle, this`hideTimer
      ensures Valid()
      ensures old(phase) == CircleReady ==>
                phase == Circle && pending == NoTimer && reactionStart == now && showCircle && hideTimer
      ensures old(phase) != CircleReady ==>
                phase == old(phase) && pending == old(pending) && reactionStart == old(reactionStart)
                && showCircle == old(showCircle) && hideTimer == old(hideTimer)
      ensures userResponses == old(userResponses) && trialIndex == old(trialIndex) && currentNumber == old(currentNumber)
      ensures reactionTime == old(reactionTime) && circleContainer == old(circleContainer)
    {
      if pending.CircleTimer? {
        phase := Circle;
        pending := NoTimer;
        reactionStart := now;
        showCircle := true;
        hideTimer := true;
      }
    }

    /** The 150 ms timer hides the circle; the phase does not change. */
    method HideElapsed()
      requires Valid()
      modifies this`showCircle, this`hideTimer
      ensures Valid()
      ensures !hideTimer
      ensures old(hideTimer) ==> !showCircle
      ensures !old(hideTimer) ==> showCircle == old(showCircle)
    {
      if hideTimer {
        showCircle := false;
        hideTimer := false;
      }
    }

    /** `handleReaction` at `now`: only while the circle phase lasts, the
        reaction time is taken and the number buttons appear. */
    method React(now: int)
      requires Valid()
      modifies this`reactionTime, this`phase
      ensures Valid()
      ensures old(phase) == Circle ==> phase == Response && reactionTime == Some(now - reactionStart)
      ensures old(phase) != Circle ==> phase == old(phase) && reactionTime == old(reactionTime)
    {
      if phase == Circle {
        reactionTime := Some(now - reactionStart);
        phase := Response;
      }
    }

    /** `handleNumberSelection(choice)`; the buttons exist only in the
        response phase. One record is appended; before the fifth trial the
        index moves on and the next trial starts, after it the run
        completes and the completion effect yields the results to post. */
    method Select(choice: Choice, uNumber: Unit, uContainer: Unit,
                  token: Option<string>, decode: Login.Decoder, date: string)
      returns (post: Option<Common.Submission<Record>>)
      requires Valid() && choice in ResponseNumbers
      modifies this`phase, this`showCircle, this`currentNumber, this`circleContainer, this`pending
      modifies this`userResponses, this`trialIndex
      ensures Valid()
      ensures old(phase) != Response ==>
                phase == old(phase) && userResponses == old(userResponses) && trialIndex == old(trialIndex)
                && currentNumber == old(currentNumber) && pending == old(pending) && post.None?
                && showCircle == old(showCircle) && circleContainer == old(circleContainer)
      ensures old(phase) == Response ==>
                userResponses == old(userResponses) +
                  [Record(old(trialIndex) + 1, old(reactionTime), IsCorrect(old(currentNumber), choice), old(currentNumber), choice)]
      ensures old(phase) == Response && old(trialIndex) < TotalTrials - 1 ==>
                trialIndex == old(trialIndex) + 1 && phase == Fixation && pending == FixationTimer
                && currentNumber == RandomNumber(uNumber) && circleContainer == RandomContainer(uContainer)
                && !showCircle && post.None?
      ensures old(phase) == Response && old(trialIndex) == TotalTrials - 1 ==>
                trialIndex == old(trialIndex) && phase == Completed && currentNumber == NoNumber
                && pending == old(pending) && showCircle == old(showCircle) && circleContainer == old(circleContainer)
                && post == (var name := CompletionName(token, decode);
                            if name.None? then None else Common.Post(name.value, userResponses, "DualTask", date))
      ensures reactionTime == old(reactionTime) && reactionStart == old(reactionStart) && hideTimer == old(hideTimer)
    {
      post := None;
      if phase != Response {
        return;
      }
      var isCorrect := IsCorrect(currentNumber, choice);
      userResponses := userResponses + [Record(trialIndex + 1, reactionTime, isCorrect, currentNumber, choice)];
      currentNumber := NoNumber;
      if trialIndex < TotalTrials - 1 {
        trialIndex := trialIndex + 1;
        StartTrial(uNumber, uContainer);
      } else {
        phase := Completed;
        var name := CompletionName(token, decode);
        if name.Some? {
          post := Common.Post(name.value, userResponses, "DualTask", date);
        }
      }
    }
  }

  /** The timers of one trial, in order, lead from the cross to the
      circle. */
  method TrialPhases(t: Test, u: Unit, now: int)
    requires t.Valid() && t.phase == Fixation
    modifies t
    ensures t.Valid() && t.phase == Circle && t.reactionStart == now
    ensures t.userResponses == old(t.userResponses) && t.currentNumber == old(t.currentNumber)
  {
    t.FixationElapsed();
    assert t.phase == ShowNumber;
    t.NumberElapsed(u);
    assert t.phase == CircleReady;
    t.CircleElapsed(now);
  }
}
