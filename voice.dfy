/** The spoken questionnaire: each of 21 questions is read aloud, the
    answer is recognised within 10 seconds together with audio frames, and
    at the end the answers are posted without their audio and the audio is
    offered as a CSV text. Speech synthesis and recognition, the
    microphone and the clock are events and parameters of the methods of
    `Dialog`. */
module Voice {
  import opened Js
  import Common
  import Login
  import Server

  const Questions: seq<string> := [
    "Questa prova si svolge con un generatore vocale che ti pone delle domande. Rispondete a voce entro 10 secondi. Sei pronto?",
    "Mi sento calmo.",
    "Mi sento sicuro.",
    "Sono teso.",
    "Mi sento sotto pressione.",
    "Mi sento tranquillo.",
    "Mi sento turbato.",
    "Sono attualmente preoccupato per possibili disgrazie.",
    "Mi sento soddisfatto.",
    "Mi sento intimorito.",
    "Mi sento a mio agio.",
    "Mi sento sicuro di me.",
    "Mi sento nervoso.",
    "Sono agitato.",
    "Mi sento indeciso.",
    "Sono rilassato.",
    "Mi sento contento.",
    "Sono preoccupato.",
    "Mi sento confuso.",
    "Mi sento disteso.",
    "Mi sento bene."
  ]

  /** The recognition window, in seconds. */
  const ListenSeconds: nat := 10

  // ---------------------------------------------------------------------
  // The echo filter

  /** `s.trim().toLowerCase()`. */
  function Normalize(s: string): string {
    ToLower(Trim(s))
  }

  predicate NonSpaceEnds(s: string) {
    s != [] && !IsSpace(s[0]) && !IsSpace(s[|s| - 1])
  }

  /** The recogniser hearing a question back, in any case and with any
      surrounding white space, is recognised as an echo of it; every
      question begins with a letter and ends with `.` or `?`. */
  lemma EchoOfQuestion(q: string, w1: string, w2: string)
    requires NonSpaceEnds(q)
    requires forall k :: 0 <= k < |w1| ==> IsSpace(w1[k])
    requires forall k :: 0 <= k < |w2| ==> IsSpace(w2[k])
    ensures Normalize(w1 + ToUpper(q) + w2) == Normalize(q)
  {
    UpperKeepsSpace(q);
    TrimPadded(w1, ToUpper(q), w2);
    TrimPadded("", q, "");
    assert "" + q + "" == q;
    LowerOfUpper(q);
  }

  // ---------------------------------------------------------------------
  // The countdown

  /** One tick of the countdown interval: down by one while above 1,
      otherwise 0 (and the interval stops). */
  function CountdownTick(c: nat): (r: nat)
    ensures c > 1 ==> r == c - 1
    ensures c <= 1 ==> r == 0
  {
    if c > 1 then c - 1 else 0
  }

  /** The countdown after `k` ticks from `c`. */
  function Ticks(c: nat, k: nat): nat
    decreases k
  {
    if k == 0 then c else Ticks(CountdownTick(c), k - 1)
  }

  /** The countdown goes down one per tick and stays at 0 once there: from
      10 it reaches 0 after exactly 10 ticks. */
  lemma {:induction false} TicksFrom(c: nat, k: nat)
    ensures Ticks(c, k) == if k < c then c - k else 0
    decreases k
  {
    if k > 0 {
      TicksFrom(CountdownTick(c), k - 1);
    }
  }

  // ---------------------------------------------------------------------
  // Answers and the stripped copy that is posted

  /** One audio frame: its sample values as they print. */
  type Frame = seq<string>

  /** A response record: `startTime` and `endTime` are ISO timestamps,
      `volume` the level measured when the answer came. */
  datatype Answer = Answer(question: string, startTime: Option<string>, answer: Option<string>,
                           volume: Option<int>, endTime: Option<string>, audioData: seq<Frame>)

  /** The same record without `audioData`. */
  datatype SavedAnswer = SavedAnswer(question: string, startTime: Option<string>, answer: Option<string>,
                                     volume: Option<int>, endTime: Option<string>)

  function WithoutAudio(a: Answer): SavedAnswer {
    SavedAnswer(a.question, a.startTime, a.answer, a.volume, a.endTime)
  }

  function WithAudio(s: SavedAnswer, audio: seq<Frame>): Answer {
    Answer(s.question, s.startTime, s.answer, s.volume, s.endTime, audio)
  }

  /** `responses.map(({ audioData, ...rest }) => rest)`: destructuring a
      `null` entry throws, and then nothing is posted. */
  function Strip(rs: seq<Option<Answer>>): (r: Option<seq<SavedAnswer>>)
    ensures r.Some? <==> forall i :: 0 <= i < |rs| ==> rs[i].Some?
    ensures r.Some? ==> |r.value| == |rs|
  {
    if forall i :: 0 <= i < |rs| ==> rs[i].Some?
    then Some(seq(|rs|, i requires 0 <= i < |rs| => WithoutAudio(rs[i].value)))
    else None
  }

  /** Only `audioData` is dropped: putting each record's audio back gives
      the recorded responses again. */
  lemma StripRestores(rs: seq<Option<Answer>>)
    requires Strip(rs).Some?
    ensures forall i :: 0 <= i < |rs| ==> Some(WithAudio(Strip(rs).value[i], rs[i].value.audioData)) == rs[i]
  {
  }

  // ---------------------------------------------------------------------
  // The CSV text

  const Prefix := "data:text/csv;charset=utf-8,"
  const Header := "Question Number,Question,User Response,Start Time,End Time,Audio Data\n"

  /** `responses.filter(response => response != null)`. */
  function NonNull(rs: seq<Option<Answer>>): (vs: seq<Answer>)
    ensures |vs| <= |rs|
    ensures forall a :: a in vs ==> Some(a) in rs
    ensures forall i :: 0 <= i < |rs| && rs[i].Some? ==> rs[i].value in vs
    decreases |rs|
  {
    if rs == [] then []
    else
      var last := rs[|rs| - 1];
      NonNull(rs[..|rs| - 1]) + (if last.Some? then [last.value] else [])
  }

  /** A template literal's `"${s}"`. */
  function Quote(s: string): string {
    "\"" + s + "\""
  }

  /** `${response.answer}` prints `null` for a missing answer. */
  function AnswerText(answer: Option<string>): string {
    if answer.None? then "null" else answer.value
  }

  /** `Array.join` prints a `null` element as nothing. */
  function Cell(v: Option<string>): string {
    if v.None? then "" else v.value
  }

  /** The six cells of the header row of the `k`-th block. */
  function HeaderCells(a: Answer, k: nat): seq<string> {
    [NatToString(k), Quote(a.question), Quote(AnswerText(a.answer)), Cell(a.startTime), Cell(a.endTime), ""]
  }

  /** The header row of the `k`-th block, its cells joined by commas. */
  function HeaderRow(a: Answer, k: nat): string {
    NatToString(k) + "," + Quote(a.question) + "," + Quote(AnswerText(a.answer)) + ","
    + Cell(a.startTime) + "," + Cell(a.endTime) + ","
  }

  function FrameLine(f: Frame): string {
    ",,,,," + Join(f, ",") + "\n"
  }

  function FrameLines(fs: seq<Frame>): string
    decreases |fs|
  {
    if fs == [] then "" else FrameLines(fs[..|fs| - 1]) + FrameLine(fs[|fs| - 1])
  }

  /** The block of the `k`-th non-null response: nothing without audio. */
  function Block(a: Answer, k: nat): string {
    if |a.audioData| > 0 then HeaderRow(a, k) + "\n" + FrameLines(a.audioData) + "\n" else ""
  }

  /** All blocks, numbered from 1 by position among the non-null
      responses. */
  function Blocks(vs: seq<Answer>): string
    decreases |vs|
  {
    if vs == [] then "" else Blocks(vs[..|vs| - 1]) + Block(vs[|vs| - 1], |vs|)
  }

  /** The CSV text `downloadAudioDataAsCSV` builds, before `encodeURI`. */
  function CsvText(rs: seq<Option<Answer>>): string {
    Prefix + Header + Blocks(NonNull(rs))
  }

  lemma Assoc(a: string, b: string, c: string)
    ensures (a + b) + c == a + (b + c)
  {
  }

  lemma BlocksStep(vs: seq<Answer>, i: nat)
    requires i < |vs|
    ensures Blocks(vs[..i + 1]) == Blocks(vs[..i]) + Block(vs[i], i + 1)
  {
    assert vs[..i + 1][..i] == vs[..i];
  }

  lemma FrameLinesStep(fs: seq<Frame>, j: nat)
    requires j < |fs|
    ensures FrameLines(fs[..j + 1]) == FrameLines(fs[..j]) + FrameLine(fs[j])
  {
    assert fs[..j + 1][..j] == fs[..j];
  }

  /** `downloadAudioDataAsCSV`'s loops: for every non-null response with
      audio, a header row and one line per frame, then an empty line. */
  method BuildCsv(rs: seq<Option<Answer>>) returns (csv: string)
    ensures csv == CsvText(rs)
  {
    csv := Prefix;
    csv := csv + Header;
    var valid := NonNull(rs);
    var index := 0;
    while index < |valid|
      invariant 0 <= index <= |valid|
      invariant csv == Prefix + Header + Blocks(valid[..index])
    {
      var response := valid[index];
      BlocksStep(valid, index);
      ghost var before := csv;
      if |response.audioData| > 0 {
        var row := HeaderRow(response, index + 1) + "\n";
        csv := csv + row;
        var frame := 0;
        while frame < |response.audioData|
          invariant 0 <= frame <= |response.audioData|
          invariant csv == before + row + FrameLines(response.audioData[..frame])
        {
          FrameLinesStep(response.audioData, frame);
          Assoc(before + row, FrameLines(response.audioData[..frame]), FrameLine(response.audioData[frame]));
          csv := csv + FrameLine(response.audioData[frame]);
          frame := frame + 1;
        }
        assert response.audioData[..frame] == response.audioData;
        csv := csv + "\n";
        Assoc(before, row, FrameLines(response.audioData));
        Assoc(before, row + FrameLines(response.audioData), "\n");
        assert csv == before + Block(response, index + 1);
      }
      Assoc(Prefix + Header, Blocks(valid[..index]), Block(response, index + 1));
      index := index + 1;
    }
    assert valid[..index] == valid;
  }

  lemma NonNullAppend(rs: seq<Option<Answer>>, r: Option<Answer>)
    ensures NonNull(rs + [r]) == NonNull(rs) + (if r.Some? then [r.value] else [])
  {
    assert (rs + [r])[..|rs|] == rs;
  }

  /** Filtering from the front: together with `NonNullAppend` and
      `NonNull([]) == []` this fixes the filter, order included. */
  lemma {:induction false} NonNullPrepend(r: Option<Answer>, rs: seq<Option<Answer>>)
    ensures NonNull([r] + rs) == (if r.Some? then [r.value] else []) + NonNull(rs)
    decreases |rs|
  {
    var head := if r.Some? then [r.value] else [];
    if rs == [] {
      assert [r] + rs == [] + [r];
      NonNullAppend([], r);
    } else {
      var init, last := rs[..|rs| - 1], rs[|rs| - 1];
      var tail := if last.Some? then [last.value] else [];
      assert rs == init + [last];
      assert [r] + rs == ([r] + init) + [last];
      NonNullAppend([r] + init, last);
      NonNullPrepend(r, init);
      NonNullAppend(init, last);
      assert NonNull([r] + rs) == (head + NonNull(init)) + tail;
      assert (head + NonNull(init)) + tail == head + (NonNull(init) + tail);
    }
  }

  lemma BlocksAppend(vs: seq<Answer>, a: Answer)
    ensures Blocks(vs + [a]) == Blocks(vs) + Block(a, |vs| + 1)
  {
    var u := vs + [a];
    assert u[..|u| - 1] == vs;
    assert u[|u| - 1] == a;
    assert Blocks(u) == Blocks(u[..|u| - 1]) + Block(u[|u| - 1], |u|);
  }

  /** A `null` response adds nothing to the CSV. */
  lemma CsvAppendNull(rs: seq<Option<Answer>>)
    ensures CsvText(rs + [None]) == CsvText(rs)
  {
    NonNullAppend(rs, None);
    assert NonNull(rs) + [] == NonNull(rs);
  }

  /** A recorded response adds its own block, numbered one past the
      non-null responses before it. */
  lemma CsvAppendAnswer(rs: seq<Option<Answer>>, a: Answer)
    ensures CsvText(rs + [Some(a)]) == CsvText(rs) + Block(a, |NonNull(rs)| + 1)
  {
    NonNullAppend(rs, Some(a));
    BlocksAppend(NonNull(rs), a);
    Assoc(Prefix + Header, Blocks(NonNull(rs)), Block(a, |NonNull(rs)| + 1));
  }

  /** The CSV holds no block exactly when no response has audio. */
  lemma {:induction false} BlocksEmptyIff(vs: seq<Answer>)
    ensures Blocks(vs) == "" <==> forall i :: 0 <= i < |vs| ==> |vs[i].audioData| == 0
    decreases |vs|
  {
    if vs != [] {
      var init := vs[..|vs| - 1];
      BlocksEmptyIff(init);
      var last := vs[|vs| - 1];
      if |last.audioData| > 0 {
        assert |Block(last, |vs|)| > 0;
      } else {
        forall i | 0 <= i < |init|
          ensures vs[i] == init[i]
        {
        }
      }
    }
  }

  lemma JoinCons(x: string, rest: seq<string>, sep: string)
    requires rest != []
    ensures Join([x] + rest, sep) == x + sep + Join(rest, sep)
  {
    assert ([x] + rest)[1..] == rest;
  }

  /** The header row is `[…].join(',')` of its cells. */
  lemma HeaderRowIsJoin(a: Answer, k: nat)
    ensures HeaderRow(a, k) == Join(HeaderCells(a, k), ",")
  {
    var c := HeaderCells(a, k);
    JoinCons(c[4], [c[5]], ",");
    assert [c[4]] + [c[5]] == c[4..];
    JoinCons(c[3], c[4..], ",");
    assert [c[3]] + c[4..] == c[3..];
    JoinCons(c[2], c[3..], ",");
    assert [c[2]] + c[3..] == c[2..];
    JoinCons(c[1], c[2..], ",");
    assert [c[1]] + c[2..] == c[1..];
    JoinCons(c[0], c[1..], ",");
    assert [c[0]] + c[1..] == c;
  }

  /** When none of its texts contains a comma, a header row reads back as
      its six cells; the question and answer quoting does not escape, so
      this fails for a comma in either. */
  lemma HeaderRowFields(a: Answer, k: nat)
    requires ',' !in a.question && ',' !in AnswerText(a.answer)
    requires ',' !in Cell(a.startTime) && ',' !in Cell(a.endTime)
    ensures Split(HeaderRow(a, k), ',') == HeaderCells(a, k)
  {
    var digits := NatToString(k);
    assert forall i :: 0 <= i < |digits| ==> digits[i] != ',' by {
      assert !IsDigit(',');
    }
    HeaderRowIsJoin(a, k);
    SplitJoin(HeaderCells(a, k), ',');
  }

  function Empties(n: nat): seq<string> {
    seq(n, _ => "")
  }

  function Commas(n: nat): string {
    seq(n, _ => ',')
  }

  lemma {:induction false} JoinAfterEmpties(n: nat, f: seq<string>)
    requires f != []
    ensures Join(Empties(n) + f, ",") == Commas(n) + Join(f, ",")
  {
    var j := Join(f, ",");
    if n == 0 {
      assert Empties(0) + f == f;
      assert Commas(0) + j == j;
    } else {
      JoinAfterEmpties(n - 1, f);
      assert Empties(n) + f == [""] + (Empties(n - 1) + f);
      JoinCons("", Empties(n - 1) + f, ",");
      assert Commas(n) == "," + Commas(n - 1);
      Assoc(",", Commas(n - 1), j);
    }
  }

  lemma FiveEmpties(f: seq<string>)
    requires f != []
    ensures Join(Empties(5) + f, ",") == ",,,,," + Join(f, ",")
  {
    JoinAfterEmpties(5, f);
    assert Commas(5) == ",,,,,";
  }

  /** A frame line reads back as five empty cells and the frame's values. */
  lemma FrameLineFields(f: Frame)
    requires f != [] && forall i :: 0 <= i < |f| ==> ',' !in f[i]
    ensures Split(",,,,," + Join(f, ","), ',') == Empties(5) + f
  {
    var parts := Empties(5) + f;
    assert forall i :: 0 <= i < |parts| ==> ',' !in parts[i] by {
      forall i | 0 <= i < |parts|
        ensures ',' !in parts[i]
      {
        if i < 5 {
          assert parts[i] == "";
        } else {
          assert parts[i] == f[i - 5];
        }
      }
    }
    FiveEmpties(f);
    SplitJoin(parts, ',');
  }

  // ---------------------------------------------------------------------
  // Saving

  /** `JSON.parse(atob(p))` on a base64 text `p`, `None` when either call
      throws. Unlike `Login.Decoder` there is no `decodeURIComponent` step,
      so the two can differ on a payload whose bytes are not ASCII. */
  type PayloadParser = string -> Option<Server.Claims>

  /** `JSON.parse(atob(token.split('.')[1])).name`: the payload segment is
      decoded without the base64url mapping; `None` when anything throws. */
  function PayloadName(token: string, parse: PayloadParser): (name: Option<string>)
    ensures name.Some? ==> |Split(token, '.')| >= 2
  {
    var parts := Split(token, '.');
    if |parts| < 2 then None
    else
      var claims := parse(parts[1]);
      if claims.None? then None else Some(claims.value.name)
  }

  /** For a payload free of `-` and `_`, on which the two decoders agree
      (the case of a payload whose bytes are ASCII), this reads the same
      name as the login screen's `parseJwt`: the base64url mapping is the
      only other difference. */
  lemma PayloadNameAgrees(token: string, parse: PayloadParser, decode: Login.Decoder)
    requires |Split(token, '.')| >= 2
    requires '-' !in Split(token, '.')[1] && '_' !in Split(token, '.')[1]
    requires parse(Split(token, '.')[1]) == decode(Split(token, '.')[1])
    ensures PayloadName(token, parse).Some? <==> Login.ParseJwt(token, decode).Some?
    ensures PayloadName(token, parse).Some? ==> PayloadName(token, parse).value == Login.ParseJwt(token, decode).value.name
  {
    var p := Split(token, '.')[1];
    assert Login.Base64UrlToBase64(p) == p;
  }

  /** The request `handleSaveResults` sends: nothing without a token, when
      the token does not decode, or when a response is `null`. */
  function SaveRequest(rs: seq<Option<Answer>>, token: Option<string>, parse: PayloadParser, date: string)
    : (req: Option<Common.Submission<SavedAnswer>>)
    ensures req.Some? <==> token.Some? && PayloadName(token.value, parse).Some? && Strip(rs).Some?
    ensures req.Some? ==> req.value == Common.Submission(PayloadName(token.value, parse).value, Strip(rs).value, "Voice Analysis", date)
  {
    if token.None? then None
    else
      var name := PayloadName(token.value, parse);
      var stripped := Strip(rs);
      if name.None? || stripped.None? then None
      else Some(Common.Submission(name.value, stripped.value, "Voice Analysis", date))
  }

  // ---------------------------------------------------------------------
  // The dialog

  /** The component's state and refs. `current` is `currentResponseRef`,
      `audioData` is `audioDataRef`; `countdownRunning` and
      `recognitionTimer` are the pending interval and 10 s timeout;
      `analysing` says the audio loop runs, `frameCount` is its counter. */
  class Dialog {
    const questions: seq<string>
    var transcript: string
    var isListening: bool
    var isSpeaking: bool
    var currentQuestionIndex: nat
    var responses: seq<Option<Answer>>
    var countdown: nat
    var countdownRunning: bool
    var recognitionTimer: bool
    var current: Option<Answer>
    var audioData: seq<Frame>
    var analysing: bool
    var frameCount: nat

    /** The i-th response answers the i-th question; while a question is
        asked, every earlier one has exactly one response; with none asked
        the dialog has not started or has answered them all. */
    ghost predicate Valid()
      reads this
    {
      && |questions| == |Questions|
      && currentQuestionIndex < |questions|
      && |responses| <= |questions|
      && (forall i :: 0 <= i < |responses| ==> responses[i].Some? && responses[i].value.question == questions[i])
      && (current.Some? ==> current.value.question == questions[currentQuestionIndex] && |responses| == currentQuestionIndex)
      && (current.None? ==>
            (responses == [] && currentQuestionIndex == 0)
            || (|responses| == |questions| && currentQuestionIndex == |questions| - 1))
    }

    constructor()
      ensures Valid()
      ensures questions == Questions
      ensures responses == [] && current.None? && currentQuestionIndex == 0
      ensures !isListening && !isSpeaking && countdown == 0
    {
      questions := Questions;
      transcript := "";
      isListening := false;
      isSpeaking := false;
      currentQuestionIndex := 0;
      responses := [];
      countdown := 0;
      countdownRunning := false;
      recognitionTimer := false;
      current := None;
      audioData := [];
      analysing := false;
      frameCount := 0;
    }

    /** `askQuestion(index)`: a fresh record for the question, which is
        then spoken. */
    method AskQuestion(index: nat)
      requires index < |questions|
      modifies this`current
      ensures current == Some(Answer(questions[index], None, None, None, None, []))
    {
      current := Some(Answer(questions[index], None, None, None, None, []));
    }

    /** The start button (disabled while listening or speaking) runs
        `startDialog`: everything from question 0; `micOk` says whether the
        microphone could be opened for the audio analysis. */
    method StartDialog(micOk: bool)
      requires Valid()
      modifies this`transcript, this`responses, this`currentQuestionIndex, this`isListening
      modifies this`analysing, this`frameCount, this`current
      ensures Valid()
      ensures old(isListening || isSpeaking) ==>
                responses == old(responses) && current == old(current) && currentQuestionIndex == old(currentQuestionIndex)
                && isListening == old(isListening) && audioData == old(audioData)
                && transcript == old(transcript) && analysing == old(analysing) && frameCount == old(frameCount)
      ensures !old(isListening || isSpeaking) ==>
                transcript == "" && responses == [] && currentQuestionIndex == 0 && isListening
                && analysing == micOk && frameCount == 0
                && current == Some(Answer(questions[0], None, None, None, None, []))
                && audioData == old(audioData)
      ensures isSpeaking == old(isSpeaking) && countdown == old(countdown)
      ensures countdownRunning == old(countdownRunning) && recognitionTimer == old(recognitionTimer)
    {
      if isListening || isSpeaking {
        return;
      }
      transcript := "";
      responses := [];
      currentQuestionIndex := 0;
      isListening := true;
      analysing := micOk;
      frameCount := 0;
      AskQuestion(0);
    }

    /** The utterance starts. */
    method SpeechStarted()
      modifies this`isSpeaking
      ensures isSpeaking
    {
      isSpeaking := true;
    }

    /** The utterance ends at `startTime`: the audio is reset, listening
        starts with a 10 s countdown and the start time is recorded; the
        10 s timeout is set only when there is a record to write to (with
        none, the handler throws before that). */
    method SpeechEnded(startTime: string)
      requires Valid()
      modifies this
      ensures Valid()
      ensures !isSpeaking && audioData == [] && isListening && countdown == ListenSeconds && countdownRunning
      ensures old(current).Some? ==> current == Some(old(current).value.(startTime := Some(startTime))) && recognitionTimer
      ensures old(current).None? ==> current.None? && recognitionTimer == old(recognitionTimer)
      ensures responses == old(responses) && currentQuestionIndex == old(currentQuestionIndex)
      ensures analysing == old(analysing) && frameCount == old(frameCount) && transcript == old(transcript)
    {
      isSpeaking := false;
      audioData := [];
      isListening := true;
      countdown := ListenSeconds;
      countdownRunning := true;
      if current.Some? {
        current := Some(current.value.(startTime := Some(startTime)));
        recognitionTimer := true;
      }
    }

    /** The countdown interval fires. */
    method Tick()
      modifies this`countdown, this`countdownRunning
      ensures old(countdownRunning) ==> countdown == CountdownTick(old(countdown)) && countdownRunning == (old(countdown) > 1)
      ensures !old(countdownRunning) ==> countdown == old(countdown) && !countdownRunning
    {
      if countdownRunning {
        countdownRunning := countdown > 1;
        countdown := CountdownTick(countdown);
      }
    }

    /** The 10 s timeout stops the recogniser; its end event follows. */
    method ListeningTimeout()
      modifies this`recognitionTimer, this`isListening
      ensures old(recognitionTimer) ==> !recognitionTimer && !isListening
      ensures !old(recognitionTimer) ==> !recognitionTimer && isListening == old(isListening)
    {
      if recognitionTimer {
        recognitionTimer := false;
        isListening := false;
      }
    }

    /** `onresult` with transcript `text`, while the level measured is
        `volume`: the transcript is shown; unless it is the question heard
        back, it becomes the current record's answer. */
    method RecognitionResult(text: string, volume: int)
      requires Valid()
      modifies this`transcript, this`current
      ensures Valid()
      ensures transcript == text
      ensures Normalize(text) == Normalize(questions[currentQuestionIndex]) ==> current == old(current)
      ensures Normalize(text) != Normalize(questions[currentQuestionIndex]) && old(current).Some? ==>
                current == Some(old(current).value.(answer := Some(text), volume := Some(volume)))
      ensures old(current).None? ==> current.None?
    {
      transcript := text;
      if Normalize(text) == Normalize(questions[currentQuestionIndex]) {
        return;
      }
      if current.Some? {
        current := Some(current.value.(answer := Some(text), volume := Some(volume)));
      }
    }

    /** One frame of the audio loop: while listening to a question every
        fifth frame is kept. */
    method AudioFrame(frame: Frame)
      modifies this`frameCount, this`audioData
      ensures analysing && isListening && current.Some? ==>
                frameCount == old(frameCount) + 1
                && audioData == old(audioData) + (if frameCount % 5 == 0 then [frame] else [])
      ensures !(analysing && isListening && current.Some?) ==>
                frameCount == old(frameCount) && audioData == old(audioData)
    {
      if analysing && isListening && current.Some? {
        frameCount := frameCount + 1;
        if frameCount % 5 == 0 {
          audioData := audioData + [frame];
        }
      }
    }

    /** `handleSaveResults` followed by the CSV download: the request, and
        the CSV text when the request succeeded (`postOk`). */
    method SaveResults(token: Option<string>, parse: PayloadParser, postOk: bool, date: string)
      returns (request: Option<Common.Submission<SavedAnswer>>, csv: Option<string>)
      ensures request == SaveRequest(responses, token, parse, date)
      ensures csv.Some? <==> request.Some? && postOk
      ensures csv.Some? ==> csv.value == CsvText(responses)
    {
      request := SaveRequest(responses, token, parse, date);
      csv := None;
      if request.Some? && postOk {
        var text := BuildCsv(responses);
        csv := Some(text);
      }
    }

    /** `onend` at `endTime`. With no current record nothing happens.
        Otherwise listening stops, the record gets its end time and the
        audio collected, and is appended; then the next question is asked,
        or after the last one the audio analysis stops and the results are
        saved. */
    method RecognitionEnded(endTime: string, token: Option<string>, parse: PayloadParser, postOk: bool, date: string)
      returns (request: Option<Common.Submission<SavedAnswer>>, csv: Option<string>)
      requires Valid()
      modifies this`isListening, this`countdownRunning, this`recognitionTimer, this`audioData
      modifies this`responses, this`current, this`currentQuestionIndex, this`analysing
      ensures Valid()
      ensures transcript == old(transcript) && isSpeaking == old(isSpeaking)
      ensures countdown == old(countdown) && frameCount == old(frameCount)
      ensures old(current).None? ==>
                responses == old(responses) && current.None? && currentQuestionIndex == old(currentQuestionIndex)
                && isListening == old(isListening) && audioData == old(audioData)
                && countdownRunning == old(countdownRunning) && recognitionTimer == old(recognitionTimer)
                && analysing == old(analysing)
                && request.None? && csv.None?
      ensures old(current).Some? ==>
                && responses == old(responses) + [Some(old(current).value.(endTime := Some(endTime), audioData := old(audioData)))]
                && audioData == [] && !isListening && !countdownRunning && !recognitionTimer
      ensures old(current).Some? && old(currentQuestionIndex) < |questions| - 1 ==>
                currentQuestionIndex == old(currentQuestionIndex) + 1
                && current == Some(Answer(questions[currentQuestionIndex], None, None, None, None, []))
                && analysing == old(analysing)
                && request.None? && csv.None?
      ensures old(current).Some? && old(currentQuestionIndex) == |questions| - 1 ==>
                currentQuestionIndex == old(currentQuestionIndex) && current.None? && !analysing
                && request == SaveRequest(responses, token, parse, date)
                && (csv.Some? <==> request.Some? && postOk)
                && (csv.Some? ==> csv.value == CsvText(responses))
    {
      request, csv := None, None;
      if current.None? {
        return;
      }
      isListening := false;
      countdownRunning := false;
      recognitionTimer := false;
      var finished := current.value.(endTime := Some(endTime), audioData := audioData);
      audioData := [];
      responses := responses + [Some(finished)];
      current := None;
      if currentQuestionIndex < |questions| - 1 {
        currentQuestionIndex := currentQuestionIndex + 1;
        AskQuestion(currentQuestionIndex);
      } else {
        analysing := false;
        request, csv := SaveResults(token, parse, postOk, date);
      }
    }
  }

  /** A dialog that has answered every question posts one record per
      question, in order, whenever the token names the user. */
  lemma CompletedDialogPostsAll(rs: seq<Option<Answer>>, token: string, parse: PayloadParser, date: string)
    requires |rs| == |Questions|
    requires forall i :: 0 <= i < |rs| ==> rs[i].Some? && rs[i].value.question == Questions[i]
    requires PayloadName(token, parse).Some?
    ensures var req := SaveRequest(rs, Some(token), parse, date);
            req.Some? && |req.value.responses| == |Questions|
            && forall i :: 0 <= i < |Questions| ==> req.value.responses[i].question == Questions[i]
  {
  }
}
