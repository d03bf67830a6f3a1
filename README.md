# Neurology test suite: a Dafny model

The application is a web app for neurological screening. Users log in and
then take five reaction-time tests: Digit Stroop, Go/No-Go, Simon Effect,
Flanker and Dual Task. There is also a spoken 21-question questionnaire
(the voice dialog). When a run completes, its records are posted to an
Express server. That server checks the login, the role and the bearer
token, and validates submitted results before storing them.

The model has one Dafny module per core source file. Two more modules hold
shared code:

- `Js` models the JavaScript semantics the code relies on:
  - truthiness, and a `Date.now()` latch whose value 0 reads as unset;
  - `split` and `join`;
  - string `<`;
  - `trim`, `toLowerCase` and `toUpperCase`;
  - `replace` with a string pattern;
  - `String(n)`.
- `Common` holds the shuffle (`sort` with a random comparator, modelled as
  swaps driven by input choices, so it is some permutation) and the results
  payload each runner posts.

Each React component whose handlers change state is a class. Each of its
handlers and each timer callback is one method: an atomic step on the
current state. Times, dates, `Math.random()` values, the microphone's
availability and the outcome of requests are method parameters.
Each pending timer is a field: a flag, or a count where timers are never
cancelled.

Token decoding comes in two forms, each a parameter that gives `None`
when a call throws. The login screen's `parseJwt` applies `atob`, then
`decodeURIComponent` of the percent-encoded bytes, then `JSON.parse`: that
is `decode`. The voice dialog applies `JSON.parse(atob(...))` with no
`decodeURIComponent` step: that is a separate parameter `parse`. JWT
signing and verification are the parameters `sign` and `verify`. Every
test screen shares one `decodeToken`, which is the same code as the login
screen's `parseJwt`. It is modelled once, as `Login.ParseJwt` and
`Login.TokenName`.

## Model

| member | source | states |
|---|---|---|
| Js.LatchedIsTruthy | client/src/assets/Tests/Go-NoGo.jsx:134 | the latch test `!buttonPressTime.current` is JavaScript truthiness of the ref: a stored timestamp counts as set exactly when it is non-zero |
| Js.Split | server/index.js:82 | a split yields at least one part, and no part contains the separator |
| Js.SplitJoin | server/index.js:82 | joining parts free of the separator and splitting again gives the parts back |
| Js.JoinSplit | server/index.js:82 | splitting and joining again with the same separator gives the string back |
| Js.StrLessTrichotomy | client/src/assets/Tests/DigitStroop.jsx:79-81 | of two strings compared with `<` and `>`, exactly one test holds unless they are equal, and neither holds when they are |
| Js.TrimPadded | client/src/assets/Ricerca/Voice.jsx:88-89 | `trim` removes exactly the surrounding white space of a text that neither begins nor ends with white space |
| Js.LowerOfUpper | client/src/assets/Ricerca/Voice.jsx:88-89 | lower-casing forgets any earlier upper-casing |
| Js.IndexOfFrom | server/index.js:108 | the search finds the first occurrence of the pattern at or after the start index, or reports that there is none |
| Js.ReplaceFirstAtStart | server/index.js:108 | replacing the first `Bearer ` of a header that starts with it leaves exactly what follows |
| Js.NatToStringInjective | client/src/assets/Tests/DualTask.jsx:85 | two numbers print the same exactly when they are equal |
| Js.NatToStringLength | client/src/assets/Tests/DualTask.jsx:85 | a number prints as one character exactly when it is below 10 |
| Common.ShuffleInPlace | client/src/assets/Tests/DigitStroop.jsx:13 | sorting with a random comparator reorders the array in place into a permutation of its old contents |
| Common.ShuffledCopy | client/src/assets/Tests/DigitStroop.jsx:43 | the shuffled copy has the table's length and exactly its elements; the table itself is a constant that is never reordered |
| Common.Post | client/src/assets/Tests/DigitStroop.jsx:96-116 | a completed run is posted exactly when the name is non-empty, with that name, the responses, the test name and the completion date |
| DigitStroop.CorrectResponse | client/src/assets/Tests/DigitStroop.jsx:78-82 | the answer is exactly one of `>`, `<` and `=`; it is `=` exactly when the digits are equal, and `>`/`<` exactly when they compare that way as strings |
| DigitStroop.TableAnswers | client/src/assets/Tests/DigitStroop.jsx:5-11 | the four table rows expect `<`, `=`, `>` and `=` |
| DigitStroop.StringComparisonOfNumbers | client/src/assets/Tests/DigitStroop.jsx:79-80 | with more than one digit the string comparison differs from the numeric one: `10` against `9` expects `<` |
| DigitStroop.Test.constructor | client/src/assets/Tests/DigitStroop.jsx:42-55 | after mount the trials are a permutation of the table, the name comes from the stored token, nothing is recorded and the cross and its timer are up |
| DigitStroop.Test.FixationElapsed | client/src/assets/Tests/DigitStroop.jsx:84-90 | the fixation timer hides the cross and starts the reaction clock at the given time; nothing else changes |
| DigitStroop.Test.Click | client/src/assets/Tests/DigitStroop.jsx:57-118 | a click while the cross is up or after the last trial changes nothing. Otherwise exactly one record is appended: the trial, the time since the stimulus, the answer, and whether it equals the expected answer. The index moves on by one and the cross goes back up. The next fixation timer runs while trials remain; after the last one the test posts its results under the name |
| DigitStroop.DoubleClick | client/src/assets/Tests/DigitStroop.jsx:58-71 | two clicks in a row during one stimulus record exactly one response, the first |
| GoNoGo.GenerateTrials | client/src/assets/Tests/Go-NoGo.jsx:111-114 | there are 10 trials: exactly 8 `up` and 2 `down` |
| GoNoGo.IsCorrectAsWritten | client/src/assets/Tests/Go-NoGo.jsx:93 | the expression as written, on JavaScript values. It has no contract of its own: GoNoGo.AsWrittenAgreesInTruthiness and GoNoGo.AsWrittenIsNotBoolean state what it gives |
| GoNoGo.AsWrittenIsNotBoolean | client/src/assets/Tests/Go-NoGo.jsx:93 | the source's expression gives the press timestamp, not `true`, for a pressed `up` trial |
| GoNoGo.AsWrittenAgreesInTruthiness | client/src/assets/Tests/Go-NoGo.jsx:92-93 | the source's expression is truthy exactly when the boolean rule holds: a press on an `up` trial, or none on a `down` trial |
| GoNoGo.Record | client/src/assets/Tests/Go-NoGo.jsx:88-100 | the record says `pressed` exactly when a press was latched. Its reaction time is absent exactly when there was no press, and otherwise is the trial end minus the press time. It is correct exactly when `up` goes with a press |
| GoNoGo.ScenarioScoring | client/src/assets/Tests/Go-NoGo.jsx:92-98 | a press on `up` and no press on `down` are correct; the other two combinations are wrong |
| GoNoGo.Test.constructor | client/src/assets/Tests/Go-NoGo.jsx:19-36 | after mount the trials are generated, the name comes from the token, nothing is recorded and only the initial delay is pending |
| GoNoGo.Test.DelayElapsed | client/src/assets/Tests/Go-NoGo.jsx:67-79 | the initial delay ends and the first trial starts: trial timer set, latch cleared. No trial timer runs while the delay is set |
| GoNoGo.Test.Press | client/src/assets/Tests/Go-NoGo.jsx:133-138 | only the first press in a trial is latched; later presses leave the latch as it was |
| GoNoGo.Test.TrialElapsed | client/src/assets/Tests/Go-NoGo.jsx:38-103 | the trial timer appends exactly one record for the current arrow and moves the index on by one. The next trial starts with a cleared latch; once the index reaches the end, the results are posted under the name |
| SimonEffect.Label | client/src/assets/Tests/SimonEffect.jsx:34-39 | labelling keeps the number of trials and each trial's position and image, and adds that trial's condition |
| SimonEffect.ConditionLabels | client/src/assets/Tests/SimonEffect.jsx:35-37 | a trial is `congruent` exactly for `left` with `red` and `right` with `blue`, and `incongruent` otherwise |
| SimonEffect.PredefinedConditions | client/src/assets/Tests/SimonEffect.jsx:25-39 | the four predefined trials are labelled two `incongruent` then two `congruent` |
| SimonEffect.IsCorrect | client/src/assets/Tests/SimonEffect.jsx:143 | the scoring rule. It has no contract of its own: SimonEffect.CorrectIffColourMatches states that it holds exactly when the colours match |
| SimonEffect.CorrectIffColourMatches | client/src/assets/Tests/SimonEffect.jsx:143 | a press is correct exactly when its colour is the image's colour, whatever the position |
| SimonEffect.Record | client/src/assets/Tests/SimonEffect.jsx:140-154 | the record carries the trial, the reaction time, `pressed` and the trial's condition, and is correct exactly when the colours match |
| SimonEffect.Test.constructor | client/src/assets/Tests/SimonEffect.jsx:23-57 | after mount the trials are a permutation of the labelled predefined trials, nothing is recorded and the initial delay is pending |
| SimonEffect.Test.StartTrial | client/src/assets/Tests/SimonEffect.jsx:73-116 | past the last trial no trial starts and the results are posted under the name; otherwise the cross goes up and one more fixation timer is pending |
| SimonEffect.Test.DelayElapsed | client/src/assets/Tests/SimonEffect.jsx:59-71 | the initial delay ends and the first trial starts |
| SimonEffect.Test.FixationElapsed | client/src/assets/Tests/SimonEffect.jsx:105-111 | when a fixation timer fires, the cross goes down, the reaction clock starts and the latch is cleared. This is the only step that clears the latch |
| SimonEffect.Test.Press | client/src/assets/Tests/SimonEffect.jsx:135-158 | a press is taken only while the latch is clear, with no check of the cross, and it sets the latch. Past the last trial it records nothing. Otherwise exactly one record is appended for the current trial and the index moves on by one. The effect then starts the next trial unless the initial delay still runs |
| SimonEffect.DoublePress | client/src/assets/Tests/SimonEffect.jsx:136-137 | two presses in a row record one response, scored by the first colour |
| FlankerTask.TableAnswersFollowCentre | client/src/assets/Tests/FlankerTask.jsx:18-24 | in every table row the expected answer is `right` exactly when the middle arrow is `>`, and `left` exactly when it is `<` |
| FlankerTask.TableConditions | client/src/assets/Tests/FlankerTask.jsx:18-24 | a row is `congruent` exactly when all five arrows point the same way |
| FlankerTask.ThirdRowTargetDisagrees | client/src/assets/Tests/FlankerTask.jsx:21 | the third row's `target` is `<` while its middle arrow is `>` and it expects `right`; in every other row `target` is the middle arrow |
| FlankerTask.Record | client/src/assets/Tests/FlankerTask.jsx:123-137 | the record carries the trial, the reaction time, the answer and the condition, and is correct exactly when the answer equals `correctResponse` |
| FlankerTask.Test.constructor | client/src/assets/Tests/FlankerTask.jsx:26-41 | after mount the trials are a permutation of a copy of the table, nothing is recorded and the initial delay is pending |
| FlankerTask.Test.StartTrial | client/src/assets/Tests/FlankerTask.jsx:56-99 | past the last trial the results are posted under the name; otherwise the cross goes up and one more fixation timer is pending |
| FlankerTask.Test.DelayElapsed | client/src/assets/Tests/FlankerTask.jsx:43-54 | the initial delay ends and the first trial's fixation timer starts |
| FlankerTask.Test.FixationElapsed | client/src/assets/Tests/FlankerTask.jsx:88-94 | when a fixation timer fires, the cross goes down, the reaction clock starts and the latch is cleared |
| FlankerTask.Test.Respond | client/src/assets/Tests/FlankerTask.jsx:118-142 | a response is taken only while the latch is clear, trials remain and the cross is down; otherwise nothing changes. A taken response sets the latch and appends exactly one scored record for the current trial. The index moves on by one, and the next trial starts or the results are posted |
| FlankerTask.RespondDuringDelay | client/src/assets/Tests/FlankerTask.jsx:119 | during the initial delay no response is recorded |
| DualTask.FloorScale | client/src/assets/Tests/DualTask.jsx:31 | `Math.floor(Math.random() * k)` for a positive `k` lies in `[0, k)` |
| DualTask.RandomDelay | client/src/assets/Tests/DualTask.jsx:23 | `getRandomDelay(min, max)` lies between `min` and `max` inclusive |
| DualTask.CircleDelayBounds | client/src/assets/Tests/DualTask.jsx:48 | the delay before the circle lies in [350, 500], and both ends occur |
| DualTask.RandomNumber | client/src/assets/Tests/DualTask.jsx:30-33 | the number shown is drawn from `1`, `2`, `3` and the empty string, never `null` |
| DualTask.IsCorrect | client/src/assets/Tests/DualTask.jsx:79-86 | the scoring rule. It has no contract of its own: DualTask.IsCorrectMeaning states when it holds |
| DualTask.ContainerOutcomes | client/src/assets/Tests/DualTask.jsx:36 | both containers occur: a random value of 3/4 puts the circle in container 2, while 1/4 and exactly 1/2 put it in container 4 |
| DualTask.IsCorrectMeaning | client/src/assets/Tests/DualTask.jsx:79-86 | a selection is correct exactly when it is `x` for an empty display, or names the number shown; `x` is wrong when a number was shown |
| DualTask.CompletionName | client/src/assets/Tests/DualTask.jsx:119-120 | the name is `Anonymous` without a token. With a token it is the decoded name, and it is absent (the effect throws) exactly when the token does not decode |
| DualTask.Test.StartTrial | client/src/assets/Tests/DualTask.jsx:26-65 | a trial starts in the fixation phase with the circle hidden, a random number and container, and the fixation timer pending |
| DualTask.Test.constructor | client/src/assets/Tests/DualTask.jsx:110-113 | the mount effect starts the first trial with nothing recorded |
| DualTask.Test.FixationElapsed | client/src/assets/Tests/DualTask.jsx:40-41 | the fixation timer moves the phase to the number; only the phase and the pending timer change |
| DualTask.Test.NumberElapsed | client/src/assets/Tests/DualTask.jsx:44-48 | the number timer moves the phase to `circleReady` and sets the circle timer to a delay in [350, 500]; only the phase and the pending timer change |
| DualTask.Test.CircleElapsed | client/src/assets/Tests/DualTask.jsx:49-58 | the circle timer moves the phase to `circle`, shows the circle, starts the reaction clock and sets the hide timer; the container, the number and the records stay as they were |
| DualTask.Test.HideElapsed | client/src/assets/Tests/DualTask.jsx:56-58 | the hide timer hides the circle without changing the phase |
| DualTask.Test.React | client/src/assets/Tests/DualTask.jsx:68-75 | a press is taken only in the `circle` phase. It then sets the reaction time to the current time minus the circle's start and moves to `response`; otherwise nothing changes |
| DualTask.Test.Select | client/src/assets/Tests/DualTask.jsx:78-139 | a selection appends one record: trial number = index + 1, the reaction time, the score, the number shown and the selection. Before the fifth trial the index rises by one and a new trial starts, with the circle hidden and a new number and container. After the fifth the run is completed and posted under the completion name; the circle and the container stay as they were. The hide timer and the reaction clock never change. The run completes exactly when five records exist |
| DualTask.TrialPhases | client/src/assets/Tests/DualTask.jsx:27-53 | within a trial the timers lead from fixation through the number and `circleReady` to `circle` |
| Voice.EchoOfQuestion | client/src/assets/Ricerca/Voice.jsx:87-90 | reading a question back, in upper case and padded with white space, is recognised as that question |
| Voice.Normalize | client/src/assets/Ricerca/Voice.jsx:87-89 | `trim()` then `toLowerCase()`. It has no contract of its own: Voice.EchoOfQuestion, Js.TrimPadded and Js.LowerOfUpper state what it forgets |
| Voice.CountdownTick | client/src/assets/Ricerca/Voice.jsx:196-203 | a tick decrements the countdown by one while it is above 1, and otherwise sets it to 0 |
| Voice.TicksFrom | client/src/assets/Ricerca/Voice.jsx:190-205 | after `k` ticks the countdown is `c - k`, or 0 once `k` reaches `c`: it never goes negative and reaches 0 after 10 ticks from 10 |
| Voice.Strip | client/src/assets/Ricerca/Voice.jsx:276 | stripping the audio succeeds exactly when no response is `null`, and keeps the number of responses |
| Voice.StripRestores | client/src/assets/Ricerca/Voice.jsx:276 | only `audioData` is removed: putting each response's audio back gives the recorded responses |
| Voice.NonNull | client/src/assets/Ricerca/Voice.jsx:314 | filtering keeps every recorded response and nothing else, and never lengthens the list |
| Voice.NonNullAppend | client/src/assets/Ricerca/Voice.jsx:314 | appending a response appends its record to the filtered list when it is recorded, and nothing when it is `null` |
| Voice.NonNullPrepend | client/src/assets/Ricerca/Voice.jsx:314 | the same law at the front of the list: with NonNullAppend it fixes the filter, so the order of the records is kept |
| Voice.BuildCsv | client/src/assets/Ricerca/Voice.jsx:306-339 | the loops build exactly the CSV text: the data-URI prefix, the six-column header, then one block per non-null response with audio |
| Voice.CsvText | client/src/assets/Ricerca/Voice.jsx:306-339 | the CSV text as a function of the responses. It has no contract of its own: Voice.BuildCsv computes it, and Voice.CsvAppendNull, Voice.CsvAppendAnswer and Voice.BlocksEmptyIff state how it grows |
| Voice.CsvAppendNull | client/src/assets/Ricerca/Voice.jsx:314 | a `null` response adds nothing to the CSV |
| Voice.CsvAppendAnswer | client/src/assets/Ricerca/Voice.jsx:316-338 | a recorded response adds its own block, numbered one past the non-null responses before it |
| Voice.BlocksEmptyIff | client/src/assets/Ricerca/Voice.jsx:317 | the CSV has no block exactly when no response has audio |
| Voice.HeaderRowIsJoin | client/src/assets/Ricerca/Voice.jsx:319-326 | a block's header row is its six cells joined by commas |
| Voice.HeaderRowFields | client/src/assets/Ricerca/Voice.jsx:319-328 | a header row reads back as its six cells when no text contains a comma; the quoting does not escape |
| Voice.FrameLineFields | client/src/assets/Ricerca/Voice.jsx:331-335 | a frame line reads back as five empty cells followed by the frame's values |
| Voice.PayloadName | client/src/assets/Ricerca/Voice.jsx:270-273 | a name is found only when the token has a second dot-separated segment; that segment goes to `JSON.parse(atob(...))` without the base64url mapping |
| Voice.PayloadNameAgrees | client/src/assets/Ricerca/Voice.jsx:271-272 | for a payload without `-` or `_`, on which the two decoders agree, this reads the same name as the login screen's decoding: the base64url mapping is then the only difference |
| Voice.SaveRequest | client/src/assets/Ricerca/Voice.jsx:268-292 | a request is sent exactly when a token exists, its payload decodes and no response is `null`. It carries the decoded name, the stripped responses, `Voice Analysis` and the date |
| Voice.CompletedDialogPostsAll | client/src/assets/Ricerca/Voice.jsx:146-155 | a dialog that answered every question posts one record per question, in question order |
| Voice.Dialog.constructor | client/src/assets/Ricerca/Voice.jsx:12-17 | the dialog starts idle with no responses, at question 0 |
| Voice.Dialog.AskQuestion | client/src/assets/Ricerca/Voice.jsx:207-224 | asking a question opens a fresh record for it |
| Voice.Dialog.StartDialog | client/src/assets/Ricerca/Voice.jsx:164-172 | starting clears the transcript and the responses, goes back to question 0, listens and opens a record for that question. The audio loop runs exactly when the microphone opened. While listening or speaking the button does nothing: no field changes |
| Voice.Dialog.SpeechStarted | client/src/assets/Ricerca/Voice.jsx:226 | the utterance's start marks the dialog as speaking |
| Voice.Dialog.SpeechEnded | client/src/assets/Ricerca/Voice.jsx:228-245 | at the utterance's end the audio resets, listening starts with a 10 s countdown and the record gets its start time. The 10 s timeout is set only when a record exists |
| Voice.Dialog.Tick | client/src/assets/Ricerca/Voice.jsx:195-204 | a running countdown ticks once and stops when it reaches 0 |
| Voice.Dialog.ListeningTimeout | client/src/assets/Ricerca/Voice.jsx:241-244 | the 10 s timeout stops listening |
| Voice.Dialog.RecognitionResult | client/src/assets/Ricerca/Voice.jsx:82-103 | the transcript is always shown. A transcript equal to the current question after trimming and lower-casing leaves the record untouched. Any other transcript becomes the record's answer, with the volume measured |
| Voice.Dialog.AudioFrame | client/src/assets/Ricerca/Voice.jsx:414-427 | while analysing and listening with a record open, the frame counter rises by one and every fifth frame is kept; otherwise nothing changes |
| Voice.Dialog.SaveResults | client/src/assets/Ricerca/Voice.jsx:268-304 | the request is exactly the save request for the responses. The CSV text is produced exactly when the request was sent and succeeded |
| Voice.Dialog.RecognitionEnded | client/src/assets/Ricerca/Voice.jsx:105-156 | with no open record nothing changes. Otherwise listening and both timers stop. The record gets its end time and the collected audio, and exactly that record is appended. The index then moves to the next of the 21 questions, or after the last the analysis stops and the results are saved. The transcript, the speaking flag, the countdown and the frame counter never change. Every response answers its own question |
| ResultsRoute.PostResults | server/routes/results.js:5-24 | 400 with the fixed message and nothing stored exactly when a field is falsy. 201 exactly when all four are present and saving succeeds, storing exactly those four fields. 500 exactly when saving throws |
| ResultsRoute.EmptyResponsesAccepted | server/routes/results.js:10 | an empty response list passes the check while an empty name or missing responses do not |
| Server.CheckUserRole | server/index.js:41-47 | the request goes on exactly when a user is attached and their role is a required one; otherwise the reply is 403 with the fixed message |
| Server.AdminDashboardGate | server/index.js:74 | the dashboard admits exactly the roles `admin` and `superadmin` |
| Server.FindByEmail | server/index.js:51 | the lookup finds the first employee with the email, or reports that none has it |
| Server.Login | server/index.js:49-64 | the reply is a token or one of the two refusals. A token is issued only to an employee with this email and this password, signed over their claims; `No record existed` comes exactly when no employee has the email. Server.LoginDecision adds the converse under unique emails |
| Server.LoginDecision | server/index.js:49-65 | with unique emails a token carrying id, name and role is issued exactly when an employee has the email and the password. A known email with another password gets `The password is incorrect`; an unknown email gets `No record existed` |
| Server.Register | server/index.js:67-72 | the employee gets the given name, email and password. The role is `user` when none is supplied, and the supplied role otherwise |
| Server.RegisteredWithoutRoleIsNotAdmin | server/index.js:68 | an employee registered without a role is refused the admin dashboard |
| Server.AuthenticateToken | server/index.js:80-90 | a rejection is 401 or 403. The request proceeds only with the claims that verification gives for the header's second space-separated part, and 403 comes only when that part is present but does not verify |
| Server.AuthenticateBearer | server/index.js:80-90 | a `Bearer <token>` header is judged by the token alone: it proceeds with the verified claims, or gets 403 when verification fails |
| Server.AuthenticateWithoutScheme | server/index.js:82-83 | a header without a space has no second part and gets 401 |
| Server.AuthMiddleware | server/index.js:106-120 | a missing header throws (500), and only then. With a header every rejection is 401, with one of the two messages. The request proceeds only with the verified claims of the header minus its first `Bearer ` |
| Server.AuthMiddlewareBearer | server/index.js:107-120 | after `Bearer ` is stripped, an empty token gets 401 `Authentication token required`, a token that fails to verify gets 401 `Invalid token`, and otherwise it proceeds with the claims |
| Server.AuthMiddlewareRawToken | server/index.js:108 | a header without `Bearer ` is taken whole as the token |
| Login.Base64UrlToBase64 | client/src/assets/Login.jsx:14 | `-` becomes `+`, `_` becomes `/`, and every other character and the length stay the same |
| Login.Base64UrlRoundTrip | client/src/assets/Login.jsx:14 | on base64url text the mapping is undone by the issuer's inverse mapping |
| Login.ParseJwt | client/src/assets/Login.jsx:11-24 | the decoder. It has no contract of its own: Login.ParseJwtPayload and Login.ParseJwtNoDot state what it decodes |
| Login.ParseJwtPayload | client/src/assets/Login.jsx:11-24 | of a `header.payload.signature` token only the mapped payload is decoded |
| Login.ParseJwtNoDot | client/src/assets/Login.jsx:13-23 | a token without a dot decodes to `null` |
| Login.HandleSubmit | client/src/assets/Login.jsx:26-52 | a failed request only alerts `An error occurred during login.`. An answered request has two effects and navigates exactly once. The first effect stores the token exactly when the reply carries a non-empty token, and no later effect stores anything |
| Login.TokenReplyNavigation | client/src/assets/Login.jsx:35-42 | a reply with a token stores it first and then navigates. It goes to `/admin-dashboard` exactly when the decoded role is `admin` or `superadmin`, and otherwise, also for an undecodable token, to `/home` |
| Login.NoTokenGoesToRegister | client/src/assets/Login.jsx:43-46 | a reply without a token navigates to `/register` and stores nothing |
| Login.RefusedLoginGoesToRegister | client/src/assets/Login.jsx:43-46 | both of the server's string refusals send the user to `/register` with the fallback alert |
| Login.AdminLoginReachesDashboard | client/src/assets/Login.jsx:35-39 | when signed tokens decode back to their claims, an admin with the right password reaches the dashboard |

## Left out

- Rendering, styles and routing beyond the navigation targets. That includes render-only state: `showImage`, `showFlanker`, `showArrow`, `buttonPressed`, Go/No-Go's 200 ms arrow timer and Dual Task's per-phase display.
- Stale closures and React's batching. Each handler is one atomic step on the current state. The model therefore does not capture these:
  - the delay callback in Simon and Flanker calling an older `startTrial`;
  - `askQuestion` reading an older `isListening`;
  - `onend`'s `setResponses` updater reading `currentResponseRef.current` only when React runs it. By then `onend` has set the ref to `null` and `askQuestion` has put the next question's record there. So the list can receive the next question's record in place of the one just finished, or `null` for the last one. The model appends the finished record.
- SimonEffect.Test.Press: a press during the initial delay is recorded and moves the index on. The delay timer that the effect restarts is taken as the same pending delay, so a new 2 s wait is not modelled.
- DualTask.Test.Select: it acts only in the `response` phase. The number buttons exist only in that phase, so no other call can reach the handler.
- DualTask.RandomDelay: the bound is stated only for `min <= max`; the source calls it only with 350 and 500.
- Timers, clocks and `Math.random()`: timestamps are parameters, `Math.random()` is a fraction given as a parameter, and each timer firing is a method. The shuffle is any sequence of swaps, not the distribution a random comparator gives.
- Token decoding and JWT: `atob`, `decodeURIComponent` and `JSON.parse` are the oracle `decode`; the voice dialog's `JSON.parse(atob(...))` is the oracle `parse`; `jwt.sign` and `jwt.verify` are `sign` and `verify`.
- Voice.PayloadNameAgrees: it assumes that `parse` and `decode` agree on the payload. That holds when the payload's bytes are ASCII. On other bytes the missing `decodeURIComponent` step can make the voice dialog read another name, or throw, where the login screen does not; the model does not relate the two there. The passport strategy on the dashboard route is not modelled: its user lookup is a database query.
- Network, storage and database: axios requests, `localStorage`, Mongoose queries and their errors (a database failure during login) are not part of the model. Whether a save throws, and whether the results request succeeded, are boolean parameters.
- Voice audio analysis: the RMS and decibel computation and `toFixed` are floating point. A frame is its list of printed values, and the measured volume is an integer parameter, so `volumeRef.current || 0` is not modelled.
- Voice speech synthesis and recognition are events (the dialog's methods), and recognition errors only raise an alert. The three.js avatar, `encodeURI` and the download link are not modelled. `handleStopListening` appears only as the end of the audio loop and of the timers. A restart while a dialog runs is not modelled either: no second audio loop starts.
- Case mapping covers ASCII letters only. JavaScript's full Unicode case mapping is not modelled.
- Go/No-Go's expression `isCorrect` stores the press timestamp instead of `true`; see Findings. The runner's records use the boolean reading.

## Findings

| source | as written | input that shows it | evidently intended | confidence | as-written member | corrected member |
|---|---|---|---|---|---|---|
| client/src/assets/Tests/Go-NoGo.jsx:93 | `(isGoTrial && buttonPressTime.current) \|\| (!isGoTrial && !buttonPressTime.current)` evaluates to the press timestamp for a correct go trial | an `up` trial pressed at time 1700 records `isCorrect: 1700` | `isCorrect` is the boolean `true` for a press on an `up` trial | not executed | GoNoGo.AsWrittenIsNotBoolean | GoNoGo.Record |
