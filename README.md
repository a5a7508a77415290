# VANI speech coach — a Dafny model of its core

VANI is a speech-coaching web application. A user practises in three modes:
- a presentation delivered over a slide deck;
- a mock job interview answered question by question;
- a group discussion with AI participants.

The app scores the user's speech and shows their progress. The core has two parts:
- three server-side edge functions that talk to a language model;
- five React screens that hold the user's state.

This project models both parts.

The edge functions are pure and are modelled as functions on strings:
- **analyze-speech** (`analyze_speech.dfy`) picks a prompt template by request type. It reads the score out of the model's feedback with the regular expression `(\d+)\s*\/\s*100`, and uses 75 when that does not match. The regular expression is modelled twice and proved equivalent:
  - as a declarative "there is a way to match here" predicate;
  - as the greedy engine.
- **group-discussion** and **mock-interview** (`group_discussion_fn.dfy`, `mock_interview_fn.dfy`) build their prompts and cut a JSON text out of the model's reply. The shared extraction (`json_extract.dfy`) applies two patterns:
  - first the ```` ```json ```` fence, with a greedy `\s*`, a lazy capture, `\s*` and the closing backticks;
  - otherwise a greedy `{…}` or `[…]` span.

  It then takes `match[1] || match[0]`.

The screens are classes whose fields are the screen's React state:
- `Progress.ProgressPage`, with the statistics functions;
- `Presentation.PresentationScreen`;
- `InterviewScreen.InterviewSession`;
- `DiscussionScreen.DiscussionSession`;
- `Auth.AuthForm`.

Each event handler is a method that changes the fields it names and states the whole new state. Results from outside the screen come in as parameters:
- the microphone opening;
- a network call's answer or failure;
- the email-syntax check of the validation library.

`Progress.WeeklyActivity` keeps the source's in-place loop over a seven-slot array and is proved equal to the histogram function `Progress.Buckets`.

`text.dfy` holds the JavaScript string behaviour the core relies on:
- the `\s` white-space class and `trim`;
- `startsWith` and `endsWith`;
- decimal rendering of numbers and reading it back.

Things the proofs bring out about the source:
- The presentation screen asks analyze-speech for type `'presentation'`. The function has no template for that type, so it sends the language model an empty prompt (`AnalyzeSpeech.PresentationPromptIsEmpty`).
- The discussion screen offers the aggression levels `polite`, `balanced` and `competitive`. The function's table is keyed `Friendly`, `Moderate` and `Intense`, so every discussion runs in the fallback style `moderate` (`DiscussionScreen.ClientLevelsAlwaysModerate`).
- Scores are not clamped to 0..100 (`AnalyzeSpeech.ScoreIsNotClamped`), and `85/1000` reads as 85.
- An empty fence is handed to `JSON.parse` whole, backticks included.
- The interview progress figure reaches 100 only at the last question while there are fewer than 200 questions. With 200 questions it already shows 100 one question early.
- With no questions the interview progress figure divides by zero, and the screen shows `Infinity%`. This happens when the mock-interview function finds no JSON in the reply and answers with an empty list.

## Model

| member | source | states |
|---|---|---|
| JsText.SpaceRunEnd | supabase/functions/analyze-speech/index.ts:62 | a greedy `\s*` stops at the first non-white-space character, and every character it passes is white space |
| JsText.DigitRunEnd | supabase/functions/analyze-speech/index.ts:62 | a greedy `\d+` stops at the first non-digit, and every character it passes is a digit |
| JsText.TrimKeepsInnerSlice | src/pages/Auth.tsx:53 | `String.prototype.trim` keeps one slice of the string: it drops only white space before and after it, and the slice neither starts nor ends with white space |
| JsText.TrimEmptyIffBlank | src/pages/Auth.tsx:53 | `trim()` gives the empty string exactly when every character is white space |
| JsText.NatToStringRoundTrip | src/pages/PresentationPractice.tsx:164 | the decimal text of a number reads back as that number |
| AnalyzeSpeech.SpeechPrompt | supabase/functions/analyze-speech/index.ts:19-30 | the speech prompt is the fixed template with the topic and the transcript embedded verbatim at fixed places |
| AnalyzeSpeech.InterviewPrompt | supabase/functions/analyze-speech/index.ts:31-41 | the interview prompt is the fixed template with the question context and the answer embedded verbatim |
| AnalyzeSpeech.SelectPrompt | supabase/functions/analyze-speech/index.ts:18-42 | `speech` and `interview` select their template; the prompt is empty exactly for any other type |
| AnalyzeSpeech.PresentationPromptIsEmpty | supabase/functions/analyze-speech/index.ts:18-42 | the type `presentation` selects no template, so the prompt is empty |
| AnalyzeSpeech.ScoreMatchAt | supabase/functions/analyze-speech/index.ts:62 | a match of the engine at a position captures a non-empty run of digits starting there |
| AnalyzeSpeech.MatchAtIsRegexMatch | supabase/functions/analyze-speech/index.ts:62 | the engine's greedy choices match at a position with a group exactly when the pattern can match there with that group by any division of the text |
| AnalyzeSpeech.ExtractScore | supabase/functions/analyze-speech/index.ts:62-63 | the score: its meaning is stated by `NoMatchScoresDefault` (75 without a match), `ScoreIsLeftmostMatch` (the digits of the leftmost match) and `LeftmostMatchIsWholeNumber` |
| AnalyzeSpeech.FindScore | supabase/functions/analyze-speech/index.ts:62 | the search returns the leftmost position where the pattern matches, and none when it matches nowhere |
| AnalyzeSpeech.NoMatchScoresDefault | supabase/functions/analyze-speech/index.ts:62-63 | feedback in which `N/100` matches nowhere scores 75 |
| AnalyzeSpeech.ScoreIsLeftmostMatch | supabase/functions/analyze-speech/index.ts:62-63 | the score is the value of the digit group of the leftmost match |
| AnalyzeSpeech.LeftmostMatchIsWholeNumber | supabase/functions/analyze-speech/index.ts:62-63 | the leftmost match starts and ends on number boundaries, so the score is the whole number written before `/100` |
| AnalyzeSpeech.ScoreIsNotClamped | supabase/functions/analyze-speech/index.ts:62-63 | `250/100` scores 250: nothing limits the score to 100 |
| AnalyzeSpeech.TrailingDigitsAfterHundredIgnored | supabase/functions/analyze-speech/index.ts:62-63 | `85/1000` scores 85: nothing after `100` is checked |
| AnalyzeSpeech.Analyze | supabase/functions/analyze-speech/index.ts:58-66 | the response carries the model's text unchanged as the feedback, and the score extracted from it |
| JsonExtract.FindFrom | supabase/functions/group-discussion/index.ts:56 | the first occurrence of a pattern at or after a position, and none when there is none |
| JsonExtract.LazyCaptureEnd | supabase/functions/group-discussion/index.ts:56 | the lazy capture ends at the first place from which white space and then ``` follow |
| JsonExtract.LazyStopsAtFirstClose | supabase/functions/group-discussion/index.ts:56 | where the lazy capture stops, white space runs into the first ``` after it, and the capture does not end in white space |
| JsonExtract.LazyFindsClose | supabase/functions/group-discussion/index.ts:56 | the lazy capture finds an end exactly when ``` occurs after its start |
| JsonExtract.FenceAt | supabase/functions/group-discussion/index.ts:56 | the fence pattern tried at one position: `FenceAtIffClose` states when it matches and `FenceMatchUpToClose` what it captures |
| JsonExtract.FindFence | supabase/functions/group-discussion/index.ts:56 | the fence search returns the leftmost position where the fence pattern matches, with that match |
| JsonExtract.FenceAtIffClose | supabase/functions/group-discussion/index.ts:56 | at a ```` ```json ```` opener the fence pattern matches exactly when ``` occurs after the opener |
| JsonExtract.FenceMatchUpToClose | supabase/functions/group-discussion/index.ts:56 | the fence capture is the trimmed text between the opener and the first following ```; the whole match ends with that ``` |
| JsonExtract.FirstFenceWins | supabase/functions/group-discussion/index.ts:56 | the first opener that completes to a match is the match the search reports |
| JsonExtract.SpanAt | supabase/functions/group-discussion/index.ts:56 | a span match at a position ends after that position |
| JsonExtract.FindSpan | supabase/functions/group-discussion/index.ts:56 | the span search returns the leftmost position where the span pattern matches |
| JsonExtract.SpanIsFirstOpenToLastClose | supabase/functions/group-discussion/index.ts:56 | the span pattern matches exactly when an opening character precedes a closing one; the span then runs from the first opening character to the last closing one |
| JsonExtract.SelectFencedJson | supabase/functions/group-discussion/index.ts:57 | of a fence match, the capture is selected, or the whole match when the capture is empty |
| JsonExtract.FenceTakesPrecedence | supabase/functions/group-discussion/index.ts:56-57 | with a completed fence, the selected text is the trimmed text up to the first ``` after the first opener (or the whole fence when that text is empty), whatever brackets the reply holds |
| JsonExtract.SelectJson | supabase/functions/group-discussion/index.ts:56-57 | the text handed to `JSON.parse`: `FenceTakesPrecedence` states it when the fence matches, and `SpanWithoutFence` when it fails |
| JsonExtract.FenceFailsIffNoClose | supabase/functions/group-discussion/index.ts:56 | the fence pattern fails exactly when no ```` ```json ```` opener is followed by ``` |
| JsonExtract.NoOpenerNoFence | supabase/functions/group-discussion/index.ts:56 | a reply without any opener has no fence match |
| JsonExtract.SpanWithoutFence | supabase/functions/group-discussion/index.ts:56-57 | whenever the fence pattern fails, text is selected exactly when an opening character precedes a closing one; it then runs from the first opening character to the last closing one, both included |
| JsonExtract.SpanFromFirstToLast | supabase/functions/group-discussion/index.ts:56-57 | when the fence fails, a first opening character and a last closing character after it fix the selected text as the span between them |
| JsonExtract.TruncatedFenceFallsBackToSpan | supabase/functions/mock-interview/index.ts:43-44 | a truncated fence with no closing backticks, "```json" then a line break and `[1]`, selects the span `[1]` |
| JsonExtract.EmptyFenceFallsBackToWholeMatch | supabase/functions/group-discussion/index.ts:56-57 | an empty fence is selected whole, backticks included |
| DiscussionFunction.AggressionStyle | supabase/functions/group-discussion/index.ts:18-25 | a key of the table gives its style; any other key gives `moderate`; the style is never empty |
| DiscussionFunction.RenderHistory | supabase/functions/group-discussion/index.ts:28 | the rendered history is empty exactly when the history is |
| DiscussionFunction.Lines | supabase/functions/group-discussion/index.ts:28 | one `name: message` line per turn, in order |
| DiscussionFunction.SplitRenderedHistory | supabase/functions/group-discussion/index.ts:28 | when no name or message holds a line break, splitting the rendered history at line breaks gives back one line per turn, in order |
| DiscussionFunction.PromptHeader | supabase/functions/group-discussion/index.ts:24-27 | the first part of the prompt: the participant count, the topic and the style; `DiscussionPrompt` states where it sits |
| DiscussionFunction.DiscussionPrompt | supabase/functions/group-discussion/index.ts:24-36 | the prompt is the header (count, topic, style), then the rendered history, then the footer that repeats the raw aggression key |
| DiscussionFunction.ReplyFor | supabase/functions/group-discussion/index.ts:56-57 | the reply is the selected JSON text, or exactly when none is found the fallback turn `AI Participant 1` carrying the whole reply |
| DiscussionFunction.PlainReplyIsFallback | supabase/functions/group-discussion/index.ts:56-57 | a reply with no backtick and no `{` becomes the fallback turn with its text unchanged |
| InterviewFunction.QuestionPrompt | supabase/functions/mock-interview/index.ts:18-23 | for `generate_questions`, the prompt embeds difficulty, type and role verbatim in the fixed template; for any other action it is empty |
| InterviewFunction.QuestionsFor | supabase/functions/mock-interview/index.ts:43-44 | the questions are the selected JSON text, or none exactly when none is found |
| InterviewFunction.PlainReplyHasNoQuestions | supabase/functions/mock-interview/index.ts:43-44 | a reply with no backtick and no `[` yields no questions |
| InterviewFunction.BracketSpanIsGreedy | supabase/functions/mock-interview/index.ts:43-44 | whenever the fence pattern fails and a `[` comes before a `]`, the questions text runs from the first `[` to the last `]`, both included |
| JsMath.RoundDiv | src/pages/Progress.tsx:48 | `Math.round` of a quotient: the result is within one half of the exact quotient, halves rounded up |
| Progress.ScoreSum | src/pages/Progress.tsx:39 | the sum of `score \|\| 0`: `SumWithin` states its bounds, and `AverageScore` its use in the average |
| Progress.AverageScore | src/pages/Progress.tsx:38-48 | 0 with no sessions; otherwise the rounded mean of the scores, a missing score counting as 0 |
| Progress.SumWithin | src/pages/Progress.tsx:39 | when every score is in a range, the sum lies between count times the bounds |
| Progress.AverageWithin | src/pages/Progress.tsx:39-48 | when every score is in a range, so is the rounded average |
| Progress.DaysAgo | src/pages/Progress.tsx:55-58 | whole calendar days between a session and today: `Buckets`, `AddSession` and `WeekTotalIsWindowCount` state how it files sessions |
| Progress.ThisWeekCount | src/pages/Progress.tsx:42-46 | the number of sessions completed after this time a week ago is at most the number of sessions |
| Progress.Buckets | src/pages/Progress.tsx:51-62 | seven non-negative slots; slot `k` counts the sessions of `6 - k` days ago |
| Progress.WeeklyActivity | src/pages/Progress.tsx:51-62 | the in-place loop over a fresh seven-slot array produces exactly the histogram |
| Progress.AddSession | src/pages/Progress.tsx:55-62 | one more session adds one to the slot of its day and nothing elsewhere; the total grows by one exactly when the session is in the window |
| Progress.WeekTotalIsWindowCount | src/pages/Progress.tsx:51-62 | the histogram's total is the number of sessions of the last seven calendar days; future and older sessions are not counted |
| Progress.WindowWithinThisWeek | src/pages/Progress.tsx:42-62 | every session of the histogram also counts for "this week" |
| Progress.Badges | src/pages/Progress.tsx:106 | one badge per full three sessions |
| Progress.MaxActivity | src/pages/Progress.tsx:116 | at least 1, no smaller than any slot, and either 1 or the value of a slot |
| Progress.BarHeight | src/pages/Progress.tsx:116-117 | the height is between 0 and 100; 0 exactly for an empty day; 100 exactly for the busiest day |
| Progress.DisplayedHeight | src/pages/Progress.tsx:122 | an empty day shows a 10 percent stub; any other day shows its height; the shown height is positive and at most 100 |
| Progress.ProgressPage.constructor | src/pages/Progress.tsx:12-17 | the screen starts with zero statistics and seven empty slots |
| Progress.ProgressPage.FetchProgress | src/pages/Progress.tsx:27-65 | with data, the statistics are the count, rounded average and this week's count, and the histogram is the buckets; without data nothing changes; the seven-slot invariant holds |
| Presentation.PadTwo | src/pages/PresentationPractice.tsx:164 | `padStart(2, '0')`: text already two long is unchanged; shorter text gets leading zeros up to two characters |
| Presentation.FormatDuration | src/pages/PresentationPractice.tsx:161-165 | the display is minutes, a colon and two seconds digits with the first at most 5; the fields read back as `seconds / 60` and `seconds % 60` |
| Presentation.SecondsField | src/pages/PresentationPractice.tsx:163-164 | a seconds count below 60 pads to two digits, the first at most 5, that read back as the count |
| Presentation.ParseDuration | src/pages/PresentationPractice.tsx:161-165 | a display that parses has a colon before its last two characters |
| Presentation.DurationRoundTrip | src/pages/PresentationPractice.tsx:161-165 | reading the display back gives the number of seconds |
| Presentation.FormatDurationInjective | src/pages/PresentationPractice.tsx:161-165 | two different durations never show the same text |
| Presentation.Accepts | src/pages/PresentationPractice.tsx:26 | the upload filter: `UploadFile` states that exactly the files it accepts set the file name |
| Presentation.PresentationScreen.constructor | src/pages/PresentationPractice.tsx:14-21 | the screen starts at upload on slide 1, with no file, no duration, no feedback and no recording |
| Presentation.PresentationScreen.UploadFile | src/pages/PresentationPractice.tsx:23-40 | a PDF, `.ppt` or `.pptx` file sets the file name; any other file, or none, changes nothing |
| Presentation.PresentationScreen.StartPresentation | src/pages/PresentationPractice.tsx:42-67 | with a file and an open microphone, recording starts, the step becomes presenting and the duration 0; otherwise nothing changes |
| Presentation.PresentationScreen.Tick | src/pages/PresentationPractice.tsx:145-153 | the duration grows by one second only while recording |
| Presentation.PresentationScreen.NextSlide | src/pages/PresentationPractice.tsx:167-169 | the slide advances by one, but not past slide 8 |
| Presentation.PresentationScreen.PrevSlide | src/pages/PresentationPractice.tsx:171-173 | the slide goes back by one, but not before slide 1 |
| Presentation.PresentationScreen.EndSession | src/pages/PresentationPractice.tsx:69-77 | recording stops, and a recording in progress becomes a finished recording |
| Presentation.PresentationScreen.ProcessRecording | src/pages/PresentationPractice.tsx:79-128 | with a recording, not processing and not at results, the recording is dropped; a successful analysis becomes the feedback and the step becomes results; a failed one leaves step and feedback |
| Presentation.PresentationScreen.NewPresentation | src/pages/PresentationPractice.tsx:398-404 | back to upload, slide 1, no file, no duration, no feedback |
| InterviewScreen.ProgressPercent | src/pages/MockInterview.tsx:311 | `None`, standing for the rendered `Infinity%`, exactly when there are no questions; otherwise the question number as a percentage of the count, rounded |
| InterviewScreen.ProgressReachesHundredAtEnd | src/pages/MockInterview.tsx:311 | with fewer than 200 questions the figure is at most 100, and 100 exactly at the last question |
| InterviewScreen.ProgressRoundsUpBeforeEnd | src/pages/MockInterview.tsx:311 | with 200 questions the next-to-last question already shows 100, so the bound of `ProgressReachesHundredAtEnd` is tight |
| InterviewScreen.InterviewSession.constructor | src/pages/MockInterview.tsx:14-23 | the screen starts at setup with no role, medium difficulty, the behavioral type and no questions |
| InterviewScreen.InterviewSession.Configure | src/pages/MockInterview.tsx:173-214 | the role, difficulty and type buttons set those fields and nothing else |
| InterviewScreen.InterviewSession.StartInterview | src/pages/MockInterview.tsx:37-76 | without a role no request is made; otherwise the request carries the configuration and `generate_questions`; on success the questions are stored and the step becomes the interview; on failure the step stays setup; loading is cleared |
| InterviewScreen.InterviewSession.StartAnswer | src/pages/MockInterview.tsx:78-88 | recording starts when the microphone opens; otherwise nothing changes |
| InterviewScreen.InterviewSession.StopAnswer | src/pages/MockInterview.tsx:90-93 | recording stops, a recording is held and processing is requested |
| InterviewScreen.InterviewSession.ProcessAnswer | src/pages/MockInterview.tsx:95-139 | with a recording and processing requested, the recording is dropped and processing cleared; after a successful transcription the index advances only from a question before the last; the index stays within the questions |
| InterviewScreen.RequestAsksForQuestions | supabase/functions/mock-interview/index.ts:18-23 | the request a start sends yields a non-empty prompt ending with the chosen role and the output format |
| DiscussionScreen.HistoryWindow | src/pages/GroupDiscussion.tsx:69 | `slice(-5)`: the last five messages, or all of them when there are fewer |
| DiscussionScreen.DisplayedParticipants | src/pages/GroupDiscussion.tsx:229 | the first `participants` AI participants, at most the three there are |
| DiscussionScreen.AsTurns | supabase/functions/group-discussion/index.ts:28 | each message becomes the turn with its name and message, in order |
| DiscussionScreen.HistoryBlockLines | src/pages/GroupDiscussion.tsx:64-70 | the history block the function renders from the sent window has one line per message, between one and five lines |
| DiscussionScreen.ClientLevelsAlwaysModerate | src/pages/GroupDiscussion.tsx:36-40 | every aggression level the screen offers falls back to the `moderate` style |
| DiscussionScreen.DiscussionSession.constructor | src/pages/GroupDiscussion.tsx:18-25 | the screen starts at setup, inactive, with three participants, `balanced`, no topic and no messages |
| DiscussionScreen.DiscussionSession.Configure | src/pages/GroupDiscussion.tsx:133-176 | the topic, participant and aggression buttons set those fields and nothing else |
| DiscussionScreen.DiscussionSession.StartDiscussion | src/pages/GroupDiscussion.tsx:42-58 | without a topic nothing changes; otherwise the discussion starts active with an empty feed |
| DiscussionScreen.DiscussionSession.GenerateAIResponse | src/pages/GroupDiscussion.tsx:60-83 | nothing is sent while paused or with 20 messages; otherwise the last five messages are sent and a successful reply is appended as an AI message; the feed never exceeds 20 messages |
| DiscussionScreen.DiscussionSession.TogglePause | src/pages/GroupDiscussion.tsx:291 | the active flag flips and nothing else changes |
| DiscussionScreen.DiscussionSession.End | src/pages/GroupDiscussion.tsx:298-301 | back to setup, inactive, with the feed kept |
| Auth.PasswordValid | src/pages/Auth.tsx:12 | the password rule, at least 6 characters: `LoginPassesIffValid` and `SignupPassesIffValid` state that validation passes exactly with it |
| Auth.LoginErrors | src/pages/Auth.tsx:25-39 | an email error exactly when the email is invalid, a password error exactly when it is shorter than 6, with their messages and no other key |
| Auth.SignupErrors | src/pages/Auth.tsx:41-58 | the same for the sign-up fields, plus a display-name error exactly when the name trims to nothing |
| Auth.LoginPassesIffValid | src/pages/Auth.tsx:25-39 | login validation passes exactly when the email is valid and the password has at least 6 characters |
| Auth.SignupPassesIffValid | src/pages/Auth.tsx:41-58 | sign-up validation passes exactly when, in addition, the name has a character that is not white space |
| Auth.AuthForm.constructor | src/pages/Auth.tsx:16-23 | the form starts not loading, with no errors and empty fields |
| Auth.AuthForm.EditLogin | src/pages/Auth.tsx:121-140 | typing sets the login fields and nothing else |
| Auth.AuthForm.EditSignup | src/pages/Auth.tsx:167-205 | typing sets the sign-up fields and nothing else |
| Auth.AuthForm.ValidateLogin | src/pages/Auth.tsx:25-39 | the errors are replaced by exactly the login errors, and the result is whether there are none |
| Auth.AuthForm.ValidateSignup | src/pages/Auth.tsx:41-58 | the errors are replaced by exactly the sign-up errors, and the result is whether there are none |
| Auth.AuthForm.HandleLogin | src/pages/Auth.tsx:60-70 | sign-in is attempted exactly when the login form is valid, and loading is then cleared; otherwise loading is untouched |
| Auth.AuthForm.HandleSignup | src/pages/Auth.tsx:72-82 | sign-up is attempted exactly when the email is valid, the password is long enough and the name is not blank |
| Auth.AuthForm.HandleGoogleSignIn | src/pages/Auth.tsx:84-91 | no validation; loading is cleared afterwards and the errors are kept |

## Left out

- The network calls go unmodelled: the language-model API, the Supabase functions, the database query and the authentication service. Their answers or failures are parameters.
- The audio recorder, `FileReader`, the toasts and navigation are not modelled. The recorder's state is two booleans.
- Presentation.PresentationScreen.StartPresentation and InterviewScreen.InterviewSession.StartAnswer clear `hasAudio` when recording starts. This assumes the recorder hook drops its previous recording on start; the hook `useAudioRecorder` is not part of this model.
- `JSON.parse` of the selected text is not modelled. The model stops at the text handed to it. A parse error, which makes the functions answer with status 500, is outside the model.
- The email syntax of the validation library is a parameter `isEmail`.
- Time zones and daylight saving are not modelled. Calendar days are UTC days of 86 400 000 ms, and "a week ago" is exactly seven such days before now.
- Floating point is not modelled. Averages, the interview progress figure and bar heights use exact integers or reals, and `Math.round` is rounding half up.
- `parseInt` of very long digit runs loses precision in JavaScript. The model reads the exact value.
- String lengths count characters, not UTF-16 code units. `padStart` is exact only for the digit strings it is used on.
- Auth.PasswordValid: counts characters, while the validation library's minimum length counts UTF-16 code units. A password of three characters outside the Basic Multilingual Plane (three emoji, say) passes the source's check and fails the model's.
- The function's aggression table is looked up as a plain map. Keys inherited from `Object.prototype`, such as `constructor`, are not modelled.
- Handlers are modelled as atomic steps. The interleavings of the asynchronous calls are not, so the 20-message cap is proved only for steps taken one after another.
- The voice-feedback playback of the presentation screen is not modelled, and neither is its voice toggle.
- The `transcribe-speech` and `text-to-speech` functions are not part of this model, and neither is the profile screen.
- The weekday labels of the activity chart are not modelled; only the slots are.
- The function-level error responses (status 500) are not modelled.
- InterviewScreen.ProgressPercent: returns `None` where the source renders `Infinity%`; the text of that figure is not modelled.
- InterviewScreen.ProgressReachesHundredAtEnd: states the exact-100 property only for fewer than 200 questions, because it fails from 200 questions on (see `InterviewScreen.ProgressRoundsUpBeforeEnd`).
- Auth.AuthForm.HandleLogin: models the authentication call's outcome only through `loading`, since the call itself is outside the model.
- Auth.AuthForm.HandleSignup: the same as `HandleLogin`.
