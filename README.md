# DigitalBuddy session and assessment logic in Dafny

This project models the part of the DigitalBuddy front end that is logic
rather than presentation: the `useUneeq` hook that guards every call on the
vendor's avatar SDK, and the home page's PHQ-9-style assessment recording,
session analytics, clinician PIN entry and session effect.

- `use_uneeq.dfy` (module `UseUneeq`): the hook's state (`hasInstance`,
  `readyToStart`, `avatarLive`, `lastResponse`) plus a log of the calls made on
  the SDK instance (`Init`, `StartSession`, `EndSession`, `StopSpeaking`,
  `ChatPrompt(message)`). Each callback is a pure step (`Started`, `Ended`,
  `Stopped`, `Sent`, `Dispatched`, `Initialised`). The class `UneeqHook` holds
  the same state in fields, and its methods are proved to perform those steps.
  The invariant `Consistent` says four things. The instance and `readyToStart`
  appear together with `init`. `avatarLive` is true exactly when the log leaves
  a session open. Starts and ends alternate. Chat prompts go out only while a
  session is open.
- `assessment.dfy` (module `Assessment`): the nine questions and their
  fallback, how a score is phrased to the avatar and labelled, the response
  record, and the analytics: the critical flag and count, the selected option,
  the overall mood, the engagement level and the areas of concern. The mood's
  floating-point average is restated as integer thresholds
  (`sum <= count`, `sum <= 2 * count`). A lemma proves these equal the
  thresholds on the real average. The JavaScript `reduce` is modelled with its
  `+`: a string score turns the sum into a string, which divides to NaN.
- `pin.dfy` (module `Pin`): the four-slot PIN buffer, its one-character rule,
  the digit filter of the input fields, and the comparison of the joined
  buffer with the constant `"1234"`.
- `homepage.dfy` (module `Homepage`): the class `Homepage`, holding the page
  state and a `UneeqHook`. Its methods are the change, submit, key-down and
  cancel handlers of both PIN forms, the answer handler, and the session effect
  that starts or ends the avatar session to match `isInConversation`.

The SDK, the clock and the browser are not modelled. A timestamp is an opaque
string parameter. The current question number is a parameter, because the
hook does not return it (`homepage.tsx:71-73` asks for it, and
`hooks/useUneeq.ts:166-177` does not provide it). As written,
`currentQuestionNumber` is therefore undefined, so `getQuestionText` falls back
to question 1 for every record (`homepage.tsx:94`, `homepage.tsx:121`). Each
handler whose effect is delayed by `setTimeout` is one atomic transition.

The message handler (`hooks/useUneeq.ts:94-116`) only records speech-event
values; nothing in the hook sets `showAssessmentScale` or
`currentQuestionNumber`.

## Model

| member | source | states |
|---|---|---|
| `UseUneeq.UneeqHook.constructor` | hooks/useUneeq.ts:25-29 | on mount there is no instance, both flags are false, there is no last response and no SDK call, and the invariant holds |
| `UseUneeq.UneeqHook.InitInstance` | hooks/useUneeq.ts:80-83 | construction sets the instance and `readyToStart` together and logs `init` as the first SDK call; `avatarLive` and `lastResponse` are untouched |
| `UseUneeq.UneeqHook.StartSession` | hooks/useUneeq.ts:131-138 | with an instance, `readyToStart` and no live avatar, one SDK start is logged and `avatarLive` becomes true; otherwise state and log are unchanged; the invariant is kept |
| `UseUneeq.UneeqHook.EndSession` | hooks/useUneeq.ts:140-147 | with an instance and a live avatar, one SDK end is logged and `avatarLive` becomes false; otherwise nothing changes |
| `UseUneeq.UneeqHook.StopSpeaking` | hooks/useUneeq.ts:149-153 | forwards one stop call whenever an instance exists, whether or not the avatar is live, and changes nothing else |
| `UseUneeq.UneeqHook.SendMessage` | hooks/useUneeq.ts:155-164 | appends `ChatPrompt(message)` with the message unchanged exactly when an instance exists and the avatar is live; no flag changes |
| `UseUneeq.UneeqHook.HandleUneeqMessage` | hooks/useUneeq.ts:91-116 | once an instance exists, a speech event sets `lastResponse` to its parameter value; every other message, and any message before the instance, changes nothing |
| `UseUneeq.Initialised` | hooks/useUneeq.ts:80-84 | the init step creates the instance, sets `readyToStart` and adds exactly one SDK call, leaving `avatarLive` and `lastResponse` as they were; `StepKeepsConsistent` and `FirstCallIsInit` show the call is `init` and comes first |
| `UseUneeq.Started` | hooks/useUneeq.ts:131-138 | a start changes neither the instance, `readyToStart` nor `lastResponse`, adds at most one SDK start, and flips `avatarLive` exactly when it adds it; `StartIsIdempotent` and `SessionsBalance` are stated over it |
| `UseUneeq.Ended` | hooks/useUneeq.ts:140-147 | an end changes neither the instance, `readyToStart` nor `lastResponse`, adds at most one SDK end, and flips `avatarLive` exactly when it adds it; `EndIsIdempotent` is stated over it |
| `UseUneeq.Stopped` | hooks/useUneeq.ts:149-153 | a stop changes only the call log, adding at most one stop call |
| `UseUneeq.Sent` | hooks/useUneeq.ts:155-164 | a send changes only the call log, adding at most one chat prompt that carries the message unchanged; `PromptsOnlyWhileLive` shows it is only ever added during a session |
| `UseUneeq.Dispatched` | hooks/useUneeq.ts:94-116 | a message changes nothing but `lastResponse`; `DispatchTouchesOnlyLastResponse` says when and to what |
| `UseUneeq.StepKeepsConsistent` | hooks/useUneeq.ts:131-164 | every hook operation keeps the invariant: flags agree with the call log and the SDK is only called as the guards permit |
| `UseUneeq.RunKeepsConsistent` | hooks/useUneeq.ts:24-178 | any sequence of operations from a consistent state stays consistent |
| `UseUneeq.MountedIsConsistent` | hooks/useUneeq.ts:25-29 | the state on mount satisfies the invariant |
| `UseUneeq.Append` | hooks/useUneeq.ts:131-164 | appending a permitted call keeps a log disciplined, and the session is open after it exactly when a start was appended or it was open and no end was appended |
| `UseUneeq.ReadyIsNeverReset` | hooks/useUneeq.ts:80-83 | once `readyToStart` is true, no sequence of operations sets it back to false |
| `UseUneeq.ReadyOnlyAfterInit` | hooks/useUneeq.ts:80-83 | `readyToStart` holds only when an instance exists and its `init` was the first SDK call |
| `UseUneeq.FirstCallIsInit` | hooks/useUneeq.ts:80-82 | every non-empty permitted call log starts with `init` |
| `UseUneeq.StartIsIdempotent` | hooks/useUneeq.ts:131-138 | two consecutive starts, the second seeing the state the first left (a render between them), equal one start and add at most one SDK start call |
| `UseUneeq.EndIsIdempotent` | hooks/useUneeq.ts:140-147 | two consecutive ends equal one end |
| `UseUneeq.PromptsOnlyWhileLive` | hooks/useUneeq.ts:155-164 | every chat prompt in a permitted log was sent while a session was open |
| `UseUneeq.SessionsBalance` | hooks/useUneeq.ts:131-147 | SDK starts outnumber ends by one while the session is open and equal them otherwise |
| `UseUneeq.DispatchTouchesOnlyLastResponse` | hooks/useUneeq.ts:94-116 | a message never reaches the SDK and changes at most `lastResponse`, only for a speech event with an instance present, and then to its parameter value |
| `Assessment.QuestionText` | homepage.tsx:82-95 | the text returned is always one of the nine fixed questions |
| `Assessment.QuestionFallback` | homepage.tsx:94 | any number outside 1..9 gets question 1's text |
| `Assessment.QuestionRoundTrip` | homepage.tsx:83-93 | the nine texts are distinct: a question's text recovers its number for 1..9 |
| `Assessment.Phrase` | homepage.tsx:102-116 | every score is labelled with one of the five options, and the label is one of the four answer labels and equals the spoken text for every score other than "skip"; `PhraseCases` gives each case |
| `Assessment.PhraseCases` | homepage.tsx:102-116 | "skip" is spoken as "I would like to skip this question" and labelled "Skip"; 0..3 give "Not at all", "Several days", "More than half the days", "Nearly every day"; anything else, "-" included, gives "Not at all"; speech equals label except for "skip" |
| `Assessment.NewResponse` | homepage.tsx:119-126 | the record carries the question number, score and timestamp given, the question text of that number, the score's label, and is critical exactly when the score is 3 |
| `Assessment.SelectedIndex` | homepage.tsx:178 | an option is selected exactly when the score is not "-", and the index selected is the numeric score or 4 for "skip"; `SelectionShowsRecordedLabel` ties it to the label |
| `Assessment.CriticalCount` | homepage.tsx:174 | the number of critical records never exceeds the number of records; `CriticalFlagMatchesCount` ties it to the flag |
| `Assessment.SessionAnalytics` | homepage.tsx:166-185 | one row per record, row `i` summarising record `i`, and a critical count no larger than the number of records; `AnalyticsSummarise` states the rest |
| `Assessment.CriticalFlagMatchesCount` | homepage.tsx:173-174 | `hasCriticalResponses` (some record critical) holds exactly when `criticalCount` is positive |
| `Assessment.CriticalRows` | homepage.tsx:185 | `criticalResponses` keeps only rows flagged critical; `CriticalRowsCounted` gives their number. The page computes this constant but never reads it |
| `Assessment.CriticalRowsCounted` | homepage.tsx:174-185 | the critical rows of the analytics are as many as the critical count |
| `Assessment.AnalyticsSummarise` | homepage.tsx:166-185 | one analytics row per record, in order, with the record's question, label and critical flag; the flag and count agree |
| `Assessment.SelectionShowsRecordedLabel` | homepage.tsx:175-182 | for 0..3 and "skip" the selected index (4 for "skip", the score otherwise) names the option that is the record's label |
| `Assessment.OverallMood` | homepage.tsx:747-757 | the mood is "No responses yet" exactly when there are no records, and otherwise one of "No scored responses", "Positive", "Moderate", "Concerning"; `AllSkipMood`, `MoodIsAverageOfScored`, `HyphenMoodIsConcerning` and `SkipKeepsMood` say which |
| `Assessment.MoodBucketIsAverage` | homepage.tsx:750-756 | the integer thresholds `sum <= count` and `sum <= 2 * count` classify exactly as `average <= 1` and `average <= 2` on the real average |
| `Assessment.AtMostIff` | homepage.tsx:754-755 | for a positive count, `sum / count <= k` exactly when `sum <= k * count` |
| `Assessment.NumericSum` | homepage.tsx:750-752 | with numeric scores only, the reduction is the plain sum |
| `Assessment.HyphenMakesText` | homepage.tsx:750-752 | one "-" score among the summed records turns the reduction into a string |
| `Assessment.ScoredIndex` | homepage.tsx:748-751 | every record whose score is not "skip" takes part in the mood |
| `Assessment.MoodIsAverageOfScored` | homepage.tsx:747-757 | with scores that are numbers or "skip", the mood is the threshold on the real average of the non-skipped scores |
| `Assessment.HyphenMoodIsConcerning` | homepage.tsx:747-757 | any record scored "-" makes the overall mood "Concerning" whatever the other scores |
| `Assessment.AllSkipMood` | homepage.tsx:747-748 | a non-empty list gives "No scored responses" exactly when every record is a skip |
| `Assessment.SkipKeepsMood` | homepage.tsx:747-753 | appending a "skip" record to a non-empty list leaves the mood unchanged |
| `Assessment.Engagement` | homepage.tsx:763-765 | the level is "No responses yet" exactly when there are no records, and otherwise "Low", "Moderate" or "High"; `EngagementCases` gives the thresholds and `EngagementGrows` orders them |
| `Assessment.EngagementCases` | homepage.tsx:763-765 | 1 or 2 answers give "Low", 3 to 5 give "Moderate", and 6 or more give "High" |
| `Assessment.EngagementGrows` | homepage.tsx:763-765 | more answers never lower the engagement level |
| `Assessment.ConcernText` | homepage.tsx:771-773 | the text is "None detected" exactly when the count is zero; `NoConcernIffNoCritical` lifts this to the records |
| `Assessment.NoConcernIffNoCritical` | homepage.tsx:771-773 | "None detected" is shown exactly when no record is critical |
| `Assessment.OptionValueAsWritten` | homepage.tsx:873-882 | as written, buttons 0..3 select their own option with its label, while the Skip button's value selects no option and is labelled differently from "Skip" |
| `Assessment.OptionValue` | homepage.tsx:873-882 | with Skip passing "skip", every button `i` selects option `i` and is labelled with that option |
| `Assessment.SkipButtonAsWrittenMisreports` | homepage.tsx:873-882 | as written, the Skip button's answer is phrased as "Not at all" (it reaches the avatar only while live), records "Not at all", selects no option, and makes a session of one 0 answer plus a skip "Concerning" |
| `Assessment.OptionRoundTrip` | homepage.tsx:873-882 | with Skip passing "skip", button `i` is shown as selected option `i` with the same label, speaks that label or the skip sentence, and a skip leaves the mood unchanged |
| `Pin.PinChangeKeepsShape` | homepage.tsx:198-203 | an input longer than one character leaves the buffer unchanged; otherwise only slot `index` changes, to the input; the buffer stays four slots of at most one character |
| `Pin.PinChanged` | homepage.tsx:198-203 | the buffer keeps its length and every slot but `index`; slot `index` takes an input of at most one character and is kept otherwise; `PinChangeKeepsShape` shows the shape is kept |
| `Pin.Join` | homepage.tsx:249 | joining no slots, or only empty ones, gives the empty string, and the result is at least as long as the last slot; `AcceptedExactly` characterises when it equals "1234" |
| `Pin.DigitsOnly` | homepage.tsx:490 | the filtered input holds only digits and only characters of the input, each digit as often as in the input; `DigitsOnlyKeepsDigits` shows digit strings pass unchanged and `OneKeystroke` that a single key passes exactly when it is a digit |
| `Pin.DigitsOnlyKeepsDigits` | homepage.tsx:490 | the input fields' digit filter leaves a string of digits unchanged |
| `Pin.DigitsOnlyAppend` | homepage.tsx:490 | one more character extends the filtered string by that character when it is a digit and leaves it unchanged otherwise |
| `Pin.OneKeystroke` | homepage.tsx:490 | a single typed character passes the filter exactly when it is a digit, and is dropped otherwise |
| `Pin.AcceptedExactly` | homepage.tsx:248-250 | with one-character slots, the joined buffer equals "1234" exactly when the slots are "1", "2", "3", "4" |
| `Pin.AcceptedIsFilled` | homepage.tsx:226-235 | an accepted buffer has every slot filled, so Enter always submits a correct PIN |
| `Pin.OverlongSlotsWouldPass` | homepage.tsx:198-199 | without the one-character rule, a buffer such as "12", "34", "", "" would join to the correct PIN |
| `Homepage.Reconciliation` | homepage.tsx:143-153 | a start is requested only in conversation with no live avatar, an end only out of conversation with a live one, and nothing is requested only when the two agree or the SDK is not ready; `ReconciliationCases` gives both directions |
| `Homepage.ReconciliationCases` | homepage.tsx:143-153 | a start is requested exactly when in conversation, ready and not live; an end exactly when out of conversation and live; nothing otherwise |
| `Homepage.ReconcileSettles` | homepage.tsx:143-153 | after one run of the effect the avatar is live exactly when in conversation with the SDK ready, and a second run requests nothing |
| `Homepage.LiveImpliesReady` | hooks/useUneeq.ts:131-138 | a live avatar implies an instance that is ready |
| `Homepage.Homepage.constructor` | homepage.tsx:42-58 | the page starts out of conversation with empty PIN buffers, no errors and no responses, over a freshly mounted hook |
| `Homepage.Homepage.PinChange` | homepage.tsx:198-210 | the start PIN buffer becomes the one-slot update of the old buffer, or stays as it was for a longer input |
| `Homepage.Homepage.PinInput` | homepage.tsx:490 | a typed value reaches the change handler with its non-digits removed |
| `Homepage.Homepage.EndPinInput` | homepage.tsx:581 | a value typed into the end PIN form reaches its change handler with its non-digits removed |
| `Homepage.Homepage.EndPinChange` | homepage.tsx:212-224 | the same rule for the end-session PIN buffer |
| `Homepage.Homepage.PinSubmit` | homepage.tsx:248-274 | a correct PIN clears the responses, starts the conversation and clears buffer and error; a wrong one sets the error message, empties the buffer and changes nothing else |
| `Homepage.Homepage.EndPinSubmit` | homepage.tsx:276-303 | a correct end PIN ends the conversation and clears buffer and error; a wrong one sets the error message and empties the buffer |
| `Homepage.Homepage.PinKeyDown` | homepage.tsx:226-235 | Enter on a filled buffer submits it and empties it: a correct PIN starts the conversation with no responses and no error; a wrong one sets the error message and leaves the responses and the conversation as they were; any other key, or an unfilled buffer, changes nothing |
| `Homepage.Homepage.EndPinKeyDown` | homepage.tsx:237-246 | Enter on a filled end buffer submits it and empties it: a correct PIN ends the conversation with no error; a wrong one sets the error message and leaves the conversation as it was; any other key, or an unfilled buffer, changes nothing |
| `Homepage.Homepage.PinCancel` | homepage.tsx:305-313 | cancelling empties the start buffer and its error |
| `Homepage.Homepage.EndPinCancel` | homepage.tsx:315-323 | cancelling empties the end buffer and its error |
| `Homepage.Homepage.RecordResponse` | homepage.tsx:98-140 | exactly one record is appended and earlier ones are kept; its question is the current question's text, and it is critical exactly when the score is 3; the spoken text goes to the avatar only when it is live; the scale is hidden in every case |
| `Homepage.Homepage.PressOption` | homepage.tsx:873-882 | pressing button `i` records an answer that the analytics show as option `i` with that option's label |
| `Homepage.Homepage.Reconcile` | homepage.tsx:143-153 | the hook serves the effect's request, the loading screen shows when starting and hides when ending, and afterwards the avatar is live exactly when in conversation with the SDK ready |

## Findings

| source | as written | input that shows it | evidently intended | confidence | as-written member | corrected member |
|---|---|---|---|---|---|---|
| homepage.tsx:878 | the Skip button passes `"-"`, which no branch of the answer handler or the analytics treats as a skip | answer question 1 with 0, then press Skip | pass `"skip"`, the value the record type declares and the handler, label and analytics test for | high (not executed) | `Assessment.SkipButtonAsWrittenMisreports` | `Assessment.OptionRoundTrip` |

As written, the skip is phrased as "Not at all", which would reach the avatar
only while it is live, and it is recorded with the label "Not at all". Its analytics row selects no option. The overall
mood becomes "Concerning", because adding `"-"` turns the sum into a string and
the average into NaN. With `"skip"` the skip sentence is phrased, the row
selects "Skip", and the mood ignores the skipped answer. `Assessment.OptionValue`
is the corrected button mapping, and `Homepage.Homepage.PressOption` uses it.

## Left out

- Script loading through `useScript` and the module-level script status (hooks/useUneeq.ts:20-34): external I/O. Only the ready branch of the initialisation effect is modelled.
- Polling for the container element with `setTimeout` and `document.getElementById` (hooks/useUneeq.ts:39-45): DOM plumbing, collapsed into the single init step.
- The SDK options object (hooks/useUneeq.ts:49-79): configuration passed to opaque vendor code.
- Adding and removing the window listener (hooks/useUneeq.ts:118-128): only the dispatch is modelled, and only while an instance exists, as the effect registers it.
- The vendor `Uneeq` class (hooks/useUneeq.ts:11-18): opaque, so it is represented by the call log.
- `avatarThinking` (hooks/useUneeq.ts:27): no code ever sets it.
- `UseUneeq.UneeqHook.InitInstance` requires that no instance exists yet. The effect's dependencies stop changing once the script status is 'ready', so its ready branch runs once. `UseUneeq.Step` treats a repeated ready notification as doing nothing.
- The second `useUneeq()` call in app/components/UneeqScript.tsx: that wiring file is not part of this model, so only the home page's hook instance is modelled.
- React's batching and stale callback closures: each handler is one atomic transition over the current state.
- `setShowAssessmentScale` (homepage.tsx:139) is not returned by the hook, so the call would fail at run time. The model keeps a local `showAssessmentScale` flag and hides it, as the code evidently intends.
- Animation delays, modal open and close flags, the loading-screen timer (homepage.tsx:155-163), focus moves, `showAnalytics`, and the disabled states of the submit buttons (including their `patientId` check): timing and presentation.
- `Date`, `toLocaleTimeString` and the session duration (homepage.tsx:124, 169-171): clock- and locale-dependent. Timestamps are opaque strings, and the session start time is not modelled.
- The analytics' fixed `sessionId`, `patientId` default, `character` and options list per row (homepage.tsx:167-177): constants with no logic.
- JSX, styling and `getResponseColor` (homepage.tsx:358-370).
- `handlePinKeyPress` (homepage.tsx:340-344): no element uses it.
- Scores other than numbers, `"skip"` and `"-"`: the component passes no others. A numeric string such as `"1"` would also match a label key.
- `Homepage.Homepage.PinChange` requires `index < 4`: the four input fields pass 0..3 only. A larger index would grow the JavaScript array.
- The float average: the model uses exact integer and real arithmetic. Double-precision division agrees with it for any realistic number of answers (below 2^52).
