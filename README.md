# React screener: session, timers and progression, in Dafny

This project models the logic core of a timed screening questionnaire. The
questionnaire collects an email, presents ten catalog questions in order, each
with its own countdown, and finally posts a transcript as a table of rows.

The core pieces are:

- the **question catalog** (`Catalog`);
- the **session record and its timer state machine** (`Api`). This covers
  creating a session, the single timer mutator, rebuilding the remaining time
  from the last checkpoint's timestamp, the global expiry test, the
  forward-only navigation gate, time formatting, the submission table and the
  single storage slot;
- the four components that drive that state. These are the per-second
  **countdown** (`TimerView.Timer`), the **progress dots** (`ProgressView`),
  the **question card** with its submit latch (`CardView.QuestionCard`) and
  the **email entry form** (`EmailView.EmailForm`).

Two helper modules hold the JavaScript built-ins the code relies on.
`JsCore` has `Math.max`, the truncating `%` with the minutes/seconds split
built from it, `find`/`findIndex` and `slice(0, end)`. `JsString` has the decimal rendering of a number in a
template literal, and `trim`.

Pure code (`map`, `every`, `reduce`, spreads that return new records) is
written as functions. Code that changes things in place is written as
classes whose methods state the new state. This covers the countdown's
state and refs, the card's `isSubmitting` flag, the form's `isLoading` flag
and the storage slot. The `forEach`/`push` that builds the submission table
is a method with a loop.

Clock reads are parameters:

- `now` is `Date.now()` in milliseconds;
- `startDate` is the epoch milliseconds of the `new Date()` stored in the
  session;
- `timestamp` is the string `new Date().toISOString()`.

JavaScript numbers are modelled as integers. `Math.floor(ms / 1000)` is
Dafny's `/` with a positive divisor, which floors for either sign of `ms`.
The `%` in `formatTime` and in the countdown display is `JsCore.Rem`, which
truncates toward zero as JavaScript does.

Three behaviours of the code may be unexpected. The model keeps them as written:

- Revisiting an accessed question is allowed (`questionId <= watermark + 1`),
  although the entry form's instructions say one cannot go back.
- Expiry is not sticky in `updateQuestionTimer` itself. Checkpointing an
  expired timer with time left clears its flag (`Api.CheckpointClearsExpiry`).
- `startTime` is replaced when it is 0, which is JavaScript's falsy test.
  It is not tied to `hasBeenAccessed`. An untouched timer has `startTime` 0
  (`Api.WellFormed`), so its first checkpoint stamps `now`; a checkpoint taken
  at clock value 0 would leave an accessed timer with start 0.

## Model

| member | source | states |
|---|---|---|
| Catalog.TotalQuestions | lib/questions.ts:92-94 | the catalog holds exactly 10 questions |
| Catalog.IdsDense | lib/questions.ts:3-86 | the entry at index i has id i + 1, so ids are unique, dense and in catalog order |
| Catalog.CategoriesAndLimits | lib/questions.ts:3-86 | questions 1-5 are React v19 with 240 s; questions 6-10 are Tailwind CSS v4 with 180 s; every limit is positive |
| Catalog.GetQuestionById | lib/questions.ts:88-90 | for ids 1..10 the result is the catalog entry at index id - 1; any other id gives nothing |
| JsCore.FindIndex | lib/api.ts:144 | the index search inside the `find` there: the result is -1 or the first index whose element satisfies the predicate; no earlier element satisfies it |
| JsCore.Find | lib/questions.ts:89 | nothing comes back exactly when no element satisfies the predicate; otherwise the result is the first element that does |
| JsCore.FindFirst | lib/api.ts:20 | when index i is the first match, `find` returns the element at i |
| JsCore.Take | lib/api.ts:158 | `slice(0, end)` gives a prefix; an `end` past the length is cut to the length, and a negative `end` counts back from the end |
| JsCore.Max | lib/api.ts:120 | `Math.max(a, b)`: at least both arguments, and equal to one of them |
| JsCore.SplitMinutes | lib/api.ts:52-53 | for n >= 0: minutes * 60 + seconds = n with 0 <= seconds < 60; for negative n both parts are non-positive |
| JsCore.Rem | lib/api.ts:53 | JavaScript's `%` for a positive divisor: the sign of the dividend, magnitude below the divisor, the mathematical remainder for non-negative dividends |
| JsString.NatToDecimal | lib/api.ts:54 | a natural number renders as a non-empty string of digits with no leading zero |
| JsString.DecimalRoundTrip | lib/api.ts:54 | reading the digits back gives the number |
| JsString.IntToDecimal | lib/api.ts:54 | a negative number renders with a leading minus sign and the digits of its magnitude |
| JsString.IntToDecimalRoundTrip | lib/api.ts:54 | parsing what an integer renders to gives the integer back |
| JsString.IntToDecimalInjective | lib/api.ts:54 | different integers render differently |
| JsString.Trim | components/QuestionCard.tsx:155 | the result is no longer than the input and has no whitespace at either end; a string without whitespace at its ends is returned unchanged |
| JsString.TrimIsInfix | components/QuestionCard.tsx:155 | the trimmed string is the piece of `s` between a whitespace-only prefix and a whitespace-only suffix |
| JsString.TrimEmptyIff | components/QuestionCard.tsx:155 | `s.trim()` is empty exactly when every character of `s` is JavaScript whitespace |
| Api.CreateNewSession | lib/api.ts:84-107 | one timer per catalog question, in catalog order; each timer has start 0, the question's time limit, not expired, not accessed; the session has no answers, index 0, not completed, watermark 0 |
| Api.NewSessionWellFormed | lib/api.ts:88-106 | a new session satisfies the session invariant: timers aligned with catalog ids, untouched timers at their positive catalog limit, expired exactly when accessed and at 0, nothing accessed beyond the watermark |
| Api.TouchTimer | lib/api.ts:118-125 | the checkpointed timer keeps its id; its time is max(0, r), the given value when r >= 0, and positive iff r is; it is expired iff its time is 0; it is stamped `now` and accessed; its start is kept unless 0, in which case it becomes `now` |
| Api.UpdatedSession | lib/api.ts:110-134 | the timer with the id becomes `max(0, r)`; it is expired iff r <= 0, stamped `now` and accessed; its start is kept unless 0, in which case it becomes `now`; every other timer and field is unchanged; the watermark becomes max(old, id) |
| Api.UpdateIdempotent | lib/api.ts:115-134 | applying the update twice with the same (id, r, now) gives the same session as once |
| Api.CheckpointClearsExpiry | lib/api.ts:120-121 | checkpointing an expired timer with time left clears its expired flag |
| Api.UpdatePreservesWellFormed | lib/api.ts:115-134 | checkpointing a catalog question keeps the session invariant |
| Api.GetQuestionTimer | lib/api.ts:140-145 | a found timer belongs to the session and carries the id; nothing is found exactly when no timer has the id |
| Api.TimerLookup | lib/api.ts:140-145 | in a well-formed session ids 1..10 find the timer at index id - 1; other ids find nothing |
| Api.ElapsedSeconds | lib/api.ts:152 | the floor of a millisecond delta over 1000: k * 1000 <= ms < k * 1000 + 1000 |
| Api.ElapsedSecondsMonotone | lib/api.ts:152 | more elapsed milliseconds never give fewer whole seconds |
| Api.CalculateActualTimeRemaining | lib/api.ts:147-154 | 0 when expired; the stored value when never accessed; otherwise non-negative, and either the stored value less the whole seconds elapsed since the checkpoint, or 0 exactly when the elapsed milliseconds reach the stored seconds times 1000 |
| Api.ActualRemainingNonIncreasing | lib/api.ts:147-154 | the rebuilt remaining time never grows as the clock advances |
| Api.ActualRemainingBounds | lib/api.ts:147-154 | never negative; after the checkpoint never above the stored value; at the checkpoint instant equal to it |
| Api.CheckpointReadBack | lib/api.ts:115-154 | a checkpoint read back at the instant it was taken gives `max(0, r)` |
| Api.ClampScenario | lib/api.ts:153 | a timer checkpointed at 50 s and read 60 s later reports 0, not -10 |
| Api.TimerDone | lib/api.ts:159-163 | a timer counts as done iff it was accessed and is flagged expired or the milliseconds since its checkpoint reach its stored seconds times 1000 |
| Api.AllDone | lib/api.ts:159-163 | `every` holds exactly when each timer was accessed and is expired or has actual remaining <= 0 |
| Api.AreAllTimersExpired | lib/api.ts:156-164 | true exactly when every timer below the watermark was accessed and is expired or has actual remaining <= 0 |
| Api.AllExpiredCases | lib/api.ts:156-164 | vacuously true with watermark 0; false when an unaccessed timer lies below the watermark |
| Api.CanAccessQuestion | lib/api.ts:166-169 | question 1, and anything numbered below it, is always open for a non-negative watermark |
| Api.AccessFrontier | lib/api.ts:166-169 | with watermark h, questions 1..h+1 are accessible and h+2 is not; the last accessible question is h+1 |
| Api.AccessAfterUpdate | lib/api.ts:133 | after checkpointing question id, every q <= id + 1 is accessible and nothing accessible before is lost |
| Api.AccessedIsAccessible | lib/api.ts:166-169 | in a well-formed session every accessed question may be revisited |
| Api.FirstQuestionScenario | lib/api.ts:166-169 | a new session opens question 1 but not 2; after checkpointing question 1 at 239 s, the watermark is 1 and question 2 opens |
| Api.FormatTime | lib/api.ts:51-55 | at least five characters ending in "s", no leading minus for n >= 0; under a minute the text is "0m <n>s", and a whole number of minutes reads "<m>m 0s" |
| Api.FormatTimeInjective | lib/api.ts:51-55 | two non-negative durations that format to the same "Xm Ys" text are equal (proved with the helpers `Api.FormatPartsAgree` and `Api.DigitsBeforeMarker`, which split two equal texts at the first "m") |
| JsString.DecimalAlphabet | lib/api.ts:54 | a rendered integer contains no character other than digits and '-' |
| Api.TotalTimeSpent | lib/api.ts:46-49 | the sum of the answers' time spent; it is non-negative when each one is, and 0 when each one is 0 |
| Api.TotalTimeAppend | lib/api.ts:47 | one more answer adds its time spent to the total |
| Api.CalculateTotalTime | lib/api.ts:46-49 | the formatted total reads "0m 0s" when no answer has time spent (in particular with no answers), and has no leading minus when no time spent is negative |
| Api.QuestionRow | lib/api.ts:19-25 | three cells: the question text; then the first matching answer's text and formatted time, or "Not answered" and "N/A" when there is none |
| Api.AppendQuestionRows | lib/api.ts:19-25 | the `forEach`/`push` loop: after the given header, exactly one row per question of the given list, in order, each the question's row for the answers |
| Api.BuildSubmissionData | lib/api.ts:11-25 | a header row of email, timestamp and formatted total time, then exactly one row per catalog question, in catalog order |
| Api.SessionStore.constructor | lib/api.ts:64-76 | a store that was never written holds nothing, so loading gives `null` |
| Api.SessionStore.Save | lib/api.ts:58-62 | the slot holds exactly the saved session |
| Api.SessionStore.Load | lib/api.ts:64-76 | returns what the slot holds |
| Api.SessionStore.Clear | lib/api.ts:78-82 | the slot is empty |
| Api.UpdateQuestionTimer | lib/api.ts:110-138 | returns the updated session and saves exactly that session to the slot |
| TimerView.Timer.constructor | components/Timer.tsx:23-26 | the time, the last reported value and the latch start at initialTime, initialTime and false |
| TimerView.Timer.Reset | components/Timer.tsx:29-38 | when expired: time 0, last report 0, latch kept; otherwise: both set to initialTime and the latch cleared |
| TimerView.Timer.Tick | components/Timer.tsx:41-65 | no tick while inactive or expired; otherwise time = max(0, prev - 1) and a value is reported iff it differs from the last report, which is iff time was left; time-up fires iff the new time is 0 and the latch was not set, and it sets the latch |
| TimerView.Timer.RunInterval | components/Timer.tsx:41-65 | n firings with no reset: nothing while inactive or expired; otherwise the clock is at `AfterTicks(old, n)`; the latch ends set iff it was set or time-up fired; time-up fires at most once, iff the latch goes from unset to set, and exactly once when n >= 1 ticks drain a non-negative clock whose latch was unset |
| TimerView.TicksDrain | components/Timer.tsx:46 | n ticks from v >= 0 leave max(0, v - n) |
| TimerView.Display | components/Timer.tsx:67-68 | minutes * 60 + seconds = time shown, with seconds < 60 |
| TimerView.GetColor | components/Timer.tsx:72-76 | red iff <= 10 s, orange iff 10 < t <= 30, neutral iff > 30 |
| ProgressView.TimerAt | components/ProgressBar.tsx:17-20 | a timer is there iff timers were given and the index is in range, and it is the one at that index |
| ProgressView.GetQuestionStatus | components/ProgressBar.tsx:16-26 | not started iff there are no timers, no timer at the index, or the timer is unaccessed; expired iff accessed and flagged or at <= 0; warning iff accessed, not flagged and 0 < t <= 30; active iff accessed, not flagged and t > 30 |
| ProgressView.StatusInSession | components/ProgressBar.tsx:16-26 | over a well-formed session, a dot is not started iff its question was never accessed, and expired iff its timer is flagged expired |
| ProgressView.GetStatusColor | components/ProgressBar.tsx:28-44 | red classes for expired, orange for warning, zinc for active and not started; a current dot has extra classes (a space in the class list) and a non-current one does not; the pulsing class list is exactly the current warning's |
| ProgressView.StatusColorInjective | components/ProgressBar.tsx:28-44 | each (status, current) pair gets a distinct colour class |
| ProgressView.Dots | components/ProgressBar.tsx:64-66 | max(0, total) dots; dot i has the status of index i and is current iff i = current - 1 |
| ProgressView.CurrentDotCount | components/ProgressBar.tsx:64-66 | exactly one dot is current when 1 <= current <= total, and none otherwise |
| CardView.IsExpired | components/QuestionCard.tsx:35 | the timer is flagged expired or has no time left; `CardView.CardExpiredInSession` and `CardView.CardAndDotAgree` give its meaning over a session |
| CardView.CardExpiredInSession | components/QuestionCard.tsx:35 | applied to a timer as the session stores it, in a well-formed session the card's expiry test is exactly the timer's expired flag; the card itself receives the question page's rebuilt copy of that timer, and that page is not part of this model |
| CardView.CardAndDotAgree | components/QuestionCard.tsx:35 | for an accessed timer the card counts as expired exactly when its dot is "expired" |
| CardView.TimeSpent | components/QuestionCard.tsx:46 | time spent plus time left equals the limit; it lies within 0..limit when the time left does; it is 0 for an untouched allowance |
| CardView.QuestionCard.constructor | components/QuestionCard.tsx:32-34 | the answer starts from the stored answer; not submitting; nothing submitted |
| CardView.QuestionCard.RestoreAnswer | components/QuestionCard.tsx:38-40 | the answer becomes the stored answer |
| CardView.QuestionCard.Edit | components/QuestionCard.tsx:115-116 | edits are ignored once expired, and taken whenever the answer box is enabled |
| CardView.QuestionCard.HandleSubmit | components/QuestionCard.tsx:42-48 | does nothing when expired or already submitting; otherwise sets the flag and submits (answer, limit - remaining); at most one submission per mount, since the flag is never cleared |
| CardView.QuestionCard.HandleTimeUp | components/QuestionCard.tsx:50-54 | submits only when neither submitting nor expired: then it sets the flag and logs exactly the one submission; otherwise it changes nothing |
| CardView.TextareaDisabled | components/QuestionCard.tsx:116 | an expired card's answer box is disabled whatever the submitting flag |
| CardView.SubmitButtonDisabled | components/QuestionCard.tsx:155 | disabled iff submitting or the answer is all whitespace |
| CardView.NextQuestionPath | components/QuestionCard.tsx:133 | the expired card's "Next Question" path is "/question/" followed by a number that parses as questionNumber + 1 |
| CardView.NextQuestionOpen | components/QuestionCard.tsx:133 | in a well-formed session, once the card's own question was accessed, the question its "Next Question" path names passes the navigation gate |
| CardView.RemainingQuestions | components/QuestionCard.tsx:126 | the footer's count lies in 0..total for a question number in 1..total, and is 0 on the last question |
| CardView.RemainingIsQuestionsAfter | components/QuestionCard.tsx:126 | for a catalog question, totalQuestions - questionNumber counts the catalog questions after it |
| EmailView.IsValidEmail | components/EmailForm.tsx:19 | an email is accepted iff some character of it is an at sign (the non-empty test then holds by itself) |
| EmailView.EmailCheckExamples | components/EmailForm.tsx:19 | "@" alone is accepted; the empty string and a string without '@' are rejected |
| EmailView.EmailForm.constructor | components/EmailForm.tsx:12-13 | the email is empty and the form is not loading |
| EmailView.EmailForm.SetEmail | components/EmailForm.tsx:51 | the email becomes the typed value |
| EmailView.EmailForm.HandleSubmit | components/EmailForm.tsx:16-32 | a rejected email raises the alert and changes neither the flag nor the slot; an accepted one sets the loading flag, saves exactly a new session for that email and routes to question 1 |
| EmailView.AcceptedSessionOpensOnlyFirst | components/EmailForm.tsx:27-31 | in the session saved on acceptance, question q is accessible iff q <= 1 |

## Left out

- The POST to the spreadsheet endpoint, the response-status check, the logging and the boolean result (lib/api.ts:27-43). These are network I/O. Only the row table is modelled.
- JSON encoding and parsing of the stored session, and the `typeof window` guard (lib/api.ts:58-82). The slot holds the session value itself. A corrupt payload that reads as "no session" cannot arise in the model.
- `Date.now()` and `new Date()`. They are parameters.
- `setInterval`/`clearInterval`, effect ordering, re-render timing and stale closures (components/Timer.tsx:41-65). The model lets each tick, reset or handler see the state left by the previous one. `Tick` is one interval firing. The `hasWarned` state (components/Timer.tsx:24, 79-83) is read only by the effect that sets it and has no other observable effect, so it is left out.
- CardView.QuestionCard.HandleSubmit: React applies `setIsSubmitting(true)` on the next render, so two clicks within one render could both submit. The model applies the flag at once. The at-most-once guarantee therefore holds only per rendered state.
- The card's `startTime` state (components/QuestionCard.tsx:33) is never read, and focus handling is view code. Both are left out.
- Progress percentages, SVG dash offsets and the zero-padded `mm:ss` text (components/Timer.tsx:69, 108-121, components/ProgressBar.tsx:14). These are floating point or markup.
- The question page (app/question/[id]/page.tsx) is not part of this model. That covers its checkpoint threshold (multiples of 5, or 10 s and below), the one-shot global-expiry poll, the answer upsert, completion and redirects. The success, layout and landing pages are view code.
- The browser's own `required`/`type="email"` validation of the input. Only the handler's check is modelled.
- `TimerState` (types/index.ts:36-40) is never used.
- Numbers that JavaScript would render in exponent notation (above 10^21) are rendered as plain digits here.
