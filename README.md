# CodeLog, modelled in Dafny

CodeLog is a single-page tracker for coding practice. A user signs up and
logs in. They then save free-text daily logs and log the questions they
solved (platform, topic, question number, date). The dashboard shows three
things:
- how many questions were solved per platform;
- a growth chart of questions per day;
- a study suggestion picked from keywords in the logs.

All of this is one script, `index.js`. Every handler that changes the
store (sign-up, saving a log, logging or removing a question) loads the
`users` object from browser storage, changes it, and writes it back. Log-in
only reads the store, and the mode switch does not touch it.

The model covers the handlers' logic:
- `Records`: the stored records, as datatypes.
- `Text`: `trim`, `toLowerCase` and `includes`, at the ASCII level.
- `Order`: lexicographic string order and the sort the chart uses.
- `Auth`: the submit button (validation, log in, sign up) and the mode
  switch, as transitions on a session value.
- `Journal`: saving a log, logging a question and removing one, as
  transitions on the store.
- `Stats`: the counting loop shared by the platform list and the chart.
  It is a method with loop invariants, proved against a counting
  function.
- `Growth`: the chart's `labels` and `data`.
- `Suggest`: the keyword rule table and the first-match decision.
- `App`: the page itself, a class `CodeLog`. Its fields are the stored
  users, the signed-in user and the form's mode. Its methods update them
  in place, and each method's contract ties the new state to the matching
  transition function.

Three details of the handlers matter:
- Each keyword is looked for in each log text on its own (`logs.some(l =>
  l.includes(k))`, index.js:201). The texts are never joined, so a keyword
  split across two logs does not match (`Suggest.ExampleSplitKeyword`).
- When no keyword matches, the default message is shown whether or not
  there are logs (index.js:199). The only result that is not a keyword
  message is the default.
- A new account also gets a `suggestions` list (index.js:54). It is created
  empty and never used again.

## Model

| member | source | states |
|---|---|---|
| Records.NewAccount | index.js:54 | the record a sign-up stores: the password and display name, with empty logs, questions and suggestions |
| Auth.Filled | index.js:34 | user name and password are non-empty, and so is the display name when signing up |
| Auth.Matches | index.js:42 | the user name is stored and its password is exactly the one typed |
| Stats.Bump | index.js:153 | one step of the counting loop: a missing key starts at 1, a present one goes up by one, and no other key changes |
| Suggest.AnyContains | index.js:201 | `logs.some(l => l.includes(k))`: some text contains the keyword |
| Text.Trim | index.js:30 | the trimmed text is empty or neither starts nor ends with white space |
| Text.TrimSlice | index.js:30 | trimming cuts only white space, from the front and the back, and keeps the slice in between unchanged |
| Text.TrimEmptyIff | index.js:34 | a field counts as empty after trimming exactly when it holds only white space |
| Text.TrimIdempotent | index.js:92 | trimming an already trimmed text changes nothing |
| Text.ToLower | index.js:198 | lower-casing keeps the length and maps each character on its own, ASCII capitals to small letters |
| Text.ToLowerFixed | index.js:198 | a text without capitals is its own lower-case form |
| Text.Contains | index.js:201-207 | `includes` holds exactly when the keyword occurs as a contiguous piece at some position |
| Order.Insert | index.js:176 | inserting into a sorted list keeps it sorted, adds exactly that element, and adds no repeat of an element that was not there |
| Order.Sort | index.js:176 | `sort()` returns a sorted permutation of the same length; with distinct keys the result is strictly ascending |
| Order.SortSameElements | index.js:176 | sorting keeps exactly the same elements |
| Order.AscendingUnique | index.js:176 | two strictly ascending lists with the same elements are equal, so the sorted labels are unique |
| Order.LessEq | index.js:176 | the default comparison of `sort()` on strings: character by character, a proper prefix before its extensions |
| Order.LessEqTotal | index.js:176 | any two strings are ordered one way or the other |
| Order.LessEqTransitive | index.js:176 | the string order is transitive |
| Order.LessEqAntisymmetric | index.js:176 | two strings ordered both ways are equal |
| Order.DistinctTail | index.js:176 | dropping the head of a list without repeats leaves no repeats and no copy of the head |
| Auth.Toggle | index.js:64-65 | `toggleLogin` flips the mode and touches nothing else |
| Auth.Submit | index.js:29-60 | a missing field is reported first and changes nothing; log-in mode only logs in or fails, and succeeds exactly for a stored user with that exact password, then sets the current user; sign-up mode fails exactly for a taken name, otherwise adds one empty account, keeps every other account and returns to log-in mode |
| Auth.SignUpThenLogin | index.js:41-58 | after a sign-up, logging in with the same trimmed name succeeds with exactly that password and fails with any other non-empty one |
| Auth.RunKeepsAccounts | index.js:29-65 | whatever is done on the sign-in page, no stored account is removed or altered, and a signed-in user always names a stored account |
| Journal.SaveLog | index.js:90-95 | an empty trimmed log changes nothing; otherwise exactly one entry with the trimmed text and the date is appended to the current user's logs, and nothing else changes |
| Journal.LogQuestion | index.js:120-130 | an empty trimmed number is reported and changes nothing; otherwise exactly one question is appended to the current user's questions, and nothing else changes |
| Journal.RemoveQuestion | index.js:136-139 | `splice(index, 1)` removes exactly the question at `index` and keeps the others in order; nothing else changes |
| Journal.RemoveUndoesLog | index.js:120-139 | removing the question just logged restores the store exactly |
| Journal.RemoveQuestionStats | index.js:136-154 | after a removal, its platform's count drops by one, every other count stays, and its entry disappears exactly when it was the platform's last question |
| Journal.LogQuestionStats | index.js:120-154 | after a question is logged, its platform's count rises by one and nothing else changes |
| Stats.CountPositive | index.js:152-153 | a key is counted at least once exactly when some question has it |
| Stats.CountConcat | index.js:152-153 | counts over two runs of questions add up |
| Stats.CountsSnoc | index.js:153 | one more question bumps its own key, from missing to 1, and no other key |
| Stats.MapSumRemove | index.js:152-153 | the sum of the counts does not depend on which key is taken first |
| Stats.MapSumBump | index.js:153 | one bump raises the sum of the counts by one |
| Stats.CountsSum | index.js:152-154 | the counts add up to the number of questions |
| Stats.KeyList | index.js:153-157 | the keys in first-occurrence order list each counted key exactly once |
| Stats.TallyStep | index.js:153 | one pass of the loop bumps the next key and lists it last if it is new |
| Stats.Tally | index.js:150-154 | the loop ends with exactly one entry per occurring key, holding its number of questions and adding up to the number of questions, and with the keys in the order they were first added |
| Stats.PlatformStats | index.js:149-157 | a platform has an entry exactly when one of its questions is stored; the entry is its positive count, no platform shows zero, the entries add up to the number of questions, and they are listed in first-occurrence order |
| Stats.RemoveCounts | index.js:138-153 | removing one question lowers its own key's count by one and no other; the key keeps an entry exactly when another question still has it |
| Stats.Lookup | index.js:177 | `labels.map(l => dataMap[l])` has one value per label, the map's entry for that label |
| Stats.LookupSum | index.js:177 | looking up each key once, in any order, adds up to the sum of the map |
| Growth.GrowthSeries | index.js:171-177 | the labels are the dates with questions, strictly ascending; each data point is that date's positive count; the points add up to the number of questions |
| Growth.LabelsDetermined | index.js:176 | the labels depend only on the set of dates, not on the order in which questions were logged |
| Suggest.Lowered | index.js:198 | one lower-cased text per log, in order |
| Suggest.FirstMatch | index.js:201-208 | the chosen rule's keyword occurs in some log and no earlier rule's keyword occurs in any |
| Suggest.Suggestion | index.js:199-209 | the suggestion is the default message or one rule's message |
| Suggest.SuggestionChain | index.js:198-209 | the rule table decides exactly as the handler's `if / else if` chain over the four keywords |
| Suggest.FirstMatchWins | index.js:201-209 | the first rule whose keyword occurs decides, whatever later keywords also occur |
| Suggest.DefaultNotARule | index.js:199-208 | no rule's message is the default message |
| Suggest.DefaultIff | index.js:199-209 | the default message is shown exactly when no keyword occurs in any log |
| Suggest.NoLogsDefault | index.js:198-199 | with no logs the default message is shown |
| Suggest.AppendLogPriority | index.js:94-98 | saving one more log can only move the suggestion to the same rule or an earlier one |
| Suggest.AnyContainsSameTexts | index.js:201 | whether some log contains a keyword depends only on which texts there are |
| Suggest.SameTextsSameSuggestion | index.js:198-209 | the suggestion depends only on which lower-cased texts occur, not on their order, dates or repetitions |
| Suggest.ExampleArrayBeatsGraph | index.js:198-205 | a "graph" log followed by an "ARRAY" log gives the array suggestion |
| Suggest.ExampleSplitKeyword | index.js:198-209 | logs "d" and "p" do not make "dp": the default message is shown |
| App.CodeLog.constructor | index.js:7-19 | the page starts on the stored users, nobody signed in, in log-in mode |
| App.CodeLog.ToggleLogin | index.js:64-65 | the mode flips as `Auth.Toggle` says |
| App.CodeLog.Submit | index.js:29-60 | the handler's in-place updates and outcome are exactly `Auth.Submit`'s |
| App.CodeLog.SaveLog | index.js:90-95 | the store becomes `Journal.SaveLog` of the old store; the signed-in user and mode stay |
| App.CodeLog.LogQuestion | index.js:120-130 | the store and outcome are `Journal.LogQuestion`'s; the signed-in user and mode stay |
| App.CodeLog.RemoveQuestion | index.js:136-139 | the store becomes `Journal.RemoveQuestion` of the old store; the signed-in user and mode stay |
| App.CodeLog.PlatformStats | index.js:149-157 | the counts and list order of the signed-in user's platforms, adding up to their number of questions |
| App.CodeLog.GrowthChart | index.js:166-177 | the labels and data a fresh `initChart` draws for the signed-in user: strictly ascending labels that are exactly the dates with questions, each point that date's positive count, the points adding up to the number of questions |
| App.CodeLog.Suggestion | index.js:195-209 | the suggestion for the signed-in user's logs, which is the default exactly when no keyword occurs |

## Left out

- Drawing: the Chart.js script and chart, the platform list items, the question list (`updateQuestions`), `toggleScroll`, the welcome text and every other DOM update. Only the values these are drawn from are modelled.
- Messages shown by `alert` and `authError` become outcome values (`Auth.Outcome`, `Journal.QuestionOutcome`). A saved log has no outcome because its confirmation contains no data. The "Account created" text for `Auth.AccountCreated` is written at index.js:56 and erased at once by `toggleLogin()` (index.js:57, 70), so it is never seen; the outcome stands for the sign-up, not for a visible message.
- The chart is drawn only by `loadDashboard` (index.js:80). Logging or removing a question refreshes the question list and the platform stats (index.js:132-133, 140-141) but not the chart, so the drawn chart stays out of date until the next log-in or reload. `App.CodeLog.GrowthChart` is the series a fresh `initChart` would draw from the current store, not the chart on screen.
- Browser storage and JSON: the store is the `users` field of `App.CodeLog`. Every handler that changes the store loads it, changes it and saves it back in one step, so nothing can happen in between. The `currentUser` entry in storage is not modelled.
- `window.onload` auto-login and `logout` with its page reload are not modelled. They depend on storage and reloading, and auto-login can set a user with no stored account, which the dashboard handlers do not handle.
- The clock and the locale: the dates of a log and a question are parameters. `toLocaleDateString` output and the `YYYY-MM-DD` form are not checked.
- A missing display-name field (`authName` null) is not modelled. The field is taken to exist.
- Prototype keys of JavaScript objects (`"constructor"`, `"__proto__"`, ...) are not modelled. The store and the counting objects are maps in which every key is its own entry.
- The `|| []` fallbacks for a missing `questions` list are not modelled. Every stored account has one.
- App.CodeLog.SaveLog, App.CodeLog.LogQuestion, App.CodeLog.RemoveQuestion, App.CodeLog.PlatformStats, App.CodeLog.GrowthChart and App.CodeLog.Suggestion: each requires a signed-in user with a stored account, because the dashboard is shown only after a log in. Without one the source throws as soon as it reads `users[currentUser]`. A blank log (index.js:92-93) or a blank question number (index.js:122-123) never gets that far: nothing happens, or an alert is shown. The model does not cover calls with no account.
- App.CodeLog.RemoveQuestion: requires a valid index. The buttons only pass indices of listed questions, and an out-of-range `splice` is not modelled.
- Text.Trim: only ASCII white space and line terminators are trimmed. Unicode spaces such as no-break space are not.
- Text.ToLower: only ASCII letters are lower-cased.
- Order.Sort: orders strings character by character. JavaScript compares UTF-16 code units, which agrees for the text the forms produce.
- Stats.KeyList: JavaScript lists integer-like keys (such as `"42"`) first, in numeric order, before all other keys. This order is not modelled; neither platforms nor dates are integer-like.
