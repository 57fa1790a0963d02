# Client messaging and session state of a portfolio site, in Dafny

The site's script keeps everything in the browser's key-value store. This project models that state and the code that changes it:

- **Message store.** `clientMessages` maps an email address to a thread, which is a display name and a list of message records. `approvedUsers` lists the addresses that have written. `saveClientMessage` updates both in place:
  - it creates the thread if missing;
  - it appends the visitor's record and then a templated auto-reply;
  - it adds the address to `approvedUsers` once.

  `getUserMessages` reads a thread back. The dashboard shows a copy of it sorted by id, newest first.
- **Session.** The login form validates its input and derives a display name from the email's local part. It then writes `userData` and `isLoggedIn`. Logout removes both keys. The dashboard finds the "current" email from the session, or else from `lastContactEmail`.
- **Submission flows.**
  - The contact form lowercases the email and saves locally before it posts to the relay (the hosted form service). It remembers the email only when the relay accepts.
  - The dashboard form saves under the resolved email whatever the relay answers. It saves once, except on a non-2xx response whose JSON body is `null`. In that case the else branch saves (script.js:1087); reading `result.errors` on `null` then throws (script.js:1090), and the catch block saves again (script.js:1105). The thread then gains four records instead of two.

Files and modules:

| file | module | contents |
|---|---|---|
| `outcomes.dfy` | `Outcomes` | `Option`, `Result` |
| `text.dfy` | `Text` | JavaScript `trim`, `split`/`join`, ASCII `toUpperCase`/`toLowerCase`, UTF-16 `.length` |
| `names.dfy` | `Names` | display-name derivation and its properties |
| `messagelog.dfy` | `MessageLog` | records, threads, the auto-reply, what a save does to the table and the list, as functions |
| `threadview.dfy` | `ThreadView` | the dashboard's newest-first copy of a thread |
| `session.dfy` | `Session` | login validation, current-email resolution, sender name |
| `storage.dfy` | `Storage` | class `LocalStorage`: one field per storage key |
| `messaging.dfy` | `Messaging` | `SaveClientMessage`, the in-place update |
| `handlers.dfy` | `Handlers` | login, logout, contact form, dashboard form, dashboard view |

The clock, the relay and the user's answer to the logout confirmation are parameters:
- Each record takes a `Clock`: the `Date.now()` value that becomes its id and the `toLocaleString` text that becomes its time. The source takes the two by separate calls (script.js:404 and 407 for the client record, 421 and 424 for the reply). The model leaves the two fields unrelated.
- The relay answer is either `Failed` (`fetch` threw) or a `Response` with its `ok` flag and its body. The body is one of three cases:
  - `null`;
  - an object, seen through the truthiness of `success` and the text of `errors._form`;
  - text that is not JSON, on which `response.json()` throws.

  The contact form looks only at `ok`. The dashboard form also reads the body.
- Logout takes a `confirmed` flag.

Facts about the code worth knowing:
- **Email case.** Threads are keyed by the exact string given to `saveClientMessage`. Only the contact form lower-cases the email (script.js:329). Login stores the trimmed email as typed. The dashboard uses the stored email unchanged; it is lower-cased when it comes from `lastContactEmail`, which the contact form wrote (script.js:367). `MessageLog.SaveLeavesOtherEmails` states that keys are exact strings.
- **Current email.** The live `initDashboardFeatures` (script.js:1126) finds the current email from `userData` and then `lastContactEmail` only. It reads nothing from the page address.
- **Reply id.** `saveClientMessage` reads the clock separately for the client record (script.js:404) and for the reply (script.js:421). The reply's id is therefore its own reading plus one. It equals the client id plus one only when both readings fall in the same millisecond (`MessageLog.ReplyIdAfterClientId`).

JavaScript keeps the last declaration of a function name. The model therefore follows `initDashboardFeatures` at script.js:1126 and `displayUserMessages` at script.js:943. It follows the dashboard form handler registered at script.js:1005-1119.

## Model

| member | source | states |
|---|---|---|
| `Text.Trim` | script.js:252 | the trimmed string has no whitespace at either end and is no longer than the input |
| `Text.TrimSlice` | script.js:252 | trim keeps the middle of the string after its leading whitespace; everything cut on either side is JavaScript whitespace; the result is empty exactly when the input is all whitespace |
| `Text.Split` | script.js:247-249 | split gives at least one piece; no piece contains the separator; the first piece is the text before the first separator |
| `Text.JoinSplit` | script.js:249-251 | joining the pieces of a split with the same separator gives back the original string |
| `Text.Utf16Length` | script.js:241 | `.length` counts UTF-16 code units: a single character counts two when it is above U+FFFF and one otherwise; a string counts between one and two per character, and exactly one each when no character is above U+FFFF |
| `Text.Utf16LengthAppend` | script.js:241 | the length of a concatenation is the sum of the lengths; with the single-character case this fixes `.length` of every string |
| `Text.Join` | script.js:251 | the joined string starts with the first word; it is exactly that word when there is one word; otherwise the separator follows it |
| `Text.ToUpperAscii` | script.js:250 | the result is never a lower-case letter; lower-case ASCII letters map to their upper case; every other character is kept |
| `Text.ToLowerAscii` | script.js:329 | the result is never an upper-case letter; upper-case ASCII letters map to their lower case; every other character is kept |
| `Text.LowerCase` | script.js:329 | lower-casing keeps the length and lower-cases each ASCII letter in place |
| `Text.LowerCaseKeepsAt` | script.js:329-337 | lower-casing neither adds nor removes an '@', so the contact form's '@' check is the same before and after |
| `Names.LocalPart` | script.js:247 | the local part contains no '@', is a prefix of the email, and ends at the first '@' or at the end |
| `Names.BlankSeparators` | script.js:248 | every digit, `.`, `_`, `+` and `-` becomes a space; every other character is kept |
| `Names.UpperFirst` | script.js:250 | `charAt(0).toUpperCase() + slice(1)` keeps the length, leaves the first character not lower-case, changes nothing after it, and leaves a word unchanged when it already starts that way |
| `Names.UpperFirstEach` | script.js:250 | the `.map` gives one capitalised word per word, in order |
| `Names.CapitalizeWords` | script.js:249-251 | the split-capitalise-join chain neither adds nor drops a character (`CapitalizeWordsAtWordStarts` pins down each character) |
| `Names.CapitalizeWordsAtWordStarts` | script.js:249-251 | split on spaces, upper-case each word's first character, join: exactly the characters at the start or after a space are upper-cased |
| `Names.DisplayName` | script.js:247-252 | the derived name is never empty |
| `Names.SpacedNameHasNoSeparators` | script.js:247-252 | from a local part without '@', the trimmed, blanked and capitalised text has no digit, `.`, `_`, `+`, `-` or `@` |
| `Names.DisplayNameHasNoSeparators` | script.js:247-252 | the name contains no digit, `.`, `_`, `+`, `-` or `@` |
| `Names.DisplayNameFallback` | script.js:252 | a local part made only of separators and whitespace, or an empty one, gives "User" |
| `Names.DisplayNameFromLocalPart` | script.js:247-252 | otherwise the name is the trimmed, capitalised local part: no longer than it, and built only from its characters, their upper case, and spaces |
| `Names.DisplayNameWordsCapitalized` | script.js:249-252 | no word that follows a space in the name starts with a lower-case letter |
| `Names.DisplayNameFirstCapitalized` | script.js:249-252 | the name starts with a character that is not a lower-case letter, when the local part has no whitespace other than spaces |
| `Session.ValidateLogin` | script.js:229-244 | the email is trimmed, the password is not; checks in order: empty field, then no '@', then password shorter than 6 code units; every input passing all three is accepted, with no credential check |
| `Session.AcceptedLogin` | script.js:229-252 | an accepted login has a trimmed email containing '@' and a non-empty name free of separators |
| `Session.CurrentEmail` | script.js:1131-1136 | the session's email if non-empty, else the remembered contact email if non-empty, else empty |
| `Session.SubmitEmailIsCurrentEmail` | script.js:1017-1028 | the submit handler's `userData?.email \|\| lastEmail` and its empty check resolve the same email as the dashboard view, and refuse exactly when that is empty |
| `Session.SubmitEmail` | script.js:1018-1028 | the resolved email is never empty; it is the session's email when that is non-empty, else the remembered contact email when that is non-empty, else nothing |
| `Session.SenderName` | script.js:1020 | the dashboard saves under the session's name when it is non-empty, and under "Guest" when the session or its name is missing or empty |
| `MessageLog.AutoReplyText` | script.js:423 | the auto-reply is the fixed template: "Hi ", the name, the middle text, the subject and the closing text, each at its offset, and nothing else |
| `MessageLog.ClientRecord` | script.js:403-415 | the visitor's record: from the client, unread, id and time from its clock reading, with the message text and the subject |
| `MessageLog.AutoReply` | script.js:420-432 | the reply: from the site owner, unread, id one more than its own clock reading, subject "Re: " followed by the original subject, and the template text |
| `MessageLog.UserMessages` | script.js:448-451 | reading a thread gives its stored messages, or none for an unknown email |
| `MessageLog.SaveThreads` | script.js:394-434 | after a save, the table has the email's key; other entries are unchanged; the name is kept if the thread existed and set from the argument otherwise; the messages are the old ones followed by the client record and then the auto-reply |
| `MessageLog.SaveApproved` | script.js:440-443 | after a save the email is approved; it is appended only if it was absent; no duplicates are introduced |
| `MessageLog.ReadAfterSave` | script.js:403-434 | reading right after a save shows the old messages and then the two records: the client record (`from` client, the text, the subject, unread) and the reply (`from` emmanuel, template text, "Re: " + subject, id = reading + 1, unread) |
| `MessageLog.SaveLeavesOtherEmails` | script.js:395-434 | a save under one exact string leaves the thread of every other string alone, including other spellings of the same address |
| `MessageLog.ReplyIdAfterClientId` | script.js:404-421 | with a clock that does not go back, the reply's id exceeds the client record's; with one reading it is exactly one more |
| `MessageLog.PairedAppend` | script.js:417-434 | appending a client record and its reply keeps a thread made of client/reply pairs |
| `MessageLog.SavePreservesWellFormed` | script.js:390-446 | a save keeps the table and the approved list consistent: same emails, no duplicates, threads made of pairs |
| `MessageLog.RepeatedSaves` | script.js:390-446 | N saves for one email leave its old messages followed by exactly 2N new records, still in pairs, with the name unchanged and other emails untouched |
| `ThreadView.InsertById` | script.js:970 | inserting into a newest-first list keeps it newest first and adds exactly that message |
| `ThreadView.SortByIdDesc` | script.js:970 | the sorted copy is in non-increasing id order and is a permutation of the thread |
| `ThreadView.WithIdInsert` | script.js:970 | an inserted message goes before the messages that share its id |
| `ThreadView.SortIsStable` | script.js:970 | messages with equal ids keep their stored order |
| `ThreadView.DisplayedThread` | script.js:952-970 | the displayed list is the stored thread, newest first |
| `ThreadView.SavedMessagesDisplayed` | script.js:1072-1110 | after a save both new records appear in the displayed list, and nothing stored earlier is lost from it |
| `Storage.LocalStorage.constructor` | script.js:317-322 | a fresh profile holds an empty table and list and no session keys |
| `Messaging.SaveClientMessage` | script.js:390-446 | the in-place update produces exactly `SaveThreads` and `SaveApproved` of the old values; session keys are untouched; the consistency of table and list is kept; it returns true |
| `Handlers.Login` | script.js:229-263 | on valid input it writes `userData` (trimmed email, derived name, logged in, time) and `isLoggedIn = 'true'`; on invalid input it returns the first failing check and writes nothing; the message keys are untouched |
| `Handlers.Logout` | script.js:1178-1181 | once confirmed it removes exactly `userData` and `isLoggedIn`, so it is idempotent; messages, approved users and `lastContactEmail` stay |
| `Handlers.ContactSubmit` | script.js:324-384 | trimmed fields with a lower-cased email; an empty field or a missing '@' stores nothing; otherwise one save under the default subject whatever the relay answers, and `lastContactEmail` is set only on a 2xx response |
| `Handlers.DashboardSubmit` | script.js:1009-1117 | no resolvable email, or an empty trimmed subject or message, stores nothing; otherwise the message is saved under the current email and the sender name for every relay answer; it is saved twice, adding four records, exactly on a non-2xx `null` body, and once otherwise; the alert follows `ok`, `success` and `errors._form`, and every answer that throws ends in the network alert |
| `Handlers.DashboardThread` | script.js:1126-1173 | with a logged-in session or a current email, the dashboard lists that email's thread newest first; otherwise it lists nothing |

## Left out

- Presentation: the theme toggle, the mobile menu, the modal, scroll animations, smooth scrolling, clipboard copy, status banners, `alert`/`confirm` texts, and the HTML built by `displayUserMessages` (script.js:972-999). The statuses the handlers return name the message shown.
- The relay request itself (`fetch`, `FormData`, `response.json()`). Its answer is an input.
- JSON encoding in the store. Keys hold values, not text. A missing `clientMessages` or `approvedUsers` is the same as an empty one, as the code's `|| {}` and `|| []` make it.
- A store that throws, for example when full. If `saveClientMessage` threw inside the dashboard's `try`, the `catch` would save a second time. The model assumes the store does not fail. An exception from `alert`, `form.reset()` or a missing form element after a save would also reach that `catch`; this is not modelled. The one relay answer that throws after a save, a non-2xx `null` body, is modelled.
- Object-prototype keys. An email such as `constructor` would find an inherited property in the table, but the forms only save addresses that contain '@'.
- Clock and locale. `Date.now()` and `toLocaleString` are the `Clock` parameters. `toISOString` is the `loginTime` parameter.
- Dead code: the earlier `initDashboardFeatures` (script.js:585, script.js:781), their form handlers (script.js:643, script.js:891), and the earlier `displayUserMessages` (script.js:453). Later declarations override them.
- Timers: the re-enabling of submit buttons (script.js:767-777), the redirect delays, and the scroll-to-bottom delay.
- Several tabs writing at once (last writer wins).
- `Text.ToUpperAscii`: upper-cases ASCII letters only. JavaScript's full Unicode case mapping, for example "ß" to "SS", is not modelled.
- `Text.ToLowerAscii`: lower-cases ASCII letters only, for the same reason.
- The sign-up/sign-in switch of the modal. It changes only the alert text.
