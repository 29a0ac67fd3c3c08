# Simple Discord.js Command Handler, modelled in Dafny

This project models the core of a JavaScript command handler for Discord
bots. It covers:

- the helpers of `src/utils.js` (`defaults`, `getObjVal`, `defObjVal`,
  `escapeRegExpChars`, `parseTime`);
- the prompt state machine of `src/structures/Prompt.js`;
- prompt registration in `src/structures/Call.js`;
- argument resolution in `src/structures/Arguments.js`;
- the per-command cooldown of `src/structures/Cooldown.js`;
- from `src/index.js`: the per-record normalisation of `load`, `canUse`,
  and the decision taken by the `messageCreate` handler;
- the earlier single-file version `index.js`: its `Prompt`, its
  `Call#prompt` and its message handler.

Files and modules:

| file | module | what it holds |
|---|---|---|
| `base.dfy` | `Base` | `Option`, `Result`, the JavaScript value (`Value`) with truthiness and property reads, the message, the recorded effects (sends and callbacks), lower-casing, UTF-16 length, string conversion and trimming |
| `utils.dfy` | `Utils` | `defaults`, the path rewriting, `getObjVal` and `defObjVal` as loops over a value tree, `escapeRegExpChars` with its inverse, `parseTime` as a loop proved against `TimeSum` |
| `prompt.dfy` | `Prompts` | the pure steps of `addInput` and `end` and their lemmas; the `Handler` class (registry and outbox) and the `Prompt` class with its fields |
| `call.dfy` | `Calls` | option defaults, the filter and `correct` normalisation, static and instance `prompt` |
| `arguments.dfy` | `Args` | definition defaults, the default tokenizer, `parseInt`, the types, `firstType` and `getAll` as loops |
| `cooldown.dfy` | `Cooldowns` | the `Cooldown` class and its throttle |
| `load.dfy` | `Loader` | per-record normalisation and the command table |
| `dispatch.dfy` | `Dispatch` | prefixes, splitting, command lookup, `canUse`, the gates, the decision and the handler |
| `legacy.dfy` | `Legacy` | the earlier `Prompt`, `Call#prompt` and message handler |

The environment is explicit:

- A send is an append to an outbox.
- A timer is a handle the environment fires by calling `Expire`,
  `DeleteUser` or `Release`.
- A failed trigger send is a flag.
- The prompt a definition opens is an `ask` function, which gives the reply
  or the error the prompt was rejected with.
- Guild member and user lookups are a `Lookup` oracle.

Where the library's design description and its code disagree, the model
follows the code:

- An `infinite` definition gets the single token at the cursor. Any other
  definition gets the remaining tokens joined by spaces
  (src/structures/Arguments.js:111). The description says the opposite.
- The string range filter compares the length with `<= min` and `>= max`
  (src/structures/Arguments.js:31). The description defines inclusive
  bounds.
- `canUse` and `cant` come before the guild restriction, and the guild
  restriction goes with the channel gate (src/index.js:169-180). The
  description puts the guild restriction first.
- A prompt that succeeds with a single value resolves with that value
  whatever `messages` is set to, and with more than one value it resolves
  with the collection (src/structures/Prompt.js:120).
- A refused cooldown length makes the constructor return a `TypeError`
  object rather than throw (src/structures/Cooldown.js:19-21).

Behaviour kept as written, each shown by a lemma:

- `defObjVal` descends into an object even at the last segment. So an
  `aliases` array is never lower-cased (`Loader.ArrayAliasesKept`), and a
  `Cooldown` instance survives `load` (`Loader.CooldownObjectKept`).
- The table key is the lower-cased id, but the lookup compares the
  record's own id. So a command whose id has an upper-case letter is only
  reachable through its aliases (`Dispatch.MixedCaseIdNotNamed`).
- An empty `users` list is truthy, so it refuses everyone
  (`Dispatch.EmptyUsersRefuse`).
- `parseTime` tries the units in `MS_CONFIG` order. So "mon", "month" and
  "months" read as minutes (`Utils.MonthReadsAsMinutes`,
  `Utils.ParseTimeMonths`).
- The string type accepts nothing under the default range
  (`Args.StringFilterInverted`).
- The legacy list filter does not lower-case its items
  (`Legacy.UpperItemNeverAccepts`).
- The legacy `invisible` flag is never set on a prompt, so it never holds a
  message back.
- The legacy registry keeps one prompt per user, and a new prompt replaces
  the user's earlier one in any channel.
- The cooldown's own `handle` property hides its throttle method. The model
  keeps the method as `Cooldowns.Cooldown.Notice`; the dispatcher calls the
  property (`Cooldowns.OwnHandle`).

Three findings, listed under "## Findings", are modelled twice: once as
written, with a lemma that exhibits the defect, and once corrected. The rest
of the model uses the corrected form.

## Model

| member | source | states |
|---|---|---|
| Utils.Defaults | src/utils.js:32-38 | the result has exactly the keys of the object plus the default keys; every key already present keeps its value; every absent key gets its default; when every default key is present the object comes back unchanged, so a second call changes nothing |
| Utils.WordRun | src/utils.js:42 | the leading run of `\w` characters, followed by a non-word character or the end |
| Utils.SplitOn | src/utils.js:44 | `split('.')` gives at least one piece, and no piece holds the separator |
| Utils.SplitJoin | src/utils.js:44 | joining the pieces with the separator gives the text back |
| Utils.Segments | src/utils.js:42-44 | a rewritten path always has at least one segment |
| Utils.NoBracketsUnchanged | src/utils.js:42 | a path without `[` is untouched by the bracket rewrite |
| Utils.SplitWithoutSeparator | src/utils.js:44 | a text without the separator splits into itself alone |
| Utils.PlainPathSegments | src/utils.js:42-44 | a key with neither `[` nor `.` is its own single segment |
| Utils.BracketAtFront | src/utils.js:42 | `[k]` for a word `k` is rewritten to `.k` |
| Utils.GetObjVal | src/utils.js:61-74 | the loop returns what walking the segments gives: an error on a property read of undefined or null, undefined at the first missing segment, else the value at the path |
| Utils.Walk | src/utils.js:61-74 | (definition) the segments are followed while they exist, a missing one gives undefined and a value without properties throws; stated in `Utils.WalkExisting` and `Utils.WalkMissing` |
| Utils.WalkExisting | src/utils.js:66-73 | when every segment exists, the walk returns the value at the full path |
| Utils.WalkMissing | src/utils.js:69-70 | once a segment is missing from an object, the walk returns undefined, whatever follows |
| Utils.Descend | src/utils.js:46-48 | the trail it returns exists in the object and, when non-empty, ends at an object or array; a non-empty path is only walked from something with properties |
| Utils.DescendLoop | src/utils.js:46-48 | the loop of `defObjVal` reaches the holder at the end of the trail `Descend` gives, or fails with its error |
| Utils.DefObjVal | src/utils.js:41-53 | the method computes `DefObj`: `val(old)` stored at the last segment of the deepest object reached, and returned |
| Utils.DefObj | src/utils.js:41-53 | (definition) `val(old)` is stored under the last segment of the deepest holder reached; stated in `Utils.DefObjReadBack`, `Utils.DefObjObjectLeaf` and `Utils.DefObjPlainLeaf` |
| Utils.PutAtReads | src/utils.js:50 | after the write, the value at the trail plus the last key is the stored value |
| Utils.DefObjReadBack | src/utils.js:50-52 | the returned value is `val` of the holder's old value, and reading the path back gives it |
| Utils.DefObjObjectLeaf | src/utils.js:46-52 | when the last segment holds an object or array, `defObjVal` enters it and writes inside it, leaving the original value in place |
| Utils.DefObjPlainLeaf | src/utils.js:46-52 | when the last segment holds no object, `val(old)` replaces it at that key |
| Utils.UnescapeEscape | src/utils.js:56-58 | removing the inserted backslashes gives the text back |
| Utils.EscapeLength | src/utils.js:56-58 | the escaped text is longer by exactly one character per special character |
| Utils.EscapePlain | src/utils.js:56-58 | a text without special characters is unchanged |
| Utils.EscapeRegExpChars | src/utils.js:56-58 | (definition) one backslash before each special character; its inverse is `Utils.UnescapeEscape` |
| Utils.FirstUnit | src/utils.js:1-29 | the unit found is non-empty and starts the text |
| Utils.FirstKeyFromIsFirst | src/utils.js:79 | the alternation of the keys in order matches the first key the text starts with, and matches nothing exactly when no key starts it |
| Utils.ShadowedKeys | src/utils.js:79 | for every text, the first of all 27 MS_CONFIG keys (in declaration order) that starts it is the unit `FirstUnit` picks, and none starts it exactly when `FirstUnit` finds none |
| Utils.MonthReadsAsMinutes | src/utils.js:9-25 | "mon…" is read as the unit `m` of 60000 ms, while "ms…" is read as `ms` |
| Utils.DigitRun | src/utils.js:79 | the leading run of decimal digits |
| Utils.Scan | src/utils.js:79 | each scanning step consumes at least one character and stays within the text |
| Utils.ParseTime | src/utils.js:76-82 | the result is null exactly when the sum of count × unit over the matches is 0, and otherwise that sum |
| Utils.TimeSum | src/utils.js:76-82 | (definition) the sum of count × unit over the matches; stated in `Utils.ScanMatch`, `Utils.ScanSkip` and the examples |
| Utils.ScanMatch | src/utils.js:79 | at digits followed by a unit, the sum is count × unit plus the sum of what follows the unit |
| Utils.ScanSkip | src/utils.js:79 | at a position with no digits, or digits with no unit after them, the scan moves one character on |
| Utils.DigitsThenUnit | src/utils.js:79 | digits followed by a unit add count × unit, and the scan resumes after the unit |
| Utils.DigitsWithoutUnit | src/utils.js:79 | digits followed by no unit add nothing |
| Utils.NoDigitsNoTime | src/utils.js:79-81 | a text without digits sums to 0, so `parseTime` gives null |
| Utils.ParseTimeMinutes | src/utils.js:76-82 | "5m" sums to 300000 |
| Utils.ParseTimeHoursAndMinutes | src/utils.js:76-82 | "1h30m" sums to 5400000 |
| Utils.ParseTimeNothing | src/utils.js:81 | "5", "abc" and "0s" all sum to 0, so `parseTime` gives null |
| Utils.ParseTimeMonths | src/utils.js:23-25 | "2mon" sums to 120000 (two minutes), not two months |
| Prompts.FindId | src/structures/Prompt.js:76-81 | the position of the message stored under an id, or none when no entry has that id |
| Prompts.StoreById | src/structures/Prompt.js:76-81 | `values.set(id, m)` keeps one entry per id and holds `m` afterwards; it grows only for a new id and keeps every other entry |
| Prompts.EndActsOnce | src/structures/Prompt.js:101-106 | `end` on an ended prompt changes nothing and sends nothing; on a live one it ends the prompt, keeps attempts and values, and settles; a later `end` is a no-op |
| Prompts.SettleCases | src/structures/Prompt.js:109-120 | a non-success reason rejects with 'Prompt ended: ' plus the reason; success resolves with the collection when it holds more than one value, else with the first, possibly absent, value; with `autoRespond`, time and cancel send 'Cancelled prompt.' and attempts sends 'Too many attempts.'; without it nothing is sent |
| Prompts.Settle | src/structures/Prompt.js:109-120 | `end` always settles the promise, and rejects it exactly for a reason other than success |
| Prompts.EndStep | src/structures/Prompt.js:101-106 | after `end` the prompt is ended with its attempts and values kept; on an ended prompt it changes nothing and sends nothing |
| Prompts.AddInputStep | src/structures/Prompt.js:61-94 | an ended prompt ignores the input; a live one counts the attempt, and its values are either kept or gain this message by id |
| Prompts.AddInputAfterEnd | src/structures/Prompt.js:62-63 | `addInput` on an ended prompt changes nothing and sends nothing |
| Prompts.AddInputCountsAttempt | src/structures/Prompt.js:65 | on a live prompt every call raises `attempts` by exactly one, and the values change only by storing the message |
| Prompts.AddInputCancel | src/structures/Prompt.js:68-69 | a cancellable prompt receiving "cancel" in any case ends rejected with 'Prompt ended: cancelled', with its values kept, before the filter is consulted |
| Prompts.AddInputAccepted | src/structures/Prompt.js:72-93 | filter-passing input without a `matchUntil` hit is stored; the prompt then succeeds exactly when it holds enough values, and otherwise ends with 'attempts' exactly when a positive limit is reached |
| Prompts.AddInputMatchUntil | src/structures/Prompt.js:74-79 | a `matchUntil` hit ends the prompt with success and sends nothing, and the message is stored only with `addLastMatch` |
| Prompts.AddInputRejected | src/structures/Prompt.js:83-89 | filter-failing input leaves the values unchanged, and the sends of `correct` come first |
| Prompts.LiveAfterInput | src/structures/Prompt.js:88-93 | a prompt still live after a call holds fewer values than required and, under a positive limit, has attempts left |
| Prompts.StepsKeepCoherent | src/structures/Prompt.js:61-121 | both calls keep the invariant: ended exactly when settled, with one value per message id |
| Prompts.RunKeepsCoherent | src/structures/Prompt.js:61-121 | any sequence of inputs and `end` calls keeps the invariant, and `ended` never returns to false |
| Prompts.SettledStays | src/structures/Prompt.js:101-120 | once the promise is settled, no later event changes the state or sends anything |
| Prompts.EndedStays | src/structures/Prompt.js:62-63 | an ended prompt ignores every later input and `end`: the state stays and nothing is sent |
| Prompts.SettledOnce | src/structures/Prompt.js:101-120 | the outcome after a whole run is the one reached at the first event that settled it |
| Prompts.WithoutUser | src/structures/Prompt.js:106 | removal by user id keeps exactly the registered prompts of other users |
| Prompts.WithoutUserUnique | src/structures/Prompt.js:106 | removal keeps at most one prompt per (user, channel) |
| Prompts.WithoutUserDropsOtherChannels | src/structures/Prompt.js:106 | removal by user id also drops the user's prompts in other channels |
| Prompts.FoundIsUnique | src/index.js:136 | under unique keys, a registered prompt is the one found for its user and channel |
| Prompts.RemovalKeepsValid | src/structures/Prompt.js:106 | removal from a valid registry leaves it unique and with only live prompts |
| Prompts.Handler.constructor | src/index.js:220 | the registry starts empty |
| Prompts.Handler.Find | src/index.js:136 | the registered prompt of a user in a channel, or none when no registered prompt has both |
| Prompts.Handler.Add | src/structures/Call.js:74 | the prompt is appended to the registry; uniqueness and liveness are kept |
| Prompts.Prompt.constructor | src/structures/Prompt.js:37-54 | a new prompt is live with no attempts, no values and a pending promise |
| Prompts.Prompt.End | src/structures/Prompt.js:101-121 | the new state and the sends are those of `EndStep`; a live prompt leaves the registry, removed by user id; the registry invariant is kept |
| Prompts.Prompt.Expire | src/structures/Prompt.js:52-53 | the timer firing is `end('time')` |
| Prompts.Prompt.AddInput | src/structures/Prompt.js:61-94 | the new state and the sends are those of `AddInputStep`; the prompt leaves the registry exactly when the call ended it; the registry invariant is kept |
| Prompts.Prompt.Handle | src/structures/Prompt.js:67-93 | after the attempt is counted: a cancel ends the prompt, filter-passing input is accepted and anything else is corrected, as `Counted` says |
| Prompts.Prompt.Accept | src/structures/Prompt.js:72-93 | filter-passing input is stored unless it meets `matchUntil` without `addLastMatch`; a `matchUntil` hit succeeds, anything else goes to the limit checks |
| Prompts.Prompt.Reject | src/structures/Prompt.js:83-93 | filter-failing input sends what `correct` sends, then the limit checks run |
| Prompts.Prompt.Conclude | src/structures/Prompt.js:87-93 | enough values end with success before the attempts limit is looked at, as `AfterInput` says |
| Prompts.EndAsWrittenStrands | src/structures/Prompt.js:105-106 | `end` as written throws when it calls `delete` on the registry array: the prompt is ended, but its promise stays pending under every later event, and the registry is unchanged, so the handler still finds the ended prompt for its user and channel |
| Calls.Fill | src/index.js:226-237 | absent options take the defaults (time 180000, messages 1, attempts 10, cancellable, autoRespond, no addLastMatch, the accept-all filter, the no-op `correct`, identity formatters); every supplied option, `formatCorrect` and `formatTrigger` included, is kept |
| Calls.FillIdempotent | src/structures/Call.js:35 | filling never overwrites a supplied key, so filling again changes nothing |
| Calls.DefaultsAcceptAll | src/index.js:227-230 | with no filter every message passes; with no `correct` a rejected message is answered by sending `undefined` |
| Calls.FilterOf | src/structures/Call.js:37-47 | a function filter is kept as is |
| Calls.FilterCases | src/structures/Call.js:40-47 | a pattern tests the content; a list accepts content equal to an item ignoring case; a number n accepts non-empty content of at most n UTF-16 code units; a function is called |
| Calls.ListFilterIgnoresCase | src/structures/Call.js:42-43 | two contents that agree once lower-cased get the same answer from a list filter |
| Calls.ListFilterAccents | src/structures/Call.js:42-43 | case is ignored beyond ASCII: "ÉTÉ" matches the item "Été" |
| Base.GreekTonosLowers | src/structures/Call.js:43 | `toLowerCase` lowers the accented Greek capitals to their accented small letters: "ΆΈ" becomes "άέ" and "Ώ" becomes "ώ" |
| Calls.MaxLengthCountsCodeUnits | src/structures/Call.js:44-45 | the limit counts UTF-16 code units: an emoji outside the Basic Multilingual Plane fails a limit of 1 and passes a limit of 2 |
| Calls.CorrectOf | src/structures/Call.js:54-59 | the installed `correct` makes exactly one send, to the channel of the rejected message |
| Calls.CorrectTextConstant | src/structures/Call.js:56-57 | a text `correct` sends the same formatted text whatever the message |
| Calls.Normalise | src/structures/Call.js:37-59 | the prompt runs the filled numbers and flags, the normalised filter and the normalised `correct` |
| Calls.Register | src/structures/Call.js:23-75 | a missing channel fails with 'Invalid channel provided.' and changes nothing; a running prompt of the user in the channel gets a notice, the call fails with 'Prompt ended: User already has a current prompt in this channel' and the registry is unchanged; otherwise the trigger goes out first; a failed send ends the new prompt through `end` with 'trigger message failed to send', which removes the user's prompts by id, and a successful one appends it; the registry invariant is kept |
| Calls.TriggerFailureRejects | src/structures/Call.js:61-72 | a failed trigger rejects the promise with 'Prompt ended: trigger message failed to send' and sends nothing more |
| Calls.CallPrompt | src/structures/Call.js:100-102 | `Register` with the invoking author as the user and `options.channel`, or else the invoking channel, as the channel: a second prompt of that user in that channel is refused with its notice; otherwise a fresh prompt with the filled options is registered, and a failed trigger ends it and drops the user's prompts from the registry; otherwise it is appended, and the trigger, when there is one, is sent first |
| Args.WithDefaults | src/structures/Arguments.js:71-76 | type 'string', infinite false and the range bounds −∞ and +∞ are filled in only where absent; every supplied key is kept |
| Args.DefaultsIdempotent | src/structures/Arguments.js:71-76 | filling a filled definition gives it back |
| Args.DefaultsAll | src/structures/Arguments.js:71-76 | every definition gets its defaults, in order |
| Args.NewArguments | src/structures/Arguments.js:69-76 | the default splitter is used unless one is given, and every definition is filled |
| Args.BareRun | src/structures/Arguments.js:70 | the leading run of characters that are neither white space nor quotes |
| Args.IndexOf | src/structures/Arguments.js:70 | the position of the first closing quote, or none |
| Args.Tokens | src/structures/Arguments.js:70 | every token of the default splitter is a bare word or a quoted text |
| Args.TokensSkipSpace | src/structures/Arguments.js:70 | white space is skipped, and a bare word before white space or the end is one token |
| Args.TokensQuoted | src/structures/Arguments.js:70 | a quote closed later gives the quoted text, quotes included, as one token, and splitting resumes after the closing quote |
| Args.TokensUnclosed | src/structures/Arguments.js:70 | a quote never closed matches no alternative: only that character is skipped, and the text after it splits as it would alone |
| Args.EntryCandidate | src/structures/Arguments.js:86-94 | a string entry is the table's type exactly when it names one, and otherwise throws that `parse` is not a function; an array entry is looked up by its comma-joined key and stays a literal list exactly when the table lacks that key |
| Args.EntryCandidates | src/structures/Arguments.js:86 | each entry of an array type is looked up in the type table, in order |
| Args.Candidates | src/structures/Arguments.js:81-86 | a single name gives one candidate, a runnable one exactly when it is a type name; a name inherited from `Object.prototype` throws that `parse` is not a function; no name that passes `validType` reads `type` before it is initialised; an array gives one candidate per entry |
| Args.ValidType | src/structures/Arguments.js:81-83 | (definition) a name the table holds, its own or inherited, or an array whose every entry is a string or an array |
| Args.ValidTypeMeans | src/structures/Arguments.js:81-86 | a name is valid exactly when the table lookup finds it, so a valid type never reads `type` before initialisation; an invalid array holds an entry that is neither a string nor an array |
| Args.SingletonListIsName | src/structures/Arguments.js:86 | an array entry holding one name behaves as that name when the table has it (a type, or an inherited member that throws), and is a literal list otherwise |
| Args.TypeKeyExamples | src/structures/Arguments.js:81-86 | `[['time']]` declares the time type, `[['a', 'b']]` the literal list, and `'constructor'` passes `validType` and then throws |
| Args.ParseUnsigned | src/structures/Arguments.js:34 | a number is read only from decimal digits or after a hexadecimal prefix |
| Args.ParseInt | src/structures/Arguments.js:34 | (definition) leading white space and one sign are skipped and the leading digits read; stated in `Args.ParseIntLeadingDigits` and `Args.ParseIntNoDigits` |
| Args.ParseIntLeadingDigits | src/structures/Arguments.js:34 | `parseInt` reads the leading decimal digits and ignores what follows |
| Args.ParseIntNoDigits | src/structures/Arguments.js:34 | text that starts with neither white space, a sign nor a digit reads as NaN |
| Args.ParseIntExamples | src/structures/Arguments.js:34 | "5m" reads as 5 and "abc" as NaN |
| Args.FirstTypeIsFirst | src/structures/Arguments.js:85-99 | the result is the first declared type whose parse is truthy and passes its filter with the range; every earlier one fails; no result means none passes; an unusable entry reached first throws |
| Args.FirstTypeOf | src/structures/Arguments.js:85-100 | (definition) the candidates are tried in order; the first whose parse is truthy and accepted is returned, a broken one throws, and none gives undefined; its properties are in `Args.FirstTypeIsFirst` |
| Args.LiteralMatches | src/structures/Arguments.js:90-91 | a literal list parses to the candidate and accepts it exactly when the list holds the lower-cased candidate |
| Args.NumbersNeedTruthyValue | src/structures/Arguments.js:33-40 | number and time accept a value exactly when it is a non-zero number within the range, so 0 never passes; number uses `parseInt` and time uses `parseTime` |
| Args.StringFilterInverted | src/structures/Arguments.js:31 | the string filter passes only when max ≤ length ≤ min, the length counted in UTF-16 code units, so it rejects every candidate under the default range or any range with min < max |
| Args.ParseWith | src/structures/Arguments.js:28-40 | running a type gives its parse; time gives null exactly when `parseTime` does |
| Args.Parse | src/structures/Arguments.js:28-40 | (definition) string and literal keep the text, number is `parseInt`, time is `parseTime` with null for a zero sum, and member and user go to the lookup; stated in `Args.ParseWith` |
| Args.FirstType | src/structures/Arguments.js:85-99 | the loop returns the first matching type as `FirstTypeOf` defines it |
| Args.GetAll | src/structures/Arguments.js:102-146 | the loop computes what `GetAllFrom` defines, from the first definition with the cursor at 0 |
| Args.GetAllFrom | src/structures/Arguments.js:102-146 | (definition) the loop from a given definition and cursor, stopping at an error or after an infinite definition; stated in `Args.GetAllKeys` and `Args.InfiniteEnds` |
| Args.Resolve | src/structures/Arguments.js:108-138 | one pass of the loop body computes `ResolveOne` |
| Args.ResolveOne | src/structures/Arguments.js:108-138 | (definition) one pass of the loop body: the type check, the token value, then the default or the prompt; stated in `Args.InvalidTypeAborts`, `Args.CursorMoves`, `Args.Fallback`, `Args.PromptedReplyParses` and `Args.InvalidPromptAborts` |
| Args.InvalidTypeAborts | src/structures/Arguments.js:108-109 | a type `validType` refuses aborts with a TypeError naming position + 1 and the command id |
| Args.CursorMoves | src/structures/Arguments.js:114-138 | the cursor moves exactly when the candidate itself gave the value, which is then the matching type's parse; a default or a prompt reply does not move it, and a present default is taken |
| Args.InvalidPromptAborts | src/structures/Arguments.js:121-126 | when the token gives no truthy value (none, or none any declared type parses and accepts), there is no default and the prompt is not a string, the call aborts with a TypeError naming the position itself |
| Args.Fallback | src/structures/Arguments.js:121-131 | when the token gives no truthy value: a default is taken without moving the cursor; otherwise a string prompt is asked, a failed prompt aborts with its error, and a reply is parsed by the first declared type that matches it; for a reply the prompt's filter would not store, it says what the model gives (the broken type's error, or the undefined-`parse` error) |
| Args.PromptedReplyParses | src/structures/Arguments.js:128-131 | with no default and a string prompt, when the prompt stores only a reply that some declared type matches (its filter is `firstType`): a failed prompt aborts with its error, and a stored reply is parsed by the first declared type that matches it, every earlier one failing, without moving the cursor |
| Args.InfiniteEnds | src/structures/Arguments.js:141-142 | assigning an infinite definition ends the loop, and no later definition is looked at |
| Args.GetAllKeys | src/structures/Arguments.js:139 | the result holds every key already assigned, and otherwise only keys of the definitions reached |
| Args.CandidateTextCases | src/structures/Arguments.js:111 | an infinite definition gets the single token at the cursor; any other gets the remaining tokens joined by single spaces |
| Cooldowns.LengthBounds | src/structures/Cooldown.js:19 | 99 is refused and 100 accepted; 2147483647 is accepted; one more is refused exactly when there is neither a getter nor a custom timer |
| Cooldowns.LengthRejected | src/structures/Cooldown.js:19 | (definition) a length under 100, or above 2147483647 with no getter and no custom timer; its boundaries are in `Cooldowns.LengthBounds` |
| Cooldowns.IndexOf | src/structures/Cooldown.js:40 | `indexOf` gives the first position of the channel, or none when it is absent |
| Cooldowns.Released | src/structures/Cooldown.js:40-43 | the cleanup removes one entry when the channel is present, and none otherwise |
| Cooldowns.ThrottleKeepsDistinct | src/structures/Cooldown.js:33-50 | no channel is listed twice; with a truthy `handle` the channel is listed afterwards, and the list changes exactly when the handle is truthy and the channel was not listed; something is sent or called exactly when, in addition, the handle is a text or a function; a second call in the same channel is silent |
| Cooldowns.Throttle | src/structures/Cooldown.js:33-50 | (definition) nothing for a falsy notifier or a listed channel, else the channel is listed and told through a text or a function; stated in `Cooldowns.ThrottleKeepsDistinct` |
| Cooldowns.ThrottleOddNotifiers | src/structures/Cooldown.js:34-50 | an empty-text handle is falsy and lists nothing; another truthy handle that is neither text nor function lists the channel and tells nobody |
| Cooldowns.ReleaseRemovesOnly | src/structures/Cooldown.js:39-44 | the cleanup removes exactly that channel and keeps every other one |
| Cooldowns.ThrottleThenRelease | src/structures/Cooldown.js:33-44 | telling a new channel and then releasing it gives the list back |
| Cooldowns.OwnHandle | src/structures/Cooldown.js:10 | `handle(message)` runs the own property: a function is called, and any other value makes the call throw |
| Cooldowns.OwnHandleBypassesThrottle | src/structures/Cooldown.js:33-35 | in a channel already listed the throttle is silent, while the own property still calls the function |
| Cooldowns.Cooldown.constructor | src/structures/Cooldown.js:2-24 | caches start empty, then `loadCache` runs; the notified list has no repeats |
| Cooldowns.Cooldown.LoadCache | src/structures/Cooldown.js:26-31 | the store's contents replace the cache only when there is a getter; nothing else changes |
| Cooldowns.Cooldown.AddUser | src/structures/Cooldown.js:56-66 | an id already cooling down has its timer cleared and the store updated; a new id is set in the store; either way the cache holds the new timer for that id and `onCooldown(id)` holds |
| Cooldowns.Cooldown.DeleteUser | src/structures/Cooldown.js:68-72 | only that id leaves the cache, the store is told, `onCooldown(id)` is false and every other id's state is kept |
| Cooldowns.Cooldown.Notice | src/structures/Cooldown.js:33-50 | the throttle: nothing for a falsy handle or for a listed channel; otherwise the channel is listed, a cleanup timer is armed under the next handle, which then advances, and the text is sent or the function called; no channel is listed twice |
| Cooldowns.Cooldown.Release | src/structures/Cooldown.js:39-44 | the cleanup timer removes only that channel, and only when it is present |
| Cooldowns.NewCooldown | src/structures/Cooldown.js:19-23 | the TypeError is returned exactly when the length is under 100, or over 2147483647 with neither a getter nor a custom timer; otherwise the cooldown is built and its cache loaded |
| Loader.FillProps | src/index.js:106-113 | each of the six locations is the supplied one when given, and otherwise the property of its own name |
| Loader.OrUndefined | src/index.js:28-29 | `v \|\| undefined`: a truthy value is kept and a falsy one becomes undefined |
| Loader.LowerStrings | src/index.js:39-40 | every string item appears lower-cased, every result is the lower-cased form of a string item, and each result is lower case |
| Loader.NormaliseAliases | src/index.js:38-41 | the aliases become an array of lower-case strings: every string alias appears lower-cased, and every item comes from a string alias; a non-array gives an empty one |
| Loader.NormaliseChannels | src/index.js:42-43 | 'ANY', 'DM' and 'GUILD_TEXT' are kept, and anything else becomes 'ANY' |
| Loader.NormaliseRules | src/index.js:44-45 | an object other than null is kept, and anything else becomes `{}` |
| Loader.IsCooldown | src/index.js:46-47 | the cooldown becomes a boolean, true exactly for a `Cooldown` instance |
| Loader.NormaliseRecord | src/index.js:26-49 | the body of the `try` computes `Normalised`: id and exec checked, category set, the four properties normalised, and the lower-cased id as key |
| Loader.Normalised | src/index.js:26-49 | (definition) the id and exec reads, the TypeError for wrong values, the category and the four normalised properties; stated in `Loader.MissingIdRefused`, `Loader.FinishPlain` and `Loader.PlainRecord` |
| Loader.KeyIndex | src/index.js:49 | the position of a key in the table, or none |
| Loader.SetEntry | src/index.js:49 | `set` grows the table only for a new key |
| Loader.SetEntryKeeps | src/index.js:49 | `set` keeps the keys distinct, maps the key to the record, keeps every other entry in place, and keeps every old position's key |
| Loader.LoadFile | src/index.js:21-52 | one file: a name not ending in `.js` is passed over, a failing record is skipped with a warning naming the file, and any other is set |
| Loader.Load | src/index.js:20-54 | the loop gives the table and warnings of `LoadFrom`, the files taken in order |
| Loader.LoadFrom | src/index.js:20-54 | (definition) the files in order, each giving its entry or its warning; stated in `Loader.LoadKeepsDistinct` |
| Loader.LoadKeepsDistinct | src/index.js:20-54 | loading keeps one entry per key, never shrinks the table, and every old position keeps its key, so an entry is only replaced by a record of the same key |
| Loader.DefaultPropsPlain | src/index.js:106-113 | the default locations are six distinct single keys |
| Loader.AbsentKey | src/utils.js:46-52 | `defObjVal` on a plain key the record lacks adds `val(undefined)` |
| Loader.PlainValueKey | src/utils.js:46-52 | `defObjVal` on a plain key holding a non-object stores `val(value)` |
| Loader.MissingIdRefused | src/index.js:28-33 | a record without an id is refused with the TypeError naming both locations |
| Loader.FinishPlain | src/index.js:38-47 | a record with none of the four properties gains empty aliases, the channels 'ANY', empty rules and a false cooldown |
| Loader.PlainRecord | src/index.js:26-49 | a plain record with a string id and a function exec is stored under the lower-cased id, with those four properties added |
| Loader.ArrayAliasesKept | src/index.js:38-41 | aliases given as an array are not normalised: the record keeps the original items, and an `aliases` property is written inside the array |
| Loader.CooldownObjectKept | src/index.js:46-47 | a cooldown object, a `Cooldown` instance included, is left in place, and `false` is written inside it |
| Dispatch.StringItems | src/index.js:142 | the string items of an array, and nothing else |
| Dispatch.PrefixStrings | src/index.js:142 | an array keeps its strings, a string is a list of one, and anything else gives no prefix |
| Dispatch.EscapeAll | src/index.js:142 | each prefix is escaped, in order |
| Dispatch.Pattern | src/index.js:142-150 | (definition) the escaped prefixes, then the two mention forms when `defaultPrefix` is set; stated in `Dispatch.LiteralsArePrefixes` |
| Dispatch.LiteralsArePrefixes | src/index.js:142-148 | the alternatives match the string prefixes in order, followed by '<@id>' and '<@!id>' with `defaultPrefix`; no prefix leaves no alternative |
| Dispatch.FirstStarting | src/index.js:150 | the first alternative from a given index that starts the text, every earlier one not starting it |
| Dispatch.SearchFrom | src/index.js:150 | (as written) what the unanchored alternation finds from a position on is one of the alternatives, no longer than the content |
| Dispatch.PrefixMatch | src/index.js:150-155 | the prefix used is an alternative that starts the content; none is used when none starts it |
| Dispatch.PrefixMatchAsWritten | src/index.js:150 | whatever the regex as written finds is one of the alternatives, and no longer than the content |
| Dispatch.AsWrittenAgreesAtStart | src/index.js:150-155 | where some alternative starts the content, the regex as written finds the same prefix as the anchored match |
| Dispatch.MentionInsideMatches | src/index.js:150 | text that no prefix starts, followed by a mention, has no anchored prefix, yet the regex as written matches the mention |
| Dispatch.MentionInsideExample | src/index.js:150-156 | with prefix '!', a message of filler, 'ping ' and the mention has no prefix, yet the regex as written matches the mention and the cut is 'ping' plus the mention (for bot id '1': 'aaaaping <@1>') |
| Dispatch.WordLength | src/index.js:157 | the leading run of non-space characters, followed by a space or the end |
| Dispatch.SplitWs | src/index.js:157 | `split(/\s+/g)` gives at least one piece; the first starts the text, and no piece holds white space |
| Dispatch.SplitJoinWords | src/index.js:157 | splitting undoes a single-space join of non-empty words |
| Dispatch.Prop | src/index.js:56-60 | a property read throws exactly on undefined and null, and reads an object's property |
| Dispatch.Includes | src/index.js:164 | `includes` is membership in an array, a substring test on a string, and on anything else the TypeError V8 gives, naming the expression it was called on |
| Dispatch.FindCommand | src/index.js:163-167 | the command found is the first in table order whose id equals the alias or whose aliases include it; none when no entry matches; an error thrown by the test of an entry reached first ends the search |
| Dispatch.FindFrom | src/index.js:163-164 | the same search from a given entry on |
| Dispatch.MixedCaseIdNotNamed | src/index.js:163 | a command whose id is not lower case is named by a lower-case alias only through its aliases |
| Dispatch.SomeRole | src/index.js:59 | the member holds a listed role; a member without roles holds none |
| Dispatch.CanUse | src/index.js:56-60 | rules naming neither users nor roles allow everyone |
| Dispatch.CanUseLists | src/index.js:56-60 | with id lists, the rule holds exactly when the author is listed or the author's member holds a listed role |
| Dispatch.EmptyUsersRefuse | src/index.js:57-58 | an empty user list with no roles refuses everyone |
| Dispatch.Cant | src/index.js:172 | a refusal makes one effect: a function `cant` is called with the message, and a text is sent to the channel |
| Dispatch.AnyBlockedAsWritten | src/index.js:178 | as written, the default channels 'ANY' block every message, since no channel has that type |
| Dispatch.BlockedAgrees | src/index.js:176-180 | the corrected gate differs from the written one only on 'ANY', which passes every message from an admitted guild; 'TEXT' asks for a text channel |
| Dispatch.BlockedAsWritten | src/index.js:178 | (definition, as written) outside the restricted guilds, or 'TEXT' with a non-text channel, or any other value unequal to the channel type |
| Dispatch.Blocked | src/index.js:176-180 | (definition, corrected) as written, except that 'ANY' admits every channel; stated in `Dispatch.BlockedAgrees` |
| Dispatch.NotifierOf | src/structures/Cooldown.js:34-50 | the `handle` value's notifier is truthy exactly when the value is, and a function exactly when the value is one |
| Dispatch.CooldownGate | src/index.js:182-183 | a falsy cooldown lets the message through; any other value that is not a `Cooldown` (such as the `true` that `load` may write) throws; for a `Cooldown`, a cache without properties makes `in` throw, an author not in the cache passes, and a cooled-down author gets the `handle` function called, or a throw when `handle` is not a function |
| Dispatch.Parsed | src/index.js:150-160 | (corrected) the prefix used starts the content and is an alternative; the cut is the trimmed rest; the tokens are its split, with a non-empty first token |
| Dispatch.Gates | src/index.js:169-183 | (corrected) the rules, the channel and the cooldown gates never send a message to a prompt and never run the command |
| Dispatch.GatesCases | src/index.js:169-183 | a refusal exactly when the rules say no and `cant` succeeds, carrying what `cant` does; silence exactly when the rules allow and the channel or guild gate blocks; a cooldown notice exactly when the rules and the channel pass and the author is cooling down; passage exactly when every gate passes |
| Dispatch.Route | src/index.js:162-186 | (corrected) a lookup error fails the message and a miss ignores it; for a found command the message runs exactly when every gate passes, and otherwise gets what the gates decided; a run carries the found command, the prefix, the lower-cased first token and the other tokens, and cuts off exactly the first token: the lowered alias has its UTF-16 length |
| Dispatch.DecideSteps | src/index.js:133-186 | (corrected) without a prefix match nothing happens; a run is the command the lower-cased first token finds, with every gate passed and the text after the token as its cut; a refusal or a cooldown comes from the gates of that same command |
| Dispatch.Decide | src/index.js:133-186 | (corrected) a bot's message is ignored unless bots are allowed; any other message goes to a prompt exactly when the author has one in the channel; with no prefix configured, a message not for a prompt is ignored; a run has a prefix that starts the content, a non-empty lower-case alias and a command of the table |
| Dispatch.CantBeforeChannels | src/index.js:169-174 | a refusal by the rules comes before the channel gate |
| Dispatch.ShiftedCut | src/index.js:185-186 | once the alias is shifted off, the trimmed rest is the join of the other tokens |
| Dispatch.PrefixedWords | src/index.js:150-162 | a message made of a prefix and words split by single spaces uses that prefix and has those words as tokens |
| Dispatch.BanExample | src/index.js:155-186 | '!ban @u spamming' has the alias 'ban', and the command sees the cut '@u spamming' and the arguments '@u' and 'spamming' |
| Dispatch.CallArgsOf | src/index.js:191 | a command whose own `arguments` is falsy gets the tokens; an `Arguments` instance gets what its `getAll` resolves, or its error; any other truthy value throws |
| Dispatch.IdText | src/structures/Arguments.js:109 | the errors name the record's own `id` property, "undefined" when there is none and the text itself when it is a string |
| Dispatch.IdTextConverts | src/structures/Arguments.js:109 | a number or array id is converted as a template literal converts it: 7 gives "7", -7 gives "-7", ['a', null, 'b'] gives "a,,b" |
| Dispatch.CustomIdLocationReportsUndefined | src/structures/Arguments.js:109 | with the id configured at `name`, a record is found under its name while the errors report "undefined" |
| Dispatch.Act | src/index.js:170-198 | a refusal or cooldown sends its effects, a run runs the command as `Execute` says, and anything else sends nothing; the prompts are untouched |
| Dispatch.Execute | src/index.js:188-198 | an argument error, or an exec that is not a function, calls `onError` only; otherwise exec is called, followed by `onError` when it throws |
| Dispatch.RunCommand | src/index.js:188-198 | the arguments and the sends are those of `Execute`, and the prompts are untouched |
| Dispatch.OnMessage | src/index.js:129-199 | (corrected) the decision is `Decide` on the registry; a message for a prompt goes only to its `addInput`, the registry loses that user's prompts exactly when the call ended the prompt, and every other prompt keeps its state; any other message leaves every prompt alone and records what its decision sends |
| Legacy.LegacyFilterOf | index.js:227-234 | a function filter becomes the constant true |
| Legacy.LegacyFilterCases | index.js:229-234 | a pattern tests the content; a list must include the lower-cased content as it stands; anything else is the constant `!!filter` |
| Legacy.UpperItemNeverAccepts | index.js:232 | a list whose every item changes under lower-casing (has an upper-case letter) accepts no message, whatever its content |
| Legacy.FillLegacy | index.js:380-389 | absent options take the legacy defaults (time 180000, messages 1, attempts 10, cancellable, autoRespond, not invisible, accept all, no correction); a supplied filter is normalised by `LegacyFilterOf` and a supplied `correct` is kept |
| Legacy.LegacyMatchesCurrent | index.js:137-161 | the legacy `addInput` is the current one without `matchUntil`, so every lemma about the current step holds of it |
| Legacy.LegacyAddInputStep | index.js:137-161 | (definition) the legacy `addInput`; it equals the current step without `matchUntil` (`Legacy.LegacyMatchesCurrent`) |
| Legacy.LegacyLimits | index.js:154-160 | the earlier sends come first, attempts and values are kept, and the prompt is ended afterwards exactly when it was already, or holds enough values, or used up a positive attempts limit |
| Legacy.LegacyKeepsCoherent | index.js:137-188 | the legacy step keeps the invariant and counts one attempt per call on a live prompt |
| Legacy.LegacyHandler.constructor | index.js:374 | the registry map starts empty |
| Legacy.LegacyPrompt.constructor | index.js:117-130 | a new prompt is live with no attempts, no values and a pending promise |
| Legacy.LegacyPrompt.End | index.js:168-188 | the state and sends are those of `EndStep`; a live prompt deletes the registry entry under its user's id |
| Legacy.LegacyPrompt.Expire | index.js:128-129 | the timer firing is `end('time')` |
| Legacy.LegacyPrompt.AddInput | index.js:137-161 | the state and sends are those of `LegacyAddInputStep`; the entry is deleted exactly when the call ended the prompt |
| Legacy.LegacyPrompt.CheckLimits | index.js:154-160 | enough values end with success before the attempts limit, after the correction's sends |
| Legacy.LegacyCallPrompt | index.js:224-243 | a non-empty trigger is sent first, and a failed send registers nothing; otherwise the filled prompt is set under the author's id, replacing any earlier prompt of the author |
| Legacy.LegacyGateCases | index.js:345-348 | 'dm' asks for a DM channel, 'guild' for a text channel, and any other value passes every channel |
| Legacy.LegacyBlocked | index.js:345-348 | (definition) outside the restricted guilds, or 'dm' outside a DM, or 'guild' outside a text channel; stated in `Legacy.LegacyGateCases` |
| Legacy.LegacyRoute | index.js:336-351 | (corrected) a lookup error fails the message and a miss ignores it; for a found command, an error reading its channels fails the message, and otherwise it runs exactly when the channel gate admits it; a run carries the prefix found, the lower-cased alias, the remaining tokens and the text after the alias; there are no rules and no cooldowns |
| Legacy.LegacyDecideSteps | index.js:306-351 | (corrected) without a prefix match nothing happens; with one, a lookup error fails, a miss ignores, a channels read error fails, and a found command runs exactly when its channel gate passes; a run is the command the lower-cased first token finds |
| Legacy.LegacyDecide | index.js:306-351 | (corrected) a bot's message is ignored unless bots are allowed; any other message goes to the author's prompt exactly when that prompt is in the message's channel; with no prefix configured, a message not for the prompt is ignored; commands are never denied or cooled down |
| Legacy.LegacyExecute | index.js:353-357 | exec is called, followed by `onError` exactly when it throws; a missing exec calls `onError` only |
| Legacy.LegacyRun | index.js:353-357 | running a command records the sends of `LegacyExecute` and leaves the prompts alone |
| Legacy.LegacyOnMessage | index.js:306-358 | (corrected) the decision is `LegacyDecide` on the map; a message for the prompt goes only to its `addInput`, the map loses the author's entry exactly when the call ended the prompt, and every other prompt keeps its state; any other message leaves every prompt alone |
| Legacy.PromptChannel | index.js:310-312 | the channel of the author's prompt, or none when the author has no prompt |
| Legacy.Deliver | index.js:312-313 | the author's prompt takes the state and the sends of `LegacyAddInputStep`; its entry leaves the map exactly when the call ended it; every other prompt keeps its state |
| Legacy.LegacyAct | index.js:353-357 | a run records the sends of `LegacyExecute`, any other decision sends nothing, and the map of prompts is unchanged |

## Left out

- I/O is left out: client creation, login, event wiring, `createDM`, fetching a partial channel, and the real `channel.send`. A send is an outbox append.
- Real timers and asynchronous interleaving are left out, and the model runs sequentially. The environment fires a timer by calling `Expire`, `DeleteUser` or `Release`. The await between the uniqueness check and the push in `Call.prompt` is not modelled.
- `Prompts.Prompt.constructor`: `startedAt` (a clock read) is not kept. The timer is not armed; `Timed()` says when the source would arm it.
- A time or attempts limit of `Infinity` is modelled as 0, which the source documents as the same setting. Any other non-integer is out of scope.
- JavaScript numbers (floats, NaN arithmetic, 2^53) are left out. `parseInt` gives an `Option<int>`, and `parseTime` gives an unbounded `nat`.
- Regular expressions are left out as an engine. A `RegExp` filter and a custom splitter are abstract functions. The default splitter, the prefix regex and the `parseTime` regex are written out by hand.
- The `member` and `user` argument types are a `Lookup` oracle, because they do guild lookups and a network `fetchUser`.
- `rawFilter` is not kept, since nothing in the core reads it.
- `formatCorrect` and `formatTrigger` are modelled without their first (prompt) argument, which the defaults ignore.
- `Calls.CorrectOf`: the model records the send `correct` makes but not any other side effect of a user function.
- `Args.ParseWith`: awaiting a parse is not modelled, since parses are synchronous apart from the `user` lookup.
- Absent and undefined keys are not distinguished in the options (`None` for both). An `Obj` value with its own `includes` property is not modelled.
- `Dispatch.Prop`: a property read on a primitive other than a string or array gives undefined, rather than the primitive's prototype properties.
- `Dispatch.CooldownGate`: a cooldown is seen through its `cache` and `handle` properties, not as the live `Cooldown` object.
- `Dispatch.Execute` and `Legacy.LegacyExecute`: an exception thrown by `exec` is the `throws` flag. The `commandUsed` event, `exec`'s result and `console.warn` are not modelled.
- `Dispatch.Cant`: a `cant` that is neither a function nor a string is sent as `undefined` text.
- The `instanceof Message` check of the legacy handler is not modelled.
- Store calls (`set`, `update`, `delete`) are recorded in `storeLog`. The store's own behaviour is not modelled.
- The filesystem part of `load` (`readdirSync`, `require`, `statSync`, category folders) is I/O. The caller passes each file as a name and the value it exports.
- The legacy `load` (index.js:51-79) is not part of this model. Its per-record steps are a subset of the current `load`.
- `Legacy.FillLegacy`: a falsy non-array, non-`RegExp` filter (such as 0) is modelled as `MaxLength(0)`, which gives the constant false.
- `Legacy.LegacyCallPrompt`: a failed trigger send is the `sendError` parameter, the error the awaited send rejects with.
- `Utils.Defaults` requires distinct default keys, as the entries of a JavaScript object always are.
- `Cooldowns.NewCooldown`: `options.database` must be present, as the source reads it unconditionally. The model takes the getter as an `Option`.
- Lowering (`Base.LowerChar`) covers the upper-case letters of Basic Latin, Latin-1, Latin Extended-A, Greek and Coptic (the accented capitals included), Cyrillic U+0400 to U+052F and Armenian. Other scripts' upper-case letters are kept as they are. `İ` (U+0130) is kept too, since `toLowerCase` turns it into two code units and the model keeps one character per character. Final sigma is lowered to `σ` in every position. So these members are exact only for text in the covered scripts:
- FilterCases: a list filter's lower-casing of the content and of the items is exact only within the covered scripts.
- ListFilterIgnoresCase: "agree once lower-cased" uses the model's lowering, which is exact only within the covered scripts.
- LiteralMatches: the lower-cased candidate is exact only within the covered scripts.
- LowerStrings: exact only within the covered scripts.
- NormaliseAliases: exact only within the covered scripts.
- Route: the lowered alias and the cut of its length are exact only within the covered scripts.
- LegacyFilterCases: the lower-cased content is exact only within the covered scripts.
- UpperItemNeverAccepts: "upper-case" means a letter the model's lowering changes.
- Lone surrogates cannot occur in a Dafny string, so `Base.Utf16Length` counts two units for each character outside the Basic Multilingual Plane and never one.
- EntryCandidates: a nested array entry is modelled with string items only, so its table key `Args.CommaKey` is the comma join of strings. A nested array holding numbers, objects or further arrays is not modelled. An entry that is neither a string nor an array is `EntryOther`.
- IdText: a custom `toString`, a function's source text (the model uses its name) and exponent notation for large numbers are not modelled.
- JsText: as for `IdText`, a custom `toString`, a function's source text and exponent notation are not modelled.
- CallArgsOf: `instance` is the caller's view of which values are `Arguments` instances (their object identity), since `instanceof` looks at the prototype chain, which the value model does not carry.
- Fallback: `ask` may give a reply that no declared type matches, or one a broken type comes before. The source never resolves its prompt with such a reply: its filter is `firstType`, so the reply goes to `correct` (or a broken type rejects `addInput`) and the prompt waits until it times out, is cancelled or runs out of attempts, which is a `PromptFailed` reply. The two error outcomes `Fallback` states for such a reply are unreachable in the source; `PromptedReplyParses` states the outcome for the replies the source stores.
- ResolveOne: as for `Fallback`, its reply branches that give a broken type's error or the undefined-`parse` error are unreachable in the source.
- Gates: the if-and-only-if statements about each gate are stated in `Dispatch.GatesCases`, not on `Gates` itself.
- CooldownGate: the outcome for each kind of `cooldown` value is stated on `CooldownGate`, and the way it combines with the other gates is in `Dispatch.GatesCases`.
- Decide: the ties between a decision and its steps (the prefix, the alias, the lookup and the gates) are stated in `Dispatch.DecideSteps`, not on `Decide` itself.
- LegacyDecide: the ties between a decision and its steps are stated in `Legacy.LegacyDecideSteps`, not on `LegacyDecide` itself.

## Findings

| source | as written | input that shows it | evidently intended | confidence | as-written member | corrected member |
|---|---|---|---|---|---|---|
| src/structures/Prompt.js:106 | `end` calls `this.handler.prompts.delete(this.user.id)`, but `handler.prompts` is an array (src/index.js:220), so the call throws a TypeError after `ended` is set and before the reply and the settlement | any live prompt that ends, e.g. a reply "cancel" to a cancellable prompt | remove the user's prompt from the registry, send the automatic reply and settle the promise, as the legacy keyed registry did; removal by user id also drops that user's prompts in other channels, which the array registry can hold (`Prompts.WithoutUserDropsOtherChannels`) | high, not executed | Prompts.EndAsWrittenStrands | Prompts.Prompt.End |
| src/index.js:150 | `new RegExp('^' + prefixes.join('|'))` anchors only the first alternative, so the later prefixes (the mentions included) match anywhere in the content; the earlier handler builds the same expression (index.js:324) | prefix '!', bot id '1', message 'aaaaping <@1>': the mention matches at position 9, and the cut drops its length (4) from the start, giving 'ping <@1>', so the message runs `ping` | only a message that starts with a prefix is a command, i.e. `^(?:a|b|…)` | high, not executed | Dispatch.MentionInsideExample | Dispatch.PrefixMatch |
| src/index.js:178 | the channel gate compares `message.channel.type !== channels`, and no channel type is 'ANY', the default `load` writes | any command loaded without `channels`, any message: the command never runs | 'ANY' admits every channel, as its name and the command typedef (src/index.js:16) say | high, not executed | Dispatch.AnyBlockedAsWritten | Dispatch.BlockedAgrees |
