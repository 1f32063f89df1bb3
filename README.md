# LinuxKernelInspect core, modelled in Dafny

LinuxKernelInspect is a VS Code extension. It instruments Linux kernel functions on a test device and records what they do:
- when each call starts and returns;
- the stack traces of those calls;
- the values of the variables it inspects;
- how often each traced function is called, and from where.

This project models the extension's data logic. I/O is cut away: the ssh session, the file system, `git`, HTTP and the editor are replaced by the strings and bytes they would deliver. The modules are:

- **Db** (`db.dfy`): the SQLite store.
  - Five tables: file, function, trial, stacktrace and inspect. Each is a sequence of rows with an AUTOINCREMENT id.
  - The UNIQUE and NOT NULL constraints act as guards. A statement that breaks one changes nothing.
  - The four write operations `startTrial`, `addStacktrace`, `addLineInspect` and `functionReturn`. Each is a method on a `Database` class, stated against the scalar-subquery functions "newest function named", "newest function spanning a line" and "newest trial".
- **Ftrace** (`ftrace.dfy`): the function tracer on the device.
  - The two line framers. Each writes bytes into a fixed 102400-byte `array`, and framing state carries across data chunks.
  - The matchers for the call-line and lost-events regular expressions.
  - The per-function call histogram, made of `TracedFunction` objects whose counts are updated in place.
  - The registry of traced functions fed by the `O:`/`N:` progress lines.
- **Parser** (`parser.dfy`): the C function-list extractor. A character scanner collapses comments, preprocessor directives and brace bodies down to their newlines. A search for empty-bodied definitions then maps line numbers to function names.
- **Outline** (`outline.dfy`):
  - the side-bar tree ids and how a child request decodes them back into a database query;
  - the stacktrace summary of a tree item;
  - the histogram children, sorted by count, and their tooltips.
- **Decorations** (`decorations.dfy`): the `git diff -U0` hunk parser that decides which lines of the editor to highlight.
- **DekuIntegration** (`deku.dfy`):
  - the list of inspected functions and its `file:fun:pattern` tracefile format;
  - add, remove and membership;
  - classification of the deploy server's reply.
- **Text** and **OrderedMap** (`text.dfy`, `ordered_map.dfy`): the JavaScript primitives the code relies on.
  - Text covers `split`, `indexOf`, `includes`, `substring`, `trim`, `parseInt` and number-to-string.
  - OrderedMap is a `Map` with insertion order, kept as a sequence of pairs. `set` on an existing key keeps its position.

Where the code needs JavaScript's or SQLite's semantics, the model states them outright:
- `if (value)` is false for an empty string;
- `splice(-1, 1)` removes the last element;
- `buf[i] = x` beyond a Node `Buffer`'s length is ignored;
- a scalar subquery with no row is NULL, and NULL violates NOT NULL.

The regular expressions are written as hand-made matchers. Each is proved against a declarative description of what it matches: the matcher succeeds exactly where that description holds, returns the leftmost match, and makes the greedy choice where the regex is greedy.

Three operations of the code behave differently from what their authors evidently meant (see "## Findings"). The operation itself, `generateFunctionList`, `decorateChanges` or `removeInspect`, is modelled as written. The corrected definition sits beside it with its properties proved, and a lemma shows an input on which the two differ.

## Model

| member | source | states |
|---|---|---|
| Text.Split | src/DekuIntegration.ts:27 | `split` on one character: the part count is the separator count plus one, no part holds the separator, and joining the parts gives back the text |
| Text.SplitJoin | src/DekuIntegration.ts:27 | splitting a join of separator-free parts gives back the parts |
| Text.SplitPrefix | src/DekuIntegration.ts:27 | splitting `a + sep + b`, where `a` has no separator, gives `a` and then the parts of `b` |
| Text.SplitNoSep | src/DekuIntegration.ts:27 | a text without the separator splits into itself alone |
| Text.CountZero | src/parser.ts:75 | a character occurs zero times exactly when it is not in the text |
| Text.CountAppend | src/parser.ts:75 | occurrence counts add up over a concatenation |
| Text.IndexOf | src/parser.ts:77 | `indexOf` is -1 exactly when there is no occurrence; otherwise it is an occurrence with none before it |
| Text.IndexOfFrom | src/parser.ts:77 | the search from `from` returns the first occurrence at or after `from`, or -1 when there is none |
| Text.IncludesAt | src/DekuIntegration.ts:83 | an occurrence at some index means `includes` holds |
| Text.Substring | src/Ftrace.ts:70 | `substring` with in-range indices is the slice; in every case the result is no longer than the text |
| Text.Clamp | src/Ftrace.ts:70 | an index is clamped into `[0, len]` and left alone when already inside |
| Text.LeadingSpace | src/Ftrace.ts:101 | the length of the leading run of white space |
| Text.TrailingSpace | src/Ftrace.ts:101 | the length of the trailing run of white space |
| Text.Trim | src/Ftrace.ts:101 | `trim` gives a slice of the text that neither starts nor ends with white space |
| Text.NatToString | src/outline.ts:173 | a number is printed as at least one decimal digit |
| Text.IntToStringNoDot | src/outline.ts:173 | a printed integer has no '.', so it can be a field of a dotted id |
| Text.IntToStringNoNewline | src/outline.ts:353 | a printed integer has no newline |
| Text.DigitRun | src/outline.ts:184 | the length of the leading digit run |
| Text.DigitRunAll | src/outline.ts:184 | in an all-digit text the digit run is the whole text |
| Text.ParseInt | src/outline.ts:184 | `parseInt` of text without a "0x" prefix fails exactly when no decimal digit follows the leading white space and sign |
| Text.NatToStringValue | src/outline.ts:184 | the digits of a printed number have that number's value |
| Text.ParseIntToString | src/outline.ts:184-185 | `parseInt` of a printed integer gives back that integer |
| OrderedMap.Keys | src/outline.ts:370 | the keys in insertion order |
| OrderedMap.Values | src/outline.ts:370 | the values in insertion order |
| OrderedMap.Find | src/Ftrace.ts:128 | the position of a key: none exactly when the key is absent, otherwise its first position |
| OrderedMap.Get | src/Ftrace.ts:128 | `get` is undefined exactly when the key is absent |
| OrderedMap.GetAt | src/Ftrace.ts:131 | with distinct keys, `get` returns the value stored beside the key |
| OrderedMap.Set | src/Ftrace.ts:134 | `set` on a new key appends it at the end; on an existing key it keeps the length |
| OrderedMap.SetGet | src/Ftrace.ts:134 | after `set(k, v)`, `get(k)` is `v` |
| OrderedMap.SetOther | src/Ftrace.ts:134 | `set(k, v)` leaves the value of every other key unchanged |
| OrderedMap.SetHas | src/Ftrace.ts:75 | after `set(k, v)` the keys present are the old ones plus `k` |
| OrderedMap.SetKeys | src/Ftrace.ts:134 | `set` on an existing key keeps the key order |
| OrderedMap.SetDistinct | src/Ftrace.ts:75 | `set` keeps the keys distinct |
| OrderedMap.SetNew | src/Ftrace.ts:75 | appending a new key: it maps to its value, others are unchanged, keys stay distinct |
| OrderedMap.SetExisting | src/Ftrace.ts:134 | overwriting at a key's position: it maps to the new value, others and the key order are unchanged |
| OrderedMap.UpdateValue | src/Ftrace.ts:134 | replacing the value at a key's first position keeps the keys and changes only that key's value |
| OrderedMap.FindAppend | src/Ftrace.ts:75 | a key appended to a map without it is found at the end |
| OrderedMap.FindAppendOther | src/Ftrace.ts:75 | appending a key does not move any other key |
| OrderedMap.FindUpdate | src/Ftrace.ts:134 | changing a value does not move any key |
| OrderedMap.FindSameKeys | src/Ftrace.ts:134 | two maps with the same key sequence find every key at the same position |
| Db.Append | src/db.ts:34 | an AUTOINCREMENT insert puts the row at the end with id one past the counter, and keeps ids dense and increasing |
| Db.FileIdByPath | src/db.ts:116 | `SELECT id FROM file WHERE path = $path LIMIT 1`: NULL exactly when no row has the path, otherwise the id of the first such row |
| Db.NewestFunctionNamed | src/db.ts:122 | the function subquery: NULL exactly when no function of that name is in the file, otherwise the highest id among those that are |
| Db.NewestFunctionAt | src/db.ts:155 | the line subquery: NULL exactly when no function of the file spans the line, otherwise the highest id among those that do |
| Db.NewestTrial | src/db.ts:133 | the trial subquery: NULL exactly when the function has no trial, otherwise its highest trial id |
| Db.NamedFunctionIsUnique | src/db.ts:45 | under UNIQUE(file_id, name) the newest function of a name is its only row |
| Db.OneFileRowPerPath | src/db.ts:35 | UNIQUE(path, source, commit_hash) with empty source and commit gives one file row per path |
| Db.InspectRowFor | src/db.ts:144-152 | a non-empty value is stored as (var_name=key, var_value=value, msg=""); anything else as (var_name="", var_value="", msg=key) |
| Db.SetReturn | src/db.ts:170 | the UPDATE sets return time and line on every trial of the function, and changes no other trial and no other column |
| Db.SetReturnKeepsDenseIds | src/db.ts:170 | the UPDATE keeps trial ids dense |
| Db.Database.constructor | src/db.ts:22-79 | the store starts with five empty tables and counters, satisfying every constraint |
| Db.Database.InsertFile | src/db.ts:111-115 | the file INSERT succeeds exactly when (path, "", "") is new; then it appends one row, otherwise nothing changes |
| Db.Database.InsertFunction | src/db.ts:116-121 | the function INSERT succeeds exactly when the file exists and has no function of that name; then it appends one row, otherwise nothing changes |
| Db.Database.InsertTrial | src/db.ts:122-126 | the trial INSERT succeeds exactly when the function subquery found a row; then it appends an open trial (return time and line 0) |
| Db.Database.StartTrial | src/db.ts:108-128 | a file row only for a new path; a function row only for a new name in the file, so an existing row keeps its first-seen line range; exactly one new open trial, owned by the newest function of that name in the file |
| Db.Database.AddStacktrace | src/db.ts:130-140 | one stacktrace row with the given text and sum on the function's newest trial, or no change when there is no trial; equal sums are not merged |
| Db.Database.AddLineInspect | src/db.ts:142-163 | one inspect row on the newest trial of the newest function spanning the line, or no change when there is none; the row's columns are `InspectRowFor` |
| Db.Database.UpdateReturn | src/db.ts:170-175 | the trial table becomes `SetReturn` of the old one; nothing else changes |
| Db.Database.FunctionReturn | src/db.ts:165-179 | a missing line becomes 0; every trial of the function gets the return; a non-empty key adds exactly the inspect row of `addLineInspect` at that line, and no key adds none |
| Ftrace.Stored | src/Ftrace.ts:95 | the buffer keeps at most 102400 bytes: all of them, or exactly the buffer size |
| Ftrace.Decode | src/Ftrace.ts:101 | one character per byte, with the byte's value |
| Ftrace.CommandFramesConcat | src/Ftrace.ts:95-107 | framing two chunks in turn, carrying the pending bytes, equals framing their concatenation |
| Ftrace.CommandFramesNoNewline | src/Ftrace.ts:99-106 | a chunk without byte 10 emits nothing and only adds to the pending bytes |
| Ftrace.CommandLineSpansChunks | src/Ftrace.ts:100-103 | the first line emitted is the pending bytes from earlier chunks plus this chunk's bytes before its first newline |
| Ftrace.LongLineTruncated | src/Ftrace.ts:105 | bytes past the buffer never reach the line, which is the trimmed first 102400 bytes |
| Ftrace.PipeFramesConcat | src/Ftrace.ts:169-179 | the listener's framing carries across chunks the same way, when the first chunk does not end in CR or LF |
| Ftrace.PipeCrLf | src/Ftrace.ts:170-176 | CR LF inside a chunk ends one line, not two; a lone CR or LF ends a line |
| Ftrace.LineFramer.constructor | src/Ftrace.ts:166-167 | the framer starts with no pending bytes |
| Ftrace.LineFramer.Write | src/Ftrace.ts:178 | `buffer[bufferIndex++] = byte` adds the byte to the pending bytes |
| Ftrace.LineFramer.TakeLine | src/Ftrace.ts:171-173 | taking a line yields the trimmed decoded buffer and resets it |
| Ftrace.LineFramer.FeedCommandOutput | src/Ftrace.ts:97-108 | the `runCommand` data handler emits exactly `CommandFrames` of pending bytes and chunk; without `onTrace` it does nothing |
| Ftrace.LineFramer.FeedTracePipe | src/Ftrace.ts:168-179 | the listener's data handler emits exactly `PipeFrames` of pending bytes and chunk |
| Ftrace.DigitsFrom | src/Ftrace.ts:122 | the maximal digit run starting at an index |
| Ftrace.DigitsBefore | src/Ftrace.ts:122 | the maximal digit run ending at an index |
| Ftrace.LastArrow | src/Ftrace.ts:122 | the last ` <-` at or before a position with a non-empty name before it: none exactly when there is none |
| Ftrace.NameLengthAt | src/Ftrace.ts:122 | for a timestamp at `p`, the greedy `(.+)` name: the longest one followed by ` <-` and a non-empty parent |
| Ftrace.MatchCallBelow | src/Ftrace.ts:122 | the last timestamp position before `p` that starts a call match, with its longest name |
| Ftrace.MatchCallSpec | src/Ftrace.ts:122-127 | the call regex fails exactly when no position starts a match; otherwise fun and parent come from the last such position (greedy `.*`) and its longest name (greedy `(.+)`) |
| Ftrace.MatchLost | src/Ftrace.ts:141-144 | the lost-events regex fails exactly when the line does not end in ` [LOST n EVENTS]`; otherwise it captures `n` |
| Ftrace.ClassifyLine | src/Ftrace.ts:121-152 | a call line exactly when the call regex matches, a lost line exactly when only the lost-events regex does, with their captures |
| Ftrace.LayoutTimestamp | src/Ftrace.ts:122 | in a tracer-formatted line, the timestamp is found and starts a call match |
| Ftrace.LayoutNoLaterCall | src/Ftrace.ts:122 | a tracer-formatted line has no call match after its timestamp |
| Ftrace.LayoutOnlyArrow | src/Ftrace.ts:122 | a tracer-formatted line has a single ` <-` after its timestamp |
| Ftrace.LayoutMatch | src/Ftrace.ts:122-126 | a tracer-formatted line matches with its own function and parent |
| Ftrace.LayoutCall | src/Ftrace.ts:122-126 | a tracer-formatted line is classified as a call line of its own function and parent |
| Ftrace.TracerLine | src/Ftrace.ts:122-126 | `prefix secs.frac: fun <-parent` is read as a call of `fun` from `parent` |
| Ftrace.SumCountsAppend | src/Ftrace.ts:134 | adding a parent entry adds its count to the sum |
| Ftrace.SumCountsUpdate | src/Ftrace.ts:134 | replacing a parent entry changes the sum by the difference |
| Ftrace.SumCountsSet | src/Ftrace.ts:131-134 | `parents.set(p, v)` changes the sum of parent counts by `v` minus the old count (0 when absent) |
| Ftrace.BumpBalanced | src/Ftrace.ts:130-134 | one call adds 1 to `count`, and `count` stays the sum of the parent counts |
| Ftrace.BumpParents | src/Ftrace.ts:131-134 | one call sets `parents[parent]` to its old value (0 when absent) plus 1 and leaves every other parent alone |
| Ftrace.RecordCallEffect | src/Ftrace.ts:128-138 | a call of a traced function bumps that function only; a call of an untraced one changes nothing; the keys never change |
| Ftrace.RecordCallBalanced | src/Ftrace.ts:128-134 | a call keeps every function's count equal to its parent sum |
| Ftrace.RecordLineEffect | src/Ftrace.ts:121-152 | a line keeps the keys and the balance; lost-events, empty and unknown lines change nothing |
| Ftrace.RecordLinesBalanced | src/Ftrace.ts:169-179 | any sequence of lines keeps the keys and the balance |
| Ftrace.EmptyLineIgnored | src/Ftrace.ts:150 | an empty line is neither a call nor lost events and changes nothing |
| Ftrace.FunctionListLines | src/Ftrace.ts:47-49 | the function list is each name followed by "\n", so splitting it on newlines gives the names and a final empty line |
| Ftrace.FunctionListFront | src/Ftrace.ts:48 | the list starts with the first name and a newline |
| Ftrace.TracedFunction.constructor | src/Ftrace.ts:11-16 | a traced function starts with count 0 and no parents |
| Ftrace.TracedFunction.WithCount | src/Ftrace.ts:11-16 | with a count given, it starts with that count and no parents |
| Ftrace.TracedFunction.CalledFrom | src/Ftrace.ts:130-134 | the object's count and parents become `Bump` of the old ones |
| Ftrace.NoticeFor | src/Ftrace.ts:136-151 | `onFunctionTraced` fires exactly for a call of a traced function; the warning exactly for a lost-events line; "Unknown trace" exactly for a non-empty line that is neither |
| Ftrace.Ftrace.constructor | src/Ftrace.ts:22-23 | both maps start empty |
| Ftrace.Ftrace.IsTracingRequested | src/Ftrace.ts:37-40 | `isTracing(path)` holds exactly when `traceFunctions` was called for the path |
| Ftrace.Ftrace.TraceFunctions | src/Ftrace.ts:42-53 | the path's list is reset to empty, the histogram is unchanged, and the script stores each name followed by "\n" |
| Ftrace.Ftrace.OnTraceProgress | src/Ftrace.ts:68-77 | a line starting with 'O' (such as `O:name`) drops its first 2 characters, registers a fresh count-0 object under the rest and appends it to the path's list when there is one; a line starting with anything else, or empty, changes neither map |
| Ftrace.Ftrace.Register | src/Ftrace.ts:72-75 | `histogram.set(name, trace)` and the push onto the path's list, keeping the histogram invariant |
| Ftrace.Ftrace.AddToList | src/Ftrace.ts:72-74 | `avaiableTraces.get(path)?.push(trace)`: the list grows by the object only when the path has a list |
| Ftrace.Ftrace.CountCall | src/Ftrace.ts:128-138 | the histogram's counts become `RecordCall` of the old ones; reports whether the function was traced |
| Ftrace.Ftrace.ParseFtraceLine | src/Ftrace.ts:121-152 | the histogram's counts become `RecordLine` of the old ones; the notice is `NoticeFor` the line |
| Ftrace.Ftrace.ParseLines | src/Ftrace.ts:169-179 | each line is parsed in turn against the histogram the earlier ones left |
| Ftrace.Ftrace.OnTracePipeData | src/Ftrace.ts:168-182 | one listener chunk: the framed lines are parsed in order, leftover bytes stay pending, and `onUpdated` fires once |
| Ftrace.Ftrace.OnProgressOutput | src/Ftrace.ts:68-107 | one chunk of the registration loop's output: each framed line goes to the progress handler in order, and the names now traced are the old ones plus those of the `O:` lines |
| Ftrace.NoticesFor | src/Ftrace.ts:172 | one notice per framed line |
| Ftrace.ProgressReports | src/Ftrace.ts:69-77 | one `onProgress` call per line, with the stripped name and the `O` test |
| Ftrace.RegisteredSnoc | src/Ftrace.ts:69-75 | one more report registers its name exactly when it is an `O:` line |
| Ftrace.TracedAfterSet | src/Ftrace.ts:75 | registering a new object adds only that object, and keeps objects distinct and keyed by their own names |
| Ftrace.ListsValid | src/Ftrace.ts:46 | `avaiableTraces.set(path, …)` keeps the keys distinct and the key set equal to the requested paths |
| Ftrace.ListedAfterSet | src/Ftrace.ts:46 | a new list for a path adds only the objects in it |
| Parser.Newlines | src/parser.ts:24 | `k` newline characters |
| Parser.NewlinesCount | src/parser.ts:24-25 | `k` newlines contain `k` newline characters |
| Parser.CountSnoc | src/parser.ts:62-64 | appending a character adds one newline exactly when it is a newline |
| Parser.LineEnd | src/parser.ts:15 | the `//` scan stops at the first newline at or after the start, or at the end |
| Parser.CommentEnd | src/parser.ts:22 | the `/* */` scan stops at the first `*/` close at or after the start, or at the last character |
| Parser.DirectiveEnd | src/parser.ts:32 | the directive scan stops at the first newline not preceded by a backslash, or at the last character |
| Parser.BlockEnd | src/parser.ts:46-57 | the brace scan stops on a '}' or at the last character |
| Parser.StepKeepsNewlines | src/parser.ts:13-65 | each step of the outer loop appends as many newlines as it consumes |
| Parser.LineNewlines | src/parser.ts:14-20 | a `//` comment becomes a single newline, the one that ends it |
| Parser.CommentNewlines | src/parser.ts:21-30 | a `/* */` comment contributes only its newlines |
| Parser.DirectiveNewlines | src/parser.ts:31-42 | a directive, over its continued lines, contributes only its newlines |
| Parser.BlockNewlines | src/parser.ts:43-61 | a brace block becomes '{', its newlines, then '}' |
| Parser.CountBraced | src/parser.ts:44-58 | the braces add no newline |
| Parser.ConsumedLast | src/parser.ts:46-50 | consuming one more character adds a newline exactly when it is one |
| Parser.CollapseSource | src/parser.ts:7-66 | the scanning loop builds exactly `Collapse(buffer)`, and `lines` equals the newlines in `content` |
| Parser.CollapseOne | src/parser.ts:13-65 | one pass of the loop body appends the step's output, moves to the step's end and keeps `lines` equal to the newline count |
| Parser.CollapseUnfold | src/parser.ts:11-66 | the collapsed text from `i` is the step at `i` followed by the collapsed text from where it ends |
| Parser.SkipLine | src/parser.ts:15 | the `//` loop stops at `LineEnd` |
| Parser.SkipComment | src/parser.ts:22-27 | the `/* */` loop stops at `CommentEnd` and appends one newline per newline it passes |
| Parser.SkipDirective | src/parser.ts:32-37 | the directive loop stops at `DirectiveEnd` and appends one newline per newline it passes |
| Parser.SkipBlock | src/parser.ts:46-57 | the brace loop stops at `BlockEnd` and appends one newline per newline it passes |
| Parser.NewlineStep | src/parser.ts:23-26 | an inner-loop iteration keeps the appended newlines equal to those passed |
| Parser.ScanEndUnfold | src/parser.ts:11 | the loop's stopping point does not change across one step |
| Parser.CollapseKeepsLines | src/parser.ts:10-66 | when the scan ends on the last character, the collapsed text has exactly the newlines of the text scanned |
| Parser.CountSplit | src/parser.ts:75 | newline counts add up over adjacent slices |
| Parser.PlainTextCopied | src/parser.ts:62 | text without '/', '#' or '{' is copied verbatim, except the last character |
| Parser.CopyUnfold | src/parser.ts:62-65 | an ordinary character is copied and the scan moves on by one |
| Parser.CopyRun | src/parser.ts:62-65 | a run of ordinary characters is copied verbatim |
| Parser.ConsJoin | src/parser.ts:62 | copying a character before a copied slice gives the longer slice |
| Parser.LastCharNotCopied | src/parser.ts:11 | the last character of the input (when not part of a comment marker) never affects the result |
| Parser.LineEndAgree | src/parser.ts:15 | the `//` scan does not depend on the last character |
| Parser.CommentEndAgree | src/parser.ts:22 | the `/* */` scan does not depend on the last character |
| Parser.DirectiveEndAgree | src/parser.ts:32 | the directive scan does not depend on the last character |
| Parser.BlockEndAgree | src/parser.ts:46 | the brace scan does not depend on the last character |
| Parser.SameSlice | src/parser.ts:11 | slices before the last character agree |
| Parser.RunEnd | src/parser.ts:68 | the end of a maximal run of one character class |
| Parser.RunEndUnique | src/parser.ts:68 | a run that cannot be extended ends where `RunEnd` says |
| Parser.MatchAt | src/parser.ts:68 | a match found at `s` starts at `s` and lies within the text, with the name inside |
| Parser.MatchAtIff | src/parser.ts:68 | the matcher succeeds at `s` with a name span and an end exactly when the text has the regex's shape there |
| Parser.MatchAtComplete | src/parser.ts:68 | every occurrence of the regex's shape is found by the matcher |
| Parser.FirstMatch | src/parser.ts:70 | `exec` finds a match at or after the search position |
| Parser.FirstMatchLeftmost | src/parser.ts:70 | no position between the search position and the match found starts a match |
| Parser.MatchesFrom | src/parser.ts:70 | the matches of the `g` loop lie in the text, in order, without overlap |
| Parser.NameInMatch | src/parser.ts:77 | the captured name occurs in the matched text at its own offset |
| Parser.NameLine | src/parser.ts:76 | the corrected line of a match: 1 plus the newlines before the captured name, the line the comment at parser.ts:76 means |
| Parser.LineAsWritten | src/parser.ts:71-79 | the line as the code computes it: 1 plus the newlines before the match and those in the match before `funDef.indexOf(fun)` |
| Parser.NameIndex | src/parser.ts:77 | `funDef.indexOf(fun)` finds the name at or before the offset where the match captured it |
| Parser.LineAsWrittenEarlier | src/parser.ts:71-79 | the code's line is never after the name's own line, and equals it exactly when no newline lies between the name's first occurrence in the match and the captured name |
| Parser.LineAsWrittenAgrees | src/parser.ts:71-79 | the line computed by the code is right when `indexOf` of the name finds the captured one |
| Parser.EntriesGet | src/parser.ts:80 | each key of the map holds the last name put under it, and keys stay distinct |
| Parser.FunctionMapAsWritten | src/parser.ts:70-80 | the map the code builds: each match's name set under the line `LineAsWritten` gives it |
| Parser.FunctionMapAsWrittenLookup | src/parser.ts:70-80 | in the code's map, each line number holds the name of the last definition the code puts under that line, and keys are distinct |
| Parser.FunctionMap | src/parser.ts:70-80 | the corrected map: each match's name set under `NameLine` |
| Parser.FunctionMapLookup | src/parser.ts:70-80 | in the corrected map, each line number holds the name of the last definition whose name is on that line, and keys are distinct |
| Parser.CountPrefix | src/parser.ts:74-75 | the line loop counts one more newline exactly at a newline |
| Parser.LineOfMatch | src/parser.ts:71-79 | the two line loops give `LineAsWritten`: 1 plus the newlines before the match and before the name's first occurrence in it |
| Parser.GenerateFunctionList | src/parser.ts:3-85 | `generateFunctionList` returns `FunctionMapAsWritten` of the buffer, the map the code builds |
| Parser.ExampleCollapse | src/parser.ts:11-66 | the example source collapses to `"int\nin(void) {\n}"` |
| Parser.ExampleSplit | src/parser.ts:62 | the example's collapsed text is its first 13 characters and a collapsed block |
| Parser.ExampleHeadPlain | src/parser.ts:62 | the example's first 13 characters are ordinary |
| Parser.ExampleBlock | src/parser.ts:43-61 | the example's body collapses to `"{\n}"` |
| Parser.ExampleShape | src/parser.ts:68 | the example's collapsed text has the regex's shape at 0 |
| Parser.ExampleMatches | src/parser.ts:70 | the example has exactly one match |
| Parser.ExampleLines | src/parser.ts:71-79 | for the example, the code computes line 1 where the name is on line 2 |
| Parser.NameFoundInReturnType | src/parser.ts:77-79 | the map as written puts `in` under line 1; the corrected map puts it under line 2 |
| Outline.SplitThree | src/outline.ts:52 | a dotted id of three dot-free fields splits back into those fields |
| Outline.FunIdPrefix | src/outline.ts:52 | a function item's id starts with "fun." and with neither "ret." nor "stack." |
| Outline.InspectsFunItem | src/outline.ts:64-65 | expanding an inspects function item asks for the trials of its own id text |
| Outline.NumericFunId | src/outline.ts:161 | a function item with a numeric id is a "fun." item whose field 2 parses back to the id |
| Outline.ReturnsFunItem | src/outline.ts:189-191 | expanding a returns function item asks for that function's returns |
| Outline.StacktraceFunItem | src/outline.ts:269-271 | expanding a stacktrace function item asks for that function's stacktraces |
| Outline.NumericFields | src/outline.ts:173 | fields 1 and 2 of a tag and two printed integers parse back to the integers |
| Outline.DottedStarts | src/outline.ts:173 | a dotted id starts with its tag and a dot |
| Outline.InspectsQuery | src/outline.ts:58-74 | the inspects child request: the trials of field 2 for a "fun." item, else the file's functions |
| Outline.Label | src/outline.ts:96-104 | a file item is labelled with its path, a function item with the path, a space and the function |
| Outline.RegisteredQuery | src/outline.ts:116-132 | the registered-inspections child request: the files for the root, otherwise the functions of the file the item's label names |
| Outline.RegisteredFileChildren | src/outline.ts:96-132 | expanding a file item asks for that file's functions, the root asks for the files, and only file items are collapsible |
| Outline.ReturnsQuery | src/outline.ts:177-200 | the returns child request: trials for a "ret." item, returns for a "fun." item, else the file's functions with returns |
| Outline.StacktraceQuery | src/outline.ts:257-280 | the stacktrace child request: trials for a "stack." item, stacktraces for a "fun." item, else the file's functions with returns, the query the code reuses there |
| Outline.ReturnItem | src/outline.ts:183-186 | expanding "ret.line.funId" asks for that function's trials returning at that line |
| Outline.StackItem | src/outline.ts:263-266 | expanding "stack.sum.funId" asks for that function's trials with that stacktrace sum |
| Outline.Take | src/outline.ts:246 | at most the first `n` elements, and exactly `n` when there are that many |
| Outline.GenItemForStacktrace | src/outline.ts:235-255 | the caption is "#index"; the tooltip is each frame followed by "\n"; the description is the symbols of the first 4 frames with an offset, each followed by ", ", then "..."; the id is "stack.sum.funId" |
| Outline.FrameLines | src/outline.ts:241-243 | the tooltip loop appends each frame and a newline |
| Outline.FrameSymbols | src/outline.ts:244-250 | the description loop keeps the symbols of the first 4 frames with a '+' past index 0 |
| Outline.DescriptionStep | src/outline.ts:246-249 | a frame adds its symbol and ", " exactly when fewer than 4 were kept and it has an offset; otherwise the description is unchanged |
| Outline.SymbolsSnoc | src/outline.ts:246-247 | one more frame adds its symbol exactly when it has an offset |
| Outline.ListedSnoc | src/outline.ts:247 | one more symbol adds it and ", " |
| Outline.TakeSnoc | src/outline.ts:246 | one more element is kept exactly when fewer than `n` were |
| Outline.StackTooltipLines | src/outline.ts:241-243 | the tooltip's lines are the frames, then an empty line |
| Outline.FramesOfText | src/outline.ts:241 | a frame holds no character the stacktrace lacks |
| Outline.JoinHas | src/outline.ts:241 | every character of a part is in the joined text |
| Outline.InsertByCount | src/outline.ts:374 | insertion adds exactly the one entry |
| Outline.InsertSorted | src/outline.ts:374 | insertion keeps the list in descending count order |
| Outline.SortByCount | src/outline.ts:374 | the sort is a permutation in descending count order |
| Outline.SortedHas | src/outline.ts:374 | the sort keeps exactly the entries it is given |
| Outline.TrackedHas | src/outline.ts:370-373 | the traced entries kept are exactly the histogram entries whose function is in the file |
| Outline.UntrackedHas | src/outline.ts:375-378 | the appended children are exactly the file's functions the histogram lacks, each with count -1 and no parents |
| Outline.ItemsOf | src/outline.ts:374 | one child per entry, in order |
| Outline.Children | src/outline.ts:365-382 | `getChildren` on a histogram: nothing without a path; the file's traced functions by descending count, then the untraced ones with count -1; "Loading..." when that is empty |
| Outline.ChildrenPlaceholder | src/outline.ts:365-383 | no list exactly when the path is empty; otherwise "Loading..." alone exactly when the file has no functions |
| Outline.EmptyFileChildren | src/outline.ts:379-380 | a file without functions shows "Loading..." |
| Outline.FileChildren | src/outline.ts:375-380 | a file with functions never shows "Loading..." |
| Outline.HasItem | src/outline.ts:379 | a list with a function item is not the placeholder |
| Outline.ChildrenOf | src/outline.ts:365-383 | with a path, the children are the built list, or the placeholder when it is empty |
| Outline.ChildrenNames | src/outline.ts:365-383 | with a path, a function has a child exactly when it is in the file |
| Outline.NamedIfDefined | src/outline.ts:370-378 | every function of the file has a child |
| Outline.DefinedIfNamed | src/outline.ts:370-378 | every child is a function of the file |
| Outline.ItemNamed | src/outline.ts:374 | an entry of the sorted list has a child named after it |
| Outline.RestNamed | src/outline.ts:375-378 | an appended child is named in the whole list |
| Outline.ItemAt | src/outline.ts:374 | the sorted entries come first, in order |
| Outline.RestAt | src/outline.ts:375-378 | the untracked children come after them |
| Outline.ChildrenDescending | src/outline.ts:374-378 | with non-negative counts, the children's counts never increase along the list |
| Outline.DescendingJoin | src/outline.ts:374-378 | sorted traced entries followed by count -1 children are in descending order |
| Outline.HistogramTree.constructor | src/outline.ts:286-291 | the provider starts with no path and no functions |
| Outline.HistogramTree.UpdatePath | src/outline.ts:296-301 | `updatePath` stores the path and the file's functions |
| Outline.HistogramTree.GetChildren | src/outline.ts:365-383 | `getChildren` returns `Children` of the path, functions and current histogram |
| Outline.HistogramTree.CollectTracked | src/outline.ts:370-373 | the `forEach` keeps the histogram entries of the file's functions, in histogram order |
| Outline.HistogramTree.AppendUntracked | src/outline.ts:375-378 | the `forEach` appends the file's functions the histogram lacks, in file order |
| Outline.HistogramTree.GetTreeItem | src/outline.ts:313-363 | `getTreeItem` shows a child with the tooltip and description its count selects |
| Outline.ShownCount | src/outline.ts:322-327 | the count is -1 for a function the histogram lacks, otherwise its count |
| Outline.Bullets | src/outline.ts:352-354 | one bullet `* parent (n times)` per parent, in order |
| Outline.TooltipFor | src/outline.ts:345-355 | -1 gives the "might be inlined" text, 0 gives "hasn't been called", otherwise the header and one bullet per parent |
| Outline.AppendCallers | src/outline.ts:352-354 | the parents loop appends each bullet and a newline |
| Outline.CallerLinesSnoc | src/outline.ts:353 | one more parent adds its bullet and a newline |
| Outline.CallerLinesList | src/outline.ts:352-354 | the caller lines are the bullets, each followed by a newline |
| Outline.CallersTooltipLines | src/outline.ts:351-354 | for a positive count the tooltip's lines are the header, the bullets, then an empty line |
| Outline.HeaderOneLine | src/outline.ts:351 | the header is one line |
| Outline.BulletsNoNewline | src/outline.ts:353 | a bullet is one line when the parent name is |
| Outline.HeadedLines | src/outline.ts:351-354 | a one-line header and one-line lines split back apart |
| Outline.DescriptionFor | src/outline.ts:309-310 | a description exactly for a positive count: "(called: " then the count, which parses back |
| Outline.DescriptionCount | src/outline.ts:310 | "(called: n)" holds `n` after its prefix |
| Decorations.FileHeaderAt | src/outline.ts:411 | "+++ " followed by a character `.` accepts, at a given index; the optional "b/" adds nothing, since `.+` can take it |
| Decorations.IsFileHeader | src/outline.ts:411-412 | the unanchored file-header expression matches somewhere in the line |
| Decorations.HeaderAt | src/outline.ts:415-417 | the hunk-header expression at an index, with `Number.parseInt` of its second group |
| Decorations.HeadAt | src/outline.ts:415 | "@@ -", a number, an optional count and " +": where the second group starts |
| Decorations.TailAt | src/outline.ts:415-417 | the second group, an optional count and " @@": the group's value |
| Decorations.NumberAt | src/outline.ts:417 | the value of a run of decimal digits |
| Decorations.NumberAtValue | src/outline.ts:417 | on digits, `NumberAt` is the value of their text |
| Decorations.NumberAtParse | src/outline.ts:417 | `Number.parseInt` of the group's text is `NumberAt` of it |
| Decorations.HunkStart | src/outline.ts:415-416 | the leftmost match of the hunk-header expression in the line |
| Decorations.CodeRunEnd | src/outline.ts:423 | the end of the maximal `[0-9;]` run |
| Decorations.MarkerFrom | src/outline.ts:423-425 | the marker expression: colour codes skipped, then ' ', '+' or '-' |
| Decorations.HeaderShape | src/outline.ts:415 | declarative: the hunk-header expression matches at `k`, its four numbers of the given widths |
| Decorations.HeaderGroup | src/outline.ts:417 | `Number.parseInt` of that match's second group |
| Decorations.MarkerShape | src/outline.ts:423 | declarative: a run of colour codes followed by a marker character |
| Decorations.NumberComplete | src/outline.ts:415 | a number and its optional count followed by ' ' are exactly what the matcher takes |
| Decorations.NumberSound | src/outline.ts:415 | what the matcher takes is a number and an optional count |
| Decorations.HeadSound | src/outline.ts:415 | a head found by `HeadAt` has the expression's shape |
| Decorations.HeadComplete | src/outline.ts:415 | every head of that shape is found by `HeadAt` |
| Decorations.TailSound | src/outline.ts:415-417 | a tail found by `TailAt` has the shape and the group's value |
| Decorations.TailComplete | src/outline.ts:415-417 | every tail of that shape is found by `TailAt` with the group's value |
| Decorations.HeaderAtSound | src/outline.ts:415-417 | a match found by `HeaderAt` has the expression's shape and the value of its group |
| Decorations.HeaderAtComplete | src/outline.ts:415-417 | every occurrence of the shape at an index is the one `HeaderAt` finds, with its group's value |
| Decorations.HeaderAtIff | src/outline.ts:415-417 | `HeaderAt` succeeds exactly where the expression matches, and gives the group's value |
| Decorations.HunkStartFromNone | src/outline.ts:415-416 | the search fails exactly when the shape occurs nowhere from the start index on |
| Decorations.HunkStartFromLeftmost | src/outline.ts:415-417 | the search returns the group of the leftmost occurrence of the shape |
| Decorations.MarkerFromSound | src/outline.ts:423-424 | a marker found by `MarkerFrom` follows a run of colour codes |
| Decorations.MarkerFromComplete | src/outline.ts:423-424 | every match of the marker expression is the one `MarkerFrom` finds |
| Decorations.MarkerFromIff | src/outline.ts:423-425 | `MarkerFrom` succeeds exactly where the marker expression matches, with the marker it captures |
| Decorations.SetLastEnd | src/outline.ts:426 | `chunk[1] = lineNo` on the aliased last chunk: only its end changes |
| Decorations.HunkStep | src/outline.ts:415-432 | one line after the file-header test: a header opens a chunk; inside a hunk an added line extends it, a context or removed line keeps the state, any other line ends the hunk |
| Decorations.StepAsWritten | src/outline.ts:411-432 | one line as the code handles it: a line holding "+++ " is skipped, inside a hunk or not |
| Decorations.Step | src/outline.ts:415-432 | one line of the corrected scan: the file-header test only outside a hunk |
| Decorations.RunAsWritten | src/outline.ts:410 | the code's `forEach` over the lines |
| Decorations.Run | src/outline.ts:410 | the corrected scan over the lines |
| Decorations.Decorations | src/outline.ts:405-441 | the ranges the code computes for a diff |
| Decorations.DecorationsCorrected | src/outline.ts:405-441 | the ranges of the corrected scan |
| Decorations.DecorateChanges | src/outline.ts:405-441 | the code's loop over the diff's lines, with "+++ " tested first on every line, and its range loop give exactly `Decorations(stdout)` |
| Decorations.RangesOf | src/outline.ts:436-441 | only chunks with an end yield a range, shifted to zero-based lines |
| Decorations.RunAsWrittenUnfold | src/outline.ts:410 | the code's fold over the lines, split after one line |
| Decorations.HunkStepWellFormed | src/outline.ts:415-432 | a line keeps every chunk's end -1 or at least its start |
| Decorations.RunAsWrittenWellFormed | src/outline.ts:410-433 | so does the code's scan over any lines |
| Decorations.RunWellFormed | src/outline.ts:410-433 | and the corrected scan |
| Decorations.RangesOrdered | src/outline.ts:436-441 | ranges of well-formed chunks have start at most end |
| Decorations.DecorationsOrdered | src/outline.ts:405-441 | every range the code decorates has start at most end |
| Decorations.DecorationsCorrectedOrdered | src/outline.ts:405-441 | so does every range of the corrected scan |
| Decorations.ScansAgree | src/outline.ts:411-414 | on lines without "+++ " the code's scan and the corrected one agree |
| Decorations.FileHeaderSkipped | src/outline.ts:411-414 | in the code's scan a line holding "+++ " changes nothing, inside a hunk or not |
| Decorations.HeaderStep | src/outline.ts:416-420 | a hunk header that is not a file header opens a chunk [S, -1] and sets the line number to S, in either scan |
| Decorations.RunAsWrittenCons | src/outline.ts:410 | the code's fold, split after its first line |
| Decorations.RunCons | src/outline.ts:410 | the corrected fold, split after its first line |
| Decorations.AddedLinesExtendAsWritten | src/outline.ts:422-428 | in the code's scan, each added line without "+++ " sets the chunk's end to the current line and advances it |
| Decorations.HunkCountedAsWritten | src/outline.ts:411-428 | in the code's scan, a header at S followed by k added lines without "+++ " gives the chunk [S, S+k-1], or [S, -1] for none |
| Decorations.PlusCount | src/outline.ts:423-427 | the number of body lines whose marker is '+', the lines that move `lineNo` on |
| Decorations.HunkBodyCounted | src/outline.ts:411-428 | in the code's scan, a run of hunk body lines (a ' ', '+' or '-' marker, no header, no "+++ ") advances `lineNo` by the number of '+' lines among them and sets the chunk's end to the last one's line; ' ' and '-' lines change nothing |
| Decorations.HunkClosed | src/outline.ts:423-430 | inside a hunk, a line without a marker, header or "+++ " closes the hunk and keeps the chunks |
| Decorations.HunkLinesCounted | src/outline.ts:411-430 | a header at S, any body lines with P '+' lines among them and a closing line give the chunk [S, S+P-1], or [S, -1] when P is 0, and close the hunk |
| Decorations.RunAsWrittenAppend | src/outline.ts:410 | the code's fold over two runs of lines is the fold over the second from where the first left off |
| Decorations.PlainAddedBody | src/outline.ts:423-427 | added lines without "+++ " are body lines, each of them counted |
| Decorations.AddedLinesExtend | src/outline.ts:422-428 | in the corrected scan, each added line sets the chunk's end to the current line and advances it |
| Decorations.HunkCounted | src/outline.ts:415-428 | in the corrected scan, a header at S followed by any k added lines gives the chunk [S, S+k-1], or [S, -1] for none |
| Decorations.NoHeaderWithoutAt | src/outline.ts:415 | a line without '@' is no hunk header |
| Decorations.DiffHeaderStart | src/outline.ts:415 | "@@ -0,0 +1,2 @@" is a hunk header starting at 1 and not a file header |
| Decorations.HeaderLine | src/outline.ts:415 | the header expression matches that line at 0 with start 1 |
| Decorations.SinglePlus | src/outline.ts:411 | that line contains no "+++ " |
| Decorations.AddedLinesShape | src/outline.ts:411-428 | "+a" and "+++ x" are both added lines, and only "+++ x" looks like a file header |
| Decorations.AsWrittenDropsLine | src/outline.ts:411-414 | as written, an added line containing "+++ " is skipped and the chunk ends one line early |
| Decorations.CorrectedKeepsLine | src/outline.ts:422-428 | with the file-header test only outside hunks, both added lines count |
| Decorations.AddedLineSkipped | src/outline.ts:410-441 | on the example diff the code highlights one line where two were added |
| DekuIntegration.ParseLine | src/DekuIntegration.ts:29-32 | one line of the tracefile against `^([\w/\.-]+):(\w+):(.+)$` |
| DekuIntegration.Parse | src/DekuIntegration.ts:27-33 | the entries of the matching lines, in order |
| DekuIntegration.Serialize | src/DekuIntegration.ts:36-41 | the text `save` writes |
| DekuIntegration.ColonFrom | src/DekuIntegration.ts:29 | the first ':' at or after an index, or the end |
| DekuIntegration.ParseLineSound | src/DekuIntegration.ts:29-32 | an accepted line is a well-formed entry whose serialisation is the line |
| DekuIntegration.ParseLineComplete | src/DekuIntegration.ts:29-32 | the serialisation of a well-formed entry is accepted as that entry |
| DekuIntegration.EntryLineParts | src/DekuIntegration.ts:39 | a written line is the file, a colon, the function, a colon and the pattern, at the positions the reader splits on |
| DekuIntegration.EntryLines | src/DekuIntegration.ts:38-40 | one line per entry |
| DekuIntegration.EntryLinesOneLine | src/DekuIntegration.ts:39 | a well-formed entry serialises without a newline |
| DekuIntegration.ParseEntryLines | src/DekuIntegration.ts:27-33 | parsing the entries' lines gives back the entries |
| DekuIntegration.ReadSaved | src/DekuIntegration.ts:25-42 | reading what `save` wrote gives back the list |
| DekuIntegration.FindIndex | src/DekuIntegration.ts:50-52 | `findIndex`: -1 exactly when no entry matches, otherwise the first match |
| DekuIntegration.SpliceOne | src/DekuIntegration.ts:54 | `splice(start, 1)`: one element less for a start in `[-len, len)`, none for a start past the end |
| DekuIntegration.SpliceLast | src/DekuIntegration.ts:54 | `splice(-1, 1)` drops the last element |
| DekuIntegration.RemoveAsWritten | src/DekuIntegration.ts:49-57 | `removeInspect` as written: `splice(idx, 1)` unless `idx` is 0 |
| DekuIntegration.RemoveAsWrittenQuirks | src/DekuIntegration.ts:53-56 | for any list: a first match at index 0 is kept, and with no match the last entry is dropped; the intended removal drops the first entry, and keeps the list |
| DekuIntegration.RemoveAsWrittenSingle | src/DekuIntegration.ts:53-56 | on one-entry lists the code keeps the matching entry and drops another |
| DekuIntegration.RemoveAsWrittenLater | src/DekuIntegration.ts:53-54 | as written, a first match past index 0 is removed as intended |
| DekuIntegration.RemoveAsWrittenAfterAdd | src/DekuIntegration.ts:44-57 | in the code, removing an entry just added gives back the list, except on an empty list, where the entry stays |
| DekuIntegration.RemoveFirst | src/DekuIntegration.ts:49-57 | the intended removal: one entry less when some entry matches, namely the first match; otherwise unchanged |
| DekuIntegration.RemoveFirstKeepsOthers | src/DekuIntegration.ts:54 | with the intended removal, the other entries keep their order |
| DekuIntegration.RemoveAfterAdd | src/DekuIntegration.ts:44-57 | with the intended removal, removing what was just added to a list without it gives back the list, and the entry is found at the end |
| DekuIntegration.InspectFiles.constructor | src/DekuIntegration.ts:23 | the list starts empty |
| DekuIntegration.InspectFiles.Read | src/DekuIntegration.ts:25-35 | `read` appends the parsed entries of the file's lines, in order, keeping the old ones |
| DekuIntegration.InspectFiles.Save | src/DekuIntegration.ts:36-42 | `save` writes each entry as `file:fun:pattern` and a newline, in order |
| DekuIntegration.InspectFiles.AddInspect | src/DekuIntegration.ts:44-47 | one entry is appended, and the new list is saved |
| DekuIntegration.InspectFiles.RemoveInspect | src/DekuIntegration.ts:49-58 | the list becomes `RemoveAsWritten` of the old one, the `if (idx)` quirks included, and the new list is saved |
| DekuIntegration.InspectFiles.IsInspected | src/DekuIntegration.ts:60-65 | holds exactly when some entry has that file and function |
| DekuIntegration.ResultLine | src/DekuIntegration.ts:77-80 | the result line is a single line |
| DekuIntegration.ResultLineOf | src/DekuIntegration.ts:77-80 | the last line, or the second-last when the last is empty and there are several |
| DekuIntegration.ResultLineLast | src/DekuIntegration.ts:78 | a reply ending in a non-empty line yields that line |
| DekuIntegration.ResultLineBeforeNewline | src/DekuIntegration.ts:79-80 | a reply ending in a newline yields the line before it |
| DekuIntegration.StripColour | src/DekuIntegration.ts:81-82 | `[0;` at index 1 drops the first 7 and the last 4 characters |
| DekuIntegration.LinesThen | src/DekuIntegration.ts:77 | two sequences of lines joined are lines |
| DekuIntegration.StripColoured | src/DekuIntegration.ts:81-82 | dropping the colour codes gives back the message |
| DekuIntegration.ColouredOneLine | src/DekuIntegration.ts:81 | a coloured one-line message is one line |
| DekuIntegration.Classify | src/DekuIntegration.ts:83-88 | "successfully" or "done" shows the result line itself; otherwise "No modules need to upload" shows the no-changes text; the error exactly when none of the three phrases occurs |
| DekuIntegration.DeployNotice | src/DekuIntegration.ts:77-88 | the notice for a reply: its result line, colour stripped, classified |
| DekuIntegration.DeployColouredReply | src/DekuIntegration.ts:77-88 | a reply whose last line is a coloured message is classified on the message |

## Left out

- I/O is replaced by its data. The ssh processes become the byte chunks their `data` events deliver. The files read and written become strings. `git diff` becomes its standard output, and the HTTP reply becomes its body. Process exit codes, stderr handling, the listener's reconnect logic and `console.log` are not modelled.
- Times are integers supplied by the caller. `(time * 1000000).toFixed(0)`, the `variables` view's division and the `toFixed` labels of the trial tree items are floating point.
- `Database` read queries (`getInspects`, `execSelectQuery`), the DROP/CREATE error reporting and `insertCb` are not modelled. The constructor yields the empty tables the CREATE statements build.
- Foreign keys are not guards: SQLite does not enforce them unless `PRAGMA foreign_keys` is on, and the code never turns it on.
- `Buffer.toString()` decodes UTF-8. The model decodes one byte to one character, so multi-byte characters are not modelled.
- `startTrial`'s `calledFrom` argument is accepted and ignored, as in the code.
- The `onFunctionTraced` and `onUpdated` callbacks are not called. The model returns the notices they would receive, and counts `onUpdated` firings in a ghost field.
- The `vscode` warning and information messages are returned as values, not shown.
- `runCommand` spawning, `reload` and `init` are not modelled. Neither is the `runListenenServer` start inside `traceFunctions`' completion handler.
- The regular expressions are hand-written matchers. Each is proved against a declarative statement of the matches a backtracking engine would choose. Regex objects, `lastIndex` and the engine itself are not modelled.
- `Array.prototype.sort` in `HistogramTreeProvider.getChildren` is modelled as insertion by count. The proved properties are a permutation and descending counts; the placement of equal counts is not stated.
- The `HistogramTreeProvider` tree-item cache, icons, commands, resource URIs and change events are not modelled. `getTreeItem` is modelled without the cache, so it always builds the item afresh.
- The remaining tree providers' item construction (icons, commands, context values) is not modelled. Only the ids or labels and the query each child request issues are. An element of `RegisteredInspectTreeProvider` without a label, on which `label!` throws, is not modelled.
- `decorateChanges` returns the zero-based line ranges. `setDecorations` and the `vscode.Range` objects are not modelled.
- `decorateChanges` aliases the last chunk through `chunk`. The model updates the last element of the chunk list. The two agree because `chunk` is always the last pushed chunk.
- The colour-code prefix test in `execDekuDeploy` looks for "[0;" at index 1. It is modelled literally, not as a terminal escape parser.
- `DEKUConfig`'s paths, address and port, `updateStatusBarItem` and the status bar are not modelled.
- server.c, the webview files, statusbar.ts, TreeDecorationProvider.ts and extension.ts are not part of this model.
- Text.Trim: states that the result is a slice with no white space at either end, not that it is the longest such slice.
- Text.Count: its contract only bounds the count. Its meaning is given by CountZero, CountAppend and the counting lemmas.
- OrderedMap.Get: its contract only says when the key is absent. The value is given by GetAt.
- Parser.BlockEnd: states that the brace scan stops on a '}' or at the last character, not that the brace depth is back to zero there.
- Parser.FirstMatch: its own contract states only that the match is real and not before the search position. Leftmost-ness is FirstMatchLeftmost.
- Ftrace.TimestampEnd: states only where the timestamp ends. Its shape is given by MatchCallSpec and the layout lemmas.
- Ftrace.Ftrace.OnProgressOutput: states which names the histogram holds afterwards, not the per-path lists. Each line's effect on those lists is OnTraceProgress's contract.
- Text.ParseInt: reads decimal text only. `Number.parseInt` without a radix reads a leading "0x" or "0X" as hexadecimal ("0x1f" is 31, "0x" alone is NaN), where the model reads 0. The modelled call sites only parse printed integers.
- Outline.HistogramTree.CollectTracked: copies each trace's count and parents into a value. The code pushes the `TracedFunction` object itself, so a trace chunk arriving between `getChildren` and `getTreeItem` changes the bullets and description the code shows, and not the model's.
- Outline.HistogramTree: the tracer is always present. The code's constructor accepts `undefined`, and `getChildren` and `getTreeItem` then throw on `this.ftrace!`.
- Parser.FunctionMapLookup: is about the corrected map `FunctionMap`, keyed by the captured name's own line. The map the code builds is `FunctionMapAsWritten`, described by FunctionMapAsWrittenLookup.
- Decorations.RunWellFormed: is about the corrected scan `Run`. The code's scan is `RunAsWritten`, and RunAsWrittenWellFormed states the same of it.
- Decorations.RunCons: unfolds the corrected scan `Run`. RunAsWrittenCons unfolds the code's scan.
- Decorations.AddedLinesExtend: is about the corrected scan, where any added line extends the chunk. In the code's scan only an added line without "+++ " does, which is AddedLinesExtendAsWritten.
- Decorations.HunkCounted: is about the corrected scan. For the code's scan HunkCountedAsWritten states the count for added lines without "+++ ".
- DekuIntegration.RemoveAfterAdd: is about the intended removal `RemoveFirst`. The code's removal is `RemoveAsWritten`, and RemoveAsWrittenAfterAdd states what it does to an entry just added.
- Outline.HistogramTree.GetTreeItem: builds the item afresh every time. The code instead returns a cached item for a name already shown, with only its description refreshed.

## Findings

| source | as written | input that shows it | evidently intended | confidence | as-written member | corrected member |
|---|---|---|---|---|---|---|
| src/parser.ts:77-79 | The line of a match is found with `funDef.indexOf(fun)`. That finds the first occurrence of the name anywhere in the match, including inside the return type. | The file "int\nin(void) {\n}\n": the name `in` first occurs inside `int`, so it is put under line 1. | The line number of the captured name itself: line 2. | not executed | Parser.NameFoundInReturnType | Parser.FunctionMapLookup |
| src/outline.ts:411-414 | Any line containing "+++ " is skipped before anything else, even inside a hunk. So an added line whose text begins with "++ " is dropped. | The diff lines "@@ -0,0 +1,2 @@", "+a", "+++ x": one line is highlighted where two were added. | The file-header test applies only outside a hunk, so both added lines are highlighted. | not executed | Decorations.AddedLineSkipped | Decorations.CorrectedKeepsLine |
| src/DekuIntegration.ts:53-54 | `if (idx)` tests the index's truthiness. A match at index 0 is never removed, and no match (-1) removes the last entry through `splice(-1, 1)`. | Removing the only entry of `[e]` leaves `[e]`; removing a missing entry from `[other]` leaves `[]`. | Remove the first match when there is one, and nothing otherwise. | not executed | DekuIntegration.RemoveAsWrittenQuirks | DekuIntegration.RemoveFirst |
