# dataAnalysis: site-user statistics, modelled in Dafny

The program reads a pipe-delimited file of daily sign-up counts, and optionally a second file of daily active-user counts. It groups both by calendar month. For each month of sign-ups it computes the total, the mean and the median, and for each month of active users the mean and the median. It then writes a tab-delimited report.

The model covers:

- the line parser (`readPipeDelimited` in `helpers.js`);
- the in-place `median`;
- the aggregation and merge of `createResult`;
- the text `writeResultFile` builds;
- the command-line dispatch in `getSummary.js`, together with that file's own `readPipeDelimited`, which stores records by `type`.

Modules:

- `Outcomes`: `Option`, and the ways a callback-style operation ends. The callback gets a value, gets an error, is never invoked, or the process exits first.
- `Text`: the JavaScript string operations used, on a one-character separator:
  - `split` and `replace(/,/g, '')`;
  - the decimal text of an integer.

  `Join`, which the source does not call, is the model's inverse of `split`; it states the header and row texts. Each operation comes with its round trips.
- `Median`: `median`, an insertion sort in place on an `array<int>`, specified against a functional sorted arrangement.
- `Parser`: the parsing loop of `readPipeDelimited`, with the keep/drop rule.
- `Aggregate`: the two MongoDB pipelines as functions over `(month, count)` records, plus the median pass and the merge as loops. `CreateResult` ties them together.
- `Report`: the `contents +=` loop and `writeResultFile`, with the proof that the contents split back into the header and the row fields.
- `Cli`: the `argv` classifier as written and as intended, the exit codes, and the typed read of `getSummary.js`.

Three behaviours of the code are worth knowing:

- **Merge keying.** The merged table has one row per *active-user* month. A month with signups but no active users has no row. A month with active users but no signups has a row without signups fields. (`CombinedReport`, `CombinedKeyedByActives`, `MergeExample`.)
- **Keep rule.** A line is kept exactly when it contains a `'|'`. Empty fields are kept, so `"|"` becomes an entity with an empty date and an empty count. The dropped line left by a trailing newline is the empty string.
- **Header-only file.** A file that is only a header, with no `'\n'` at all, never reaches the callback (`NeverCalled`). A header followed by one `'\n'` delivers no entities and one drop (`HeaderWithNewline`).

## Model

| member | source | states |
|---|---|---|
| Text.Split | helpers.js:184 | `split('\n')` and `split('|')` give one piece more than there are separators, and no piece holds the separator |
| Text.SplitJoin | helpers.js:190 | splitting the join of separator-free pieces gives the same pieces back |
| Text.JoinSplit | helpers.js:184 | joining the pieces of a split restores the text |
| Text.SplitConcat | helpers.js:184 | splitting at one separator splits the two sides independently |
| Text.RemoveAll | helpers.js:194 | `replace(/\,/g,'')` leaves no comma |
| Text.RemoveAllLength | helpers.js:194 | the replacement removes exactly the commas: the length drops by the number of commas |
| Text.RemoveAllAbsent | helpers.js:194 | text without commas is unchanged by the replacement |
| Text.RemoveAllAppend | helpers.js:194 | the replacement works piece by piece, so all other characters keep their order |
| Text.IntStr | helpers.js:283 | an integer written into the contents is a minus sign or decimal digits, never empty |
| Text.IntStrValue | helpers.js:283 | reading back the decimal text of an integer gives the integer |
| Median.Median | helpers.js:21-29 | leaves `values` sorted ascending and a permutation of its old contents, and returns the median of the old contents |
| Median.Sort | helpers.js:22 | the in-place sort with `a-b` leaves the array ascending and a permutation of what it held |
| Median.SiftDown | helpers.js:22 | one insertion step extends the sorted prefix by one; the prefix keeps its multiset and every element after it is untouched |
| Median.MedianOfSorted | helpers.js:23-28 | the element at `floor(n/2)`, or the rounded mean of the two elements around it, lies between the first and the last element of an ascending sequence |
| Median.MedianOf | helpers.js:21-28 | the median of a non-empty sequence lies between the least and the greatest element of its sorted arrangement |
| Median.SortedSeq | helpers.js:22 | the reference arrangement is ascending and has the same multiset as its input |
| Median.SortedUnique | helpers.js:22 | two ascending arrangements of the same values are equal, so the sort algorithm cannot change the median |
| Median.MedianOfArrangement | helpers.js:23-28 | the middle element, or the rounded mean of the two middle ones, of any ascending arrangement is `MedianOf` |
| Median.RoundedMean | helpers.js:27 | `Math.round((a+b)/2)` is the half of `a+b` or of `a+b+1`; halves round up |
| Median.MedianBounds | helpers.js:23-28 | the median lies between the least and the greatest value; for odd length it is one of the values; for even length it is `(t[n/2-1]+t[n/2]+1) div 2` of the sorted values |
| Median.MedianOddExample | helpers.js:22-25 | `[3,1,2]` has median 2 |
| Median.MedianEvenExample | helpers.js:22-27 | `[4,1,3,2]` has median `Math.round(2.5)`, which is 3 |
| Parser.ParseLine | helpers.js:190-195 | a line is kept if and only if it contains `'|'`; the kept date holds no `'|'` and the kept count holds no comma |
| Parser.ParseLineFields | helpers.js:190-195 | the date is the text before the first `'|'`; the count is the text up to the second `'|'` with commas removed; later fields are ignored |
| Parser.ReadLines | helpers.js:189-198 | the loop skips line 0 and yields `Entities`/`Drops` of the remaining lines; entities plus drops equals the line count minus one |
| Parser.ReadPipeDelimited | helpers.js:178-210 | an unreadable file gives an error; text without `'\n'` never calls back; otherwise the callback gets the entities and drops of the lines after the header |
| Parser.Entities | helpers.js:189-198 | there are at most as many entities as lines, and no entity's date holds `'|'` and no count holds a comma |
| Parser.Drops | helpers.js:189-198 | there are at most as many drops as lines, and none exactly when every line contains `'|'` |
| Parser.EntitiesPlusDrops | helpers.js:189-198 | every line after the header yields exactly one entity or exactly one drop |
| Parser.EntitiesAppend | helpers.js:192 | entities keep file order: those of two runs of lines are concatenated |
| Parser.HeaderWithNewline | helpers.js:184-198 | a header with one trailing newline leaves one empty line, which is dropped |
| Parser.CommaExample | helpers.js:194 | `<date>|1,234` becomes count `1234` |
| Parser.CommaRemoved | helpers.js:194 | removing the one comma of a count keeps the characters on both sides of it, in order |
| Aggregate.Sum | helpers.js:50-52 | `$sum` of non-negative counts is non-negative |
| Aggregate.Mean | helpers.js:53-55 | `$avg` (also lines 111-113), exactly: the mean times the number of values is their sum |
| Aggregate.SignupStatsOf | helpers.js:48-58 | a signups month's average is its total divided by its number of days |
| Aggregate.ActiveStatsOf | helpers.js:108-116 | an active-user month's average is the sum of its daily counts divided by its number of days |
| Aggregate.Months | helpers.js:48-67 | the month keys of `$group` then `$sort` are strictly ascending and are exactly the months that occur |
| Aggregate.MonthsEmpty | helpers.js:75-85 | there are no month groups exactly when there are no records |
| Aggregate.Daily | helpers.js:56-58 | `$push` has values for a month exactly when that month occurs |
| Aggregate.SignupAggregation | helpers.js:42-67 | one group per month, each with a non-empty `dailySignups` |
| Aggregate.ActiveAggregation | helpers.js:102-124 | one group per active-user month, each with a non-empty `dailyActives` |
| Aggregate.SignupsReport | helpers.js:42-97 | one line per signups month, ascending, with that month's total, mean and median, and no active-user fields |
| Aggregate.CombinedReport | helpers.js:102-145 | one line per active-user month, ascending, with that month's active-user mean and median; signups fields only when the signups have that month |
| Aggregate.MedianPass | helpers.js:75-84 | `sResult[i]` copies the month, total and mean of `data[i]` and adds the median of its daily values |
| Aggregate.Merge | helpers.js:131-145 | `combined[j]` has the month and active-user stats of `aData[j]` and the signups fields of the last `sResult` row with that month |
| Aggregate.LastMatch | helpers.js:140-145 | when some row has the month, the copied signups fields are those of a row with that month after which no row has it |
| Aggregate.LastMatchUnique | helpers.js:140-145 | among rows with pairwise distinct months, the copied signups fields are those of the one matching row |
| Aggregate.LastMatchAbsent | helpers.js:140-145 | with no matching row no signups fields are copied |
| Aggregate.LastMatchStep | helpers.js:140-145 | each further row of the month overwrites the signups fields copied so far |
| Aggregate.MergedSignups | helpers.js:140-145 | over the signups report, a month gets that month's signups fields when the signups have it, and none otherwise |
| Aggregate.MedianOfField | helpers.js:78 | `median` of a group's daily values returns the median of those values |
| Aggregate.SignupRowsAreReport | helpers.js:75-84 | the median pass over the first pipeline gives `SignupsReport` |
| Aggregate.MergedRowsAreReport | helpers.js:131-145 | the merge over the second pipeline gives `CombinedReport` |
| Aggregate.CreateResult | helpers.js:38-169 | no signups means no callback; `'signups'` delivers `SignupsReport`; any other type delivers `CombinedReport`, or no callback without active-user records |
| Aggregate.TotalsConserved | helpers.js:50-52 | the `total_signups` of all lines add up to the sum of all signup counts |
| Aggregate.CombinedKeyedByActives | helpers.js:133-145 | a signups-only month has no row; an active-user-only month has a row without signups fields |
| Aggregate.MergeExample | helpers.js:133-145 | signups in months 1 and 2 and active users in months 2 and 3 give exactly two rows, for months 2 and 3 in that order; month 2 has signups fields and month 3 has none |
| Aggregate.SignupsExample | helpers.js:42-97 | January counts 100 and 200 and a February count of 50 give `(300, 150, 150)` and `(50, 50, 50)` |
| Report.HeaderFields | helpers.js:281 | four column names for `'signups'`, six otherwise, starting with `month` |
| Report.HeaderLine | helpers.js:281 | the header line of the type starts with `month` and a tab and ends with a newline; with `SignupsHeaderText` and `ActivesHeaderText` it is the literal of line 281 for `'signups'` and of line 296 otherwise |
| Report.SignupsHeaderText | helpers.js:281 | the signups header line is the literal of line 281 |
| Report.ActivesHeaderText | helpers.js:296 | for any other type the header line is the literal of line 296 |
| Report.IntText | helpers.js:283-284 | `+` of an integer field holds no tab and no newline, and is `undefined` exactly when the field is absent |
| Report.RealText | helpers.js:284 | `+` of an average field holds no tab or newline when the number rendering holds none, and is `undefined` when the field is absent |
| Report.RowText | helpers.js:283-284 | a row text starts with the month and a tab and ends with a newline |
| Report.Document | helpers.js:278-300 | the contents start with the header line of the type and end with a newline |
| Report.Fields | helpers.js:283-284 | a row's texts follow the header's column order; absent fields are `undefined` |
| Report.SignupsRowParts | helpers.js:283-284 | for `'signups'`, the tab-joined field texts plus `'\n'` are what the two `contents +=` statements append |
| Report.ActivesRowParts | helpers.js:298-300 | for any other type, the tab-joined field texts plus `'\n'` are what the three `contents +=` statements append |
| Report.AppendLine | helpers.js:297-300 | one `forEach` step appends exactly the row text of its line |
| Report.StartContents | helpers.js:278-296 | the contents start as the header line of the type: the four-column literal for `'signups'`, the six-column literal for any other type |
| Report.RenderContents | helpers.js:278-300 | the contents are the header for `type` followed by the row text of every result line, in order |
| Report.ContentsLines | helpers.js:278-300 | splitting the contents on `'\n'` gives the header, one line per result line and a final empty piece; each line splits on `'\t'` into the header's column names or the row's fields |
| Report.ColumnsReadBack | helpers.js:283-300 | the month, total and median columns read back as the integers they render |
| Report.WriteResultFile | helpers.js:271-313 | the callback fires only when `createResult` delivers rows; it receives `output.txt` with the rendered contents, or the write error |
| Cli.TypeOf | getSummary.js:163 | `typeof` is `undefined` exactly for the undefined value, and is never the empty string |
| Cli.TypeOfTruthy | getSummary.js:166 | whatever `typeof` returns is truthy, so `if (typeof (v !== 'undefined'))` takes its branch for every `v` |
| Cli.ArgValue | getSummary.js:139 | `process.argv[i]` is the string at `i` within the list and `undefined` beyond it |
| Cli.Dispatch | getSummary.js:140-215 | as written, with `IsHelp` for the `case` labels of lines 141-142 and `IsActiveFlag` for the test of line 165: `--help`/`-h` give help whatever follows; any other fourth argument is invalid; `-a`/`--active` always read both files, even without a fifth argument; otherwise one file or no input; the missing-file branch is never taken |
| Cli.DispatchIntended | getSummary.js:163-189 | with the test on line 166 as intended, a flag without a file name reports the missing file, and `Both` always names the fifth argument |
| Cli.FlagWithoutFile | getSummary.js:166 | `node getSummary.js signups.txt -a` reads both files, passing `undefined`, as written; the intended dispatch reports the missing file |
| Cli.DispatchDiffers | getSummary.js:163-189 | the as-written and intended dispatches differ exactly on a flag without a file name |
| Cli.ExitOrRead | getSummary.js:140-215 | with the intended dispatch, a command line that goes on to read names every file it reads; every other command line exits at once, with 0 only for help |
| Cli.ImmediateExit | getSummary.js:157-212 | only the two reading commands continue; help exits with 0 |
| Cli.ReadTyped | getSummary.js:50-127 | an unknown type is an error; a failed clear is an error; an unreadable file exits with 1; text without `'\n'` never calls back; otherwise the entities of the lines after the header are passed to `save()` for the collection of `type`, and those entities plus the drops equal the line count minus one |

## Left out

- File and database I/O are parameters, not modelled operations:
  - the file contents are an `Option<string>` (`None` when the read fails);
  - the success of `find().remove()` is `clearOk`;
  - the success of `fs.writeFileSync` is `writeOk`.

  `mongoose.connect`, `save()` (including the "Result not saved" tolerance) and the `Input.aggregate` call are replaced by the pipelines' meaning as functions. The call's error path is dropped: the source passes an aggregation error on with `callback(err, null)` (helpers.js:71-72, 127-128), and `writeResultFile` forwards it (helpers.js:275-276), but `Aggregate.CreateResult` never gives `Err`, so the `Err` case of `Report.Forward` does not arise. `ingestSignups` and `ingestBoth` only save a document and are not modelled.
- Dates: converting a date string to a `Date`, and the time zone `$month` uses, are not modelled. Records carry their month (1 to 12) directly. Converting a count string to a number is also not modelled: an `Aggregate.Record` count is an integer.
- Floating point: averages are exact `real` values. JavaScript's rendering of a number is the parameter `showReal`. The median of integers is an integer, so it needs no parameter.
- Number width: counts, totals and medians are unbounded integers. JavaScript numbers are doubles, so sums above 2^53 round. `String(n)` writes exponent form from 1e21 up (`"1e+21"`), which `Text.IntStr` does not. This concerns `$sum` (helpers.js:50-52), the median's `a+b` (helpers.js:27) and the integer texts of the report.
- Callbacks: in `readPipeDelimited` (helpers.js:181-208) and `writeResultFile` (helpers.js:286-290 and 302-307) the success callback runs inside a `try`. If that callback throws, the `catch` calls it a second time, with the error. The model's outcome is the first call only.
- Callbacks, `console.log` output, the help text, the `setTimeout` waits and `process.exit` other than as an outcome are not modelled. The drop message (including its wording for the signups file) is not modelled either.
- Median.Median: requires a non-empty array. For an empty array the source returns `NaN`. Every caller in the model passes a non-empty month group.
- Aggregate.MedianPass and Aggregate.Merge: require non-empty daily values for every group. The pipelines always produce these.
- The `writeResultFile` stub in getSummary.js (lines 129-133) and the `// TODO` aggregation after the reads (lines 178-181, 204-207) do nothing, so they are not modelled. After the dispatch, only the reads are.
- Cli.Dispatch: a `Both` command with an absent active-users file ends in whatever `fs.readFile(undefined, ...)` does. That happens after the signups read, and it is not modelled.
- The models/*.js schema declarations only shape the datatypes.

## Findings

| source | as written | input that shows it | evidently intended | confidence | as-written member | corrected member |
|---|---|---|---|---|---|---|
| getSummary.js:166 | `typeof(args[4]!=='undefined')` is the type of a boolean: the truthy string `"boolean"`. The test always passes, and lines 186-189 are unreachable | `node getSummary.js signups.txt -a` reads both files with `undefined` as the active-users file | `typeof(args[4])!=='undefined'`, which reports "must include filename" and exits with 1 | high; not executed | Cli.Dispatch, Cli.FlagWithoutFile | Cli.DispatchIntended, Cli.ExitOrRead |
