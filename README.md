# MostActiveCookie in Dafny

MostActiveCookie reads a cookie log and a target date and prints the cookie or
cookies that were most active on that date. The log has one `cookie,timestamp`
record per line, newest first. The program has three parts, and this project
models each one as a verified Dafny method next to a specification:

- **The log scanner** (`processLogFile`), in module `LogScanner`. It tallies
  per-cookie counts for the records of the target date. It skips lines that do
  not split into exactly two fields. It stops at the first record dated before
  the target. A timestamp that does not parse aborts it.
  `ProcessLogFile` is the loop, with its `break`. It is proved equal to `Scan`,
  which is built in two layers:
  - `Classify` is one pass of the loop body. It maps a line to a `Step`:
    skip, count a cookie, stop, or abort. `Steps` applies it to every line.
  - `Outcome` works on the steps alone. `Halt` is the index of the first
    step at which the loop breaks or throws. `Tally` is the count mapping of
    the cookies counted before it, built one occurrence at a time as the
    loop's `put` does. `TallyCountsOccurrences` proves that this mapping is
    the multiset of those cookies.

  The lemmas then state what the early exit does and does not change. The
  central one is `SortedScanIsFullTally`: on a log in descending order of
  the dates as written (`Descending`), the early-exit tally equals the full
  tally of the target date. `Descending` is not the same as the log being
  sorted by timestamp. The two agree only when all records share one UTC
  offset, as in the sample log. See "## Findings".
- **The maximum selector** (`mostActiveCookies`), in module `MaxSelector`.
  Its two passes over the map become two loops over the set of keys. The key
  to visit next is chosen by `:|`, because HashMap iteration order is
  unspecified. The method is proved to return each key once, and exactly the
  keys whose count equals `MaxCount`, the largest count but never below the
  initial 0.
- **Argument parsing and the rest of `main`**, in modules `Arguments` and
  `Command`. `ParseArgs` is the argument loop, specified by `FlagValue`: the
  argument after the last occurrence of a flag that has one. `RunCommand`
  models the dispatch in `main`: usage, invalid date, read error, the
  escaping timestamp exception, or the printed winners.

Module `Samples` holds the five-line log of the unit tests. It restates the
tests' scenarios as lemmas about the specification, and as methods that call
the modelled methods and prove their results.

Module `Findings` models offset date-times and their instants. It holds a
two-line log that shows what the early exit loses when records carry
different UTC offsets.

Things the model takes as parameters, because they are I/O or library parsing:
- `stamp`: `LocalDateTime.parse(text, ISO_OFFSET_DATE_TIME).toLocalDate()`,
  as a partial function to a `Date`.
- `parseDate`: `LocalDate.parse`.
- `readLog`: opening and reading the file, which gives the split lines or the
  failure's reason.

`String.trim` is modelled exactly: it removes leading and trailing characters
up to U+0020. `LocalDate.isBefore` is `Dates.Before`.

Where the design description and the code differ, the model follows the code:
- The date compared is the date as written in the timestamp. The code parses
  to `LocalDateTime` and takes `toLocalDate()`, so the offset is dropped, not
  normalised.
- A timestamp that does not parse is not recovered from. The exception is not
  an `IOException`, so it escapes `main`; this is the outcome `Crash`.
- `maxCount` starts at 0. A mapping whose counts are all negative therefore
  has no winner, and zero counts win when nothing is larger.
  `NegativeCountsNeverWin` states the first case. It covers the empty mapping
  too.

## Model

| member | source | states |
|---|---|---|
| LogScanner.TrimRemovesOuterBlanks | src/MostActiveCookie.java:61-62 | `trim` yields a contiguous part of the field. Everything before and after that part is a character up to U+0020, and the part itself neither starts nor ends with one |
| LogScanner.Classify | src/MostActiveCookie.java:59-69 | one loop iteration. It counts exactly the two-field lines whose timestamp parses to the target date, crediting the trimmed first field. It stops exactly at two-field records dated before the target. It aborts exactly on two-field lines whose timestamp does not parse |
| LogScanner.Halt | src/MostActiveCookie.java:58-69 | the index where the loop breaks or throws: no earlier step halts, and the step at that index (if any) does |
| LogScanner.ProcessLogFile | src/MostActiveCookie.java:52-75 | the loop with its `break` returns `Scan`. That is the per-cookie tally of target-date records before the halting line, or the abort with the text of an unparseable timestamp reached by the scan |
| LogScanner.TallySnoc | src/MostActiveCookie.java:65 | one more occurrence raises that cookie's count by one, from 0 when absent, and leaves the others alone (`getOrDefault(cookie, 0) + 1`) |
| LogScanner.TallyStep | src/MostActiveCookie.java:59-69 | one more step changes the tally exactly as the loop body's `put` does, and only for a counted step |
| LogScanner.TallyCountsOccurrences | src/MostActiveCookie.java:53-65 | the mapping the `put`s build has exactly the cookies that occur as keys, each mapped to its number of occurrences |
| LogScanner.OutcomeIgnoresSkip | src/MostActiveCookie.java:58-71 | a step that neither counts nor halts can be removed without changing the loop's outcome |
| LogScanner.OutcomeEndsAtStop | src/MostActiveCookie.java:66-68 | after a stop step, the remaining steps do not change the outcome |
| LogScanner.OutcomeAtAbort | src/MostActiveCookie.java:62 | an abort step with no halting step before it makes the outcome the failure with its text |
| LogScanner.ScanCountsWitnessed | src/MostActiveCookie.java:59-65 | every key in the returned map has count at least 1 and is the trimmed first field of a two-field target-date record in the scanned prefix. Every such record's cookie is a key |
| LogScanner.SkippedLineIgnored | src/MostActiveCookie.java:59-69 | removing a line that is neither counted nor halting leaves the scan's outcome unchanged |
| LogScanner.MalformedLineIgnored | src/MostActiveCookie.java:59-60 | a line without exactly two fields never changes the outcome, neither the map nor a failure |
| LogScanner.LaterRecordIgnored | src/MostActiveCookie.java:64-69 | a record dated after the target changes nothing and does not stop the scan |
| LogScanner.EarlierRecordStopsScan | src/MostActiveCookie.java:66-69 | after a record dated before the target, no later line contributes, not even one that would abort |
| LogScanner.BadTimestampAborts | src/MostActiveCookie.java:62 | a two-field line with an unparseable timestamp, reached by the scan, makes the scan fail with that timestamp's text instead of returning a map |
| LogScanner.NothingMatchesAfterStop | src/MostActiveCookie.java:67 | in a log descending by the dates as written, nothing after a record dated before the target is a target-date record. This order is timestamp order only when all records share one UTC offset |
| LogScanner.SortedScanIsFullTally | src/MostActiveCookie.java:64-68 | on a log in descending order of the dates as written, the early-exit tally equals the full tally of the target-date records over the whole log. With no unparseable timestamp the scan returns exactly that full tally |
| MaxSelector.MaxCount | src/MostActiveCookie.java:78-85 | the value `maxCount` reaches: at least 0, at least every count, and 0 or one of the counts |
| MaxSelector.MostActiveCookies | src/MostActiveCookie.java:77-93 | returns each key at most once, and a key is returned if and only if its count equals `MaxCount` |
| MaxSelector.WinnersAreMaximal | src/MostActiveCookie.java:87-91 | for non-negative counts, a key is returned if and only if no count exceeds its own, and some key is returned whenever the map is not empty |
| MaxSelector.NegativeCountsNeverWin | src/MostActiveCookie.java:78-85 | when every count is negative, or the map is empty, nothing is returned |
| Arguments.FlagValue | src/MostActiveCookie.java:19-25 | a flag has a value if and only if it occurs before the last position. The value is the argument after the last such occurrence |
| Arguments.ParseArgs | src/MostActiveCookie.java:16-30 | the loop yields both values if and only if `-f` and `-d` each occur with an argument after them; otherwise it is the usage case |
| Arguments.LaterFlagOverrides | src/MostActiveCookie.java:20-24 | a later `flag v` overrides every earlier occurrence of the flag, provided the flag is not repeated after it with an argument following |
| Arguments.FinalFlagIgnored | src/MostActiveCookie.java:20-22 | a flag in the last position, with no argument after it, changes nothing |
| Command.RunCommand | src/MostActiveCookie.java:14-50 | the outcomes of `main`, in order. Usage if a flag is missing; the invalid-date message if the date does not parse; the read error with its reason; the escaping exception for a bad timestamp; otherwise the printed cookies are exactly the winners of the scan's map, each once |
| Samples.SampleScanCountsTargetDay | test/MostActiveCookieTest.java:26-45 | on the sample log with target 2018-12-09, the scan halts at index 3 (the fourth line) with {AtY0laUfhglK3lC7: 2, SAZuXPGUrfbcn5UA: 1} |
| Samples.SampleScanNoMatches | test/MostActiveCookieTest.java:102-111 | on the sample log with target 2018-12-10, the scan halts at index 0 (the first line) with an empty map |
| Samples.OneMostActiveCookie | test/MostActiveCookieTest.java:58-66 | the counts {A: 2, S: 1} have the single winner A |
| Samples.MultipleMostActiveCookies | test/MostActiveCookieTest.java:68-76 | the counts {A: 2, S: 2} have the winners A and S |
| Samples.ProcessSampleLog | test/MostActiveCookieTest.java:34-46 | `ProcessLogFile` on the sample log returns the expected two-entry map |
| Samples.SelectOneMostActive | test/MostActiveCookieTest.java:58-66 | `MostActiveCookies` returns exactly `[A]` |
| Samples.SelectTiedMostActive | test/MostActiveCookieTest.java:68-76 | `MostActiveCookies` returns A and S, two elements, in one of the two orders |
| Samples.RunWithoutDate | test/MostActiveCookieTest.java:78-88 | `main` with `-f` only ends with the usage message |
| Samples.RunWithInvalidDate | test/MostActiveCookieTest.java:90-100 | `main` with `-d invalidDate` ends with the invalid-date message |
| Samples.RunWithMissingFile | src/MostActiveCookie.java:42-49 | `main` on a file that cannot be read ends with the read error and its reason |
| Samples.RunWithNoMatchingEntries | test/MostActiveCookieTest.java:102-112 | `main` on a date with no records prints nothing |
| Samples.RunOnSampleLog | test/MostActiveCookieTest.java:114-124 | `main` on the sample log and 2018-12-09 prints exactly AtY0laUfhglK3lC7 |
| Findings.MixedOffsetsLoseRecords | src/MostActiveCookie.java:62-68 | a two-line log that is newest first by instant but not descending by the dates as written: with target 2018-12-09 the scan returns no counts, while the log holds one record of that date |

## Left out

- File access: `BufferedReader`, `FileReader`, try-with-resources and closing the file. The log is a parameter that yields the lines or a failure reason. An `IOException` thrown part-way through reading is modelled as a read failure before the scan.
- Java `String.split(",")`, including its dropping of trailing empty strings. Lines are given already split into fields.
- Parsing of ISO 8601 date-times with offsets and of `yyyy-MM-dd` dates. Both are partial-function parameters. The sample module supplies their results on the texts the tests use.
- The text of the messages printed and of the exception. The outcome says which message or exception it is and carries the read-failure reason and the unparseable text.
- `System.out.println`. The printed cookies are the outcome's sequence, in the order the selector returned them.
- HashMap iteration order. The selector chooses the next key nondeterministically, so its properties are stated on the set of returned keys.
- LogScanner.ProcessLogFile: counts are unbounded naturals. The 32-bit `Integer` overflow after 2^31 - 1 records of one cookie is not modelled.
- Input immutability of `mostActiveCookies`: maps are values in the model, so the caller's map cannot change.

## Findings

| source | as written | input that shows it | evidently intended | confidence | as-written member | corrected member |
|---|---|---|---|---|---|---|
| src/MostActiveCookie.java:62-68 | the loop compares `toLocalDate()` of a `LocalDateTime` parsed with the offset dropped, and breaks at the first earlier date, on the grounds that the log is sorted by timestamp | the log `A,2018-12-08T23:00:00+00:00` then `B,2018-12-09T00:30:00+02:00` (23:00Z, then 22:30Z: newest first) with date 2018-12-09: the scan breaks at the first line and returns an empty map, and the record of B is lost | the early exit loses nothing: the returned counts are the full tally of the target date. That holds when the log is descending by the dates it compares, which timestamp order gives only when all records share one offset | not executed; high (the counterexample is proved) | Findings.MixedOffsetsLoseRecords | LogScanner.SortedScanIsFullTally |
