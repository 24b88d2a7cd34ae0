# verixfer, modelled in Dafny

verixfer checks the lines of an xferlog, the transfer log that glftpd and
wu-ftpd write. Its core is `process_line`. The function copies a line with
`strcpy` and cuts it into tokens with `strtok`: the delimiter is `" "`,
except for the hour and the minute, which end at `":"`. It checks the 19
fields from left to right:

- weekday and month against fixed tables;
- day, hour, minute, second, year, transfer time and file size with
  `strtoll`, under range, leftover-character and `errno` tests, plus a width
  test for the hour, minute and second;
- transfer mode, special action flag, direction, access mode and
  authentication method as single characters;
- host, path, user, group and ident only for being present.

A token after field 19 counts as field 20. The result is 0 for a good line,
and otherwise the number of the first field that fails. `main` numbers the
lines of the log and prints `<line>-<field>: <text>` for each line that fails.

The model has these modules:

- `Wrappers` holds `Option`.
- `CStrings` models `strspn`, `strcspn` and the copy `strcpy` makes. `Span`
  and `CSpan` are reference functions; `SpanLoop`, `CSpanLoop` and
  `CString` are the operations.
- `Tokenizer` models one `strtok` call. The hidden static cursor becomes an
  index `pos` that the caller passes in and gets back. `Strtok` is the
  reference; `NextToken` is the scanning method.
- `Numbers` models `strtoll`. `Decimal` is the reference reading of a whole
  token. `Strtoll` is the digit-accumulating method: it clamps to the
  `long long` range and reports ERANGE as the out-parameter `erange`.
- `Verixfer` holds:
  - the tables and the per-field rule `FieldOk`;
  - the reference result `Validate` (through `ValidateFrom`);
  - `ProcessLine`, an imperative chain of early-return field blocks
    (`Field`, `CheckToken`, `NumberField`, `FindName`) proved equal to
    `Validate`;
  - `ReportInvalid`, main's loop over the lines, proved equal to
    `ReportsFrom`.
- `VerixferProperties` states what `Validate` means:
  - it is the first failing check on the line's tokens;
  - a line joined from its fields tokenizes back into them;
  - it gives consequences for missing, bad and extra fields, and for
    main's reports.
- `VerixferExamples` applies these to concrete log entries.
- `VerixferFindings` models the hour/minute/second width test as written.

## Model

| member | source | states |
|---|---|---|
| CStrings.Span | xferlog_verification/verixfer.c:37 | strspn inside strtok: the end of the maximal run of delimiters from the cursor, every character before it a delimiter and the one at it not |
| CStrings.CSpan | xferlog_verification/verixfer.c:37 | strcspn inside strtok: the first delimiter at or after the token start, or the end of the copy, with no delimiter before it |
| CStrings.SpanLoop | xferlog_verification/verixfer.c:37 | the position strtok skips to is the end of the maximal run of delimiters from the cursor: everything before it is a delimiter, and the character at it is not |
| CStrings.CSpanLoop | xferlog_verification/verixfer.c:37 | a token ends at the first delimiter after its start, or at the end of the copy |
| CStrings.SpanUnique | xferlog_verification/verixfer.c:37 | the delimiter run that strtok skips is determined uniquely by its two defining facts |
| CStrings.CSpanUnique | xferlog_verification/verixfer.c:37 | the token extent is determined uniquely by its two defining facts |
| CStrings.CString | xferlog_verification/verixfer.c:34 | the copy is a prefix of the line that holds no NUL, and it stops only at a NUL of the line |
| CStrings.CStringWhole | xferlog_verification/verixfer.c:34 | a line without NUL is copied whole |
| Tokenizer.Strtok | xferlog_verification/verixfer.c:37 | a call moves the cursor forward and stays within the copy; no token leaves the cursor at the end; a token is non-empty |
| Tokenizer.StrtokFacts | xferlog_verification/verixfer.c:37 | there is no token exactly when only delimiters remain, and a token holds no delimiter |
| Tokenizer.StrtokAt | xferlog_verification/verixfer.c:46 | a delimiter-free text that stands at the cursor and is followed by a delimiter or the end is exactly the token read, and the cursor lands just past its delimiter |
| Tokenizer.NextToken | xferlog_verification/verixfer.c:66 | the scanning loops yield the token and cursor of the strtok reference step |
| Numbers.Decimal | xferlog_verification/verixfer.c:59-60 | the reference reading of a whole token as strtoll accepts it: white space, an optional sign and at least one digit up to the end, as the signed value of the digits; None otherwise |
| Numbers.ReadDigits | xferlog_verification/verixfer.c:59 | the digit loop stops at the end of the digit run and has accumulated the decimal value of the run |
| Numbers.Strtoll | xferlog_verification/verixfer.c:57-60 | `e` ends the longest prefix that is a decimal subject sequence (0 when there is none); the value is that prefix's, clamped to the `long long` range, with ERANGE exactly when it is out of range; for a non-empty token, "nothing left over and no ERANGE" holds exactly when the whole token is a representable number |
| Numbers.Clamp | xferlog_verification/verixfer.c:59 | an overflowing value becomes the nearest `long long` bound, and a representable one is kept |
| Numbers.DecimalOfPrefix | xferlog_verification/verixfer.c:59 | a prefix is a subject sequence exactly when it ends after the white space and sign and inside the digit run, and then its value is the signed value of its digits |
| Numbers.SubjectIsLongest | xferlog_verification/verixfer.c:59-60 | the prefix that ends where strtoll stops is accepted, and no longer prefix is |
| Numbers.ConversionFacts | xferlog_verification/verixfer.c:60 | from strtoll's outputs: there is no leftover and no ERANGE exactly when the whole token is a representable number, and then the value is that number |
| Numbers.DecimalOfForm | xferlog_verification/verixfer.c:59 | white space, an optional sign and a digit run, to the end of the token, read as the signed value of the digits |
| Numbers.DecimalShape | xferlog_verification/verixfer.c:60 | a token accepted whole ends in a digit and has a digit right after its white space and sign |
| Verixfer.Weekdays | xferlog_verification/verixfer.c:19-20 | the seven weekday names of the weekday table, in its order |
| Verixfer.Months | xferlog_verification/verixfer.c:17-18 | the twelve month names of the month table, in its order |
| Verixfer.Delim | xferlog_verification/verixfer.c:37-88 | the delimiter of each strtok call: ":" for the hour and the minute, " " for every other field |
| Verixfer.FieldOk | xferlog_verification/verixfer.c:39-174 | the rule of each field: weekday and month in their tables, day 0..31, hour 0..24 and minute and second 0..60 with two characters, year 1980..2100, transfer time and size 0 up to the `long long` maximum, mode a/b, flag _, direction i/o, access r, authentication 0/1, and any token for host, path, user, group and ident |
| Verixfer.NumberField | xferlog_verification/verixfer.c:55-63 | the strtoll block (errno cleared, then reject on leftover, below lo, above hi, or ERANGE) accepts exactly the tokens that read whole as a representable number within lo..hi |
| Verixfer.FindName | xferlog_verification/verixfer.c:39 | the lookup loop stops at the first table entry equal to the token, or after the table when there is none |
| Verixfer.CheckToken | xferlog_verification/verixfer.c:36-179 | the check each block applies to its token is the field rule: table membership, numeric ranges, the two-character width for hour, minute and second, and the single-character sets |
| Verixfer.Field | xferlog_verification/verixfer.c:46-52 | one block either returns its field number, which is then the line's result, or passes the line on to the next field from the new cursor |
| Verixfer.ValidateFrom | xferlog_verification/verixfer.c:36-186 | reading fields k..20 gives 0 or a field number from k to 20 |
| Verixfer.Validate | xferlog_verification/verixfer.c:27-187 | the result of a line is 0 or a field number up to 20 |
| Verixfer.ProcessLine | xferlog_verification/verixfer.c:27-187 | the early-return chain over fields 1..19 and the end-of-line test returns the reference result of the line |
| Verixfer.ReportInvalid | xferlog_verification/verixfer.c:215-221 | main's loop produces the report list of the log, line numbers counted from 1 over every line |
| Verixfer.ReportsFrom | xferlog_verification/verixfer.c:215-221 | there is at most one report per line |
| VerixferProperties.Scan | xferlog_verification/verixfer.c:37-182 | a line yields at most one token per remaining field plus one extra, all non-empty |
| VerixferProperties.Tokens | xferlog_verification/verixfer.c:34-182 | the tokens process_line's strtok calls see on the copy, at most 20: one per field and one extra |
| VerixferProperties.ValidateFromTokens | xferlog_verification/verixfer.c:36-186 | reading fields through the strtok cursor gives the first failing check on the token list |
| VerixferProperties.FirstFailureMeaning | xferlog_verification/verixfer.c:36-186 | the first-failure result is 0 exactly when every check passes, and otherwise it is a check that fails, all earlier ones passing |
| VerixferProperties.ValidateIsFirstFailure | xferlog_verification/verixfer.c:27-187 | process_line's result depends on the line only through its tokens |
| VerixferProperties.FirstFailingField | xferlog_verification/verixfer.c:27-187 | a line is valid exactly when all 19 fields are present and pass and no 20th token follows; otherwise the result is the first field whose check fails |
| VerixferProperties.Truncated | xferlog_verification/verixfer.c:36-179 | a line whose tokens stop after k-1 passing fields is rejected at field k |
| VerixferProperties.EndOfLine | xferlog_verification/verixfer.c:181-186 | when fields 1..19 pass, the result is 20 exactly when another token follows, and 0 otherwise |
| VerixferProperties.EarlierFailureWins | xferlog_verification/verixfer.c:27-187 | when check k fails, the result is a field no later than k, so a bad field before an extra token is what gets reported |
| VerixferProperties.DigitsInRange | xferlog_verification/verixfer.c:57-60 | a plain digit string whose value lies in lo..hi passes the numeric test |
| VerixferProperties.JoinableTail | xferlog_verification/verixfer.c:37-182 | the fields after the first still respect the delimiters of their own positions |
| VerixferProperties.JoinableUpdate | xferlog_verification/verixfer.c:37-182 | replacing one field by a non-empty text free of NUL and of that field's delimiter keeps the line joinable |
| VerixferProperties.JoinFromNoNul | xferlog_verification/verixfer.c:34 | a joined line holds no NUL, so strcpy copies it whole |
| VerixferProperties.JoinStep | xferlog_verification/verixfer.c:37-182 | one strtok call on a joined line yields its first field and leaves the cursor at the start of the remaining fields |
| VerixferProperties.ScanJoin | xferlog_verification/verixfer.c:37-182 | scanning a joined line gives back its fields, and the call after the last field finds nothing |
| VerixferProperties.TokensOfJoin | xferlog_verification/verixfer.c:34-182 | round trip: the tokens of a line joined from up to 20 fields are exactly those fields |
| VerixferProperties.JoinedLine | xferlog_verification/verixfer.c:27-187 | a joined line is judged on its own fields: its result is the first-failure result of the field list |
| VerixferProperties.WellFormedLine | xferlog_verification/verixfer.c:36-186 | a line of 19 joined fields is valid exactly when every field passes its rule |
| VerixferProperties.TruncatedLine | xferlog_verification/verixfer.c:36-179 | a joined line of fewer than 19 passing fields fails at the first missing field |
| VerixferProperties.JoinedFailsAt | xferlog_verification/verixfer.c:36-179 | a joined line whose first k-1 fields pass and whose field k fails gives k, whatever follows |
| VerixferProperties.ExtraTokenLine | xferlog_verification/verixfer.c:181-184 | nineteen passing fields followed by any further token give 20 |
| VerixferProperties.ReportsSound | xferlog_verification/verixfer.c:217-220 | every report names a line of the log and carries that line's number, its non-zero result and its text |
| VerixferProperties.ReportsOrdered | xferlog_verification/verixfer.c:215-221 | reports come in strictly increasing line order |
| VerixferProperties.Reported | xferlog_verification/verixfer.c:218-220 | a line with a non-zero result is reported with its number, result and text |
| VerixferProperties.ReportsComplete | xferlog_verification/verixfer.c:215-221 | every failing line from the given index on is among the reports |
| VerixferProperties.ReportsMeaning | xferlog_verification/verixfer.c:215-221 | main's output is exactly the failing lines, each with its number, result and text, in log order |
| VerixferExamples.GoodJoinable | xferlog_verification/verixfer.c:37-182 | the fields of a sample entry can be joined into a line |
| VerixferExamples.GoodTimeNumbers | xferlog_verification/verixfer.c:54-96 | the day and time fields of the sample entry (01, 00, 05, 30) pass their numeric tests |
| VerixferExamples.GoodTransferNumbers | xferlog_verification/verixfer.c:98-134 | the year, transfer time and size of the sample entry (2016, 0, 1024) pass their numeric tests |
| VerixferExamples.GoodFieldsPass | xferlog_verification/verixfer.c:36-179 | every field of the sample entry passes its rule |
| VerixferExamples.GoodLineValid | xferlog_verification/verixfer.c:27-187 | the sample line "Mon Jan 01 00:05:30 2016 0 example.com 1024 /path/file.txt b _ i r user group 0 ident" is accepted |
| VerixferExamples.MonthNotInTable | xferlog_verification/verixfer.c:46-52 | a month outside the table ("Jän") fails at field 2 |
| VerixferExamples.HourAccepts | xferlog_verification/verixfer.c:66-72 | the hour test accepts "24", " 5", "+5" and "-0": two characters, white space and sign included |
| VerixferExamples.HourRejects | xferlog_verification/verixfer.c:66-72 | the hour test rejects "25" (range), "5" and " 00" (width), "-1" (below 0) and "5x" (leftover) |
| VerixferExamples.UpperBounds | xferlog_verification/verixfer.c:54-96 | minute and second accept 60 and reject 61; the day accepts 31 and rejects 32 |
| VerixferExamples.DayOutOfRange | xferlog_verification/verixfer.c:54-63 | day 32 fails at field 3 |
| VerixferExamples.ModeNotAOrB | xferlog_verification/verixfer.c:141-144 | transfer mode "x" fails at field 12 |
| VerixferExamples.HourOneDigit | xferlog_verification/verixfer.c:71 | a one-digit hour inside a full line fails at field 4 |
| VerixferExamples.HourAfterTwoSpaces | xferlog_verification/verixfer.c:66-72 | two spaces before "00:" give the three-character hour " 00", which fails at field 4 |
| VerixferExamples.HourSpaceDigit | xferlog_verification/verixfer.c:66-72 | two spaces before "5:" give the hour " 5", which passes, so the line is valid |
| VerixferExamples.NewlineInLastField | xferlog_verification/verixfer.c:171-174 | a line that ends after field 18 leaves the newline in that token, so it fails at field 18 |
| VerixferExamples.CutAfterSize | xferlog_verification/verixfer.c:136-139 | a line cut after the file size, with no trailing newline (as the last line of a log may be), fails at field 11 |
| VerixferExamples.CutAfterSizeWithNewline | xferlog_verification/verixfer.c:125-134 | the same line with getline's newline fails at field 10: the newline stays in the size token and strtoll leaves it over |
| VerixferExamples.SpaceBeforeNewline | xferlog_verification/verixfer.c:181-184 | a space before the newline leaves "\n" as a 20th token, which gives 20 |
| VerixferExamples.BadMonthAndExtraToken | xferlog_verification/verixfer.c:45-52 | a bad month together with an extra token gives 2, not 20 |
| VerixferExamples.BlankLine | xferlog_verification/verixfer.c:36-43 | a blank line fails at field 1 |
| VerixferExamples.BlankLineReported | xferlog_verification/verixfer.c:215-221 | a blank line anywhere in the log is reported with its own number and field 1 |
| VerixferFindings.Tok2AsWritten | xferlog_verification/verixfer.c:71 | the byte `tok[2]` reads once strtok has cut the token out: inside the token, the NUL after a two-character token, the byte after the NUL of a one-character token (the copy's terminator when the delimiter was its last character), or None past the copy |
| VerixferFindings.WidthAsWritten | xferlog_verification/verixfer.c:71 | the width test as written accepts two-character tokens, and also a one-character token whose delimiter is the last character of the copy |
| VerixferFindings.ValidateFromAsWritten | xferlog_verification/verixfer.c:36-186 | the result as written, with the width test read on the copy, is 0 or a field number from k to 20 (None when the read leaves the copy) |
| VerixferFindings.HourAtEndDiffers | xferlog_verification/verixfer.c:65-85 | on "Mon Jan 01 5:" the code as written returns 5, while the two-character rule returns 4 |

## Left out

- Opening, checking and closing the log (`stat`, `fopen`, `fclose`, `errexit`) and reading it with `getline` are I/O. The log is given as the sequence of its lines, each with the newline `getline` keeps.
- The report is formatted with `printf` as `<line>-<field>: <text>`. It is modelled as a `Report` value. The model keeps the whole line as the text, whereas `printf` stops at an embedded NUL.
- The `errno` global is modelled as `Strtoll`'s out-parameter `erange`. No other error sets it with base 10.
- `strtok` writes a NUL over each delimiter it consumes and keeps its cursor in hidden static state. The model does not write into the copy, and the cursor is an explicit index. process_line reads those NULs only through its `tok[1] != '\0'` and `tok[2] != '\0'` tests, and the model states those tests as token lengths (`|t| == 1`, `|t| == 2`); the one read beyond such a NUL is the Findings row.
- Verixfer.CheckToken: the width test `tok[2] != '\0'` of the hour, minute and second is modelled as "exactly two characters". As written, the test reads past the token for a one-character token. `VerixferFindings` models that read and the line it misjudges (see Findings). Where that read leaves the copy, the C code has undefined behaviour; the model does not go further than returning None.
- Verixfer.ProcessLine: `temp` is sized by the buffer length minus one (`n-1` from main), which can be one byte short of what `strcpy` writes. The copy is modelled as always fitting.
- main tests `if (!lineptr)` before `free(lineptr)`, so that statement never frees anything. It has no effect on the output and is not modelled.
- The line counter is an `unsigned long long`; the model's counter is unbounded, so its wrap-around after 2^64 lines is not modelled.
- Locale: white space for `strtoll` is the C locale's (space, tab, newline, vertical tab, form feed, carriage return).
- A 20th token (one after field 19) is reported as field 20 only when fields 1 to 19 all pass: the blocks run in order and the first failure returns (`EarlierFailureWins`, `BadMonthAndExtraToken`). A valid line is 19 fields plus the test that nothing follows.

## Findings

| source | as written | input that shows it | evidently intended | confidence | as-written member | corrected member |
|---|---|---|---|---|---|---|
| xferlog_verification/verixfer.c:71 | `tok[2] != '\0'` reads the byte after the NUL that ends a one-character hour; when the hour's ":" is the last character of the line, that byte is the line's own NUL, so the width test passes | "Mon Jan 01 5:" with nothing after the ":" (the last line of a log that lacks a final newline, or a NUL right after the ":") gives 5 (missing minute); with getline's "\n" after the ":" the byte read is '\n' and the line fails at 4 as intended | the hour, minute and second have exactly two characters, so the line fails at field 4 | high, not executed | VerixferFindings.HourAtEndDiffers | Verixfer.CheckToken |
