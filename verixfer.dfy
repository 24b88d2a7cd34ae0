/**
 * The xferlog line validator: a left-to-right grammar over the 19 fields of a
 * glftpd/wu-ftpd transfer-log line plus an end-of-line check. A line is
 * tokenized with strtok on a private copy, with " " as the delimiter except
 * for the hour and the minute, which end at ":". The result is 0 for a valid
 * line and otherwise the number (1 to 20) of the first field that fails.
 */
module Verixfer {
  import opened Wrappers
  import opened CStrings
  import opened Tokenizer
  import opened Numbers

  const Months: seq<string> := ["Jan", "Feb", "Mar", "Apr", "May", "Jun", "Jul", "Aug", "Sep", "Oct", "Nov", "Dec"]
  const Weekdays: seq<string> := ["Mon", "Tue", "Wed", "Thu", "Fri", "Sat", "Sun"]

  /** The delimiter strtok is given when it reads field `k`: ":" for the hour and the minute, " " otherwise. */
  function Delim(k: nat): char
  {
    if k == 4 || k == 5 then ':' else ' '
  }

  /** The whole token reads as a representable decimal number within lo..hi. */
  predicate NumberIn(t: string, lo: int, hi: int)
  {
    var d := Decimal(t);
    d.Some? && InLLong(d.value) && lo <= d.value <= hi
  }

  /** The check that field `k` (1 to 19) applies to its token. */
  predicate FieldOk(k: nat, t: string)
  {
    match k
    case 1 => t in Weekdays                     // day of week
    case 2 => t in Months                       // month
    case 3 => NumberIn(t, 0, 31)                // day of month
    case 4 => |t| == 2 && NumberIn(t, 0, 24)    // hour
    case 5 | 6 => |t| == 2 && NumberIn(t, 0, 60) // minute, second
    case 7 => NumberIn(t, 1980, 2100)           // year
    case 8 | 10 => NumberIn(t, 0, LLongMax)     // transfer time, file size
    case 12 => t == "a" || t == "b"             // transfer mode
    case 13 => t == "_"                         // special action flag
    case 14 => t == "i" || t == "o"             // direction
    case 15 => t == "r"                         // access mode
    case 18 => t == "0" || t == "1"             // authentication method
    case _ => true                              // 9 host, 11 path, 16 user, 17 group, 19 ident
  }

  /**
   * The outcome of reading fields k..20 of the copy `s` with the strtok cursor
   * at `pos`: the first failing field, or 0.
   */
  function ValidateFrom(s: string, pos: nat, k: nat): (r: nat)
    requires pos <= |s| && 1 <= k <= 20
    ensures r == 0 || k <= r <= 20
    decreases 20 - k
  {
    var step := Strtok(s, pos, {Delim(k)});
    if k == 20 then
      if step.token.Some? then 20 else 0
    else if step.token.None? || !FieldOk(k, step.token.value) then
      k
    else
      ValidateFrom(s, step.next, k + 1)
  }

  /** What process_line returns for a line. */
  function Validate(line: string): (r: nat)
    ensures r <= 20
  {
    ValidateFrom(CString(line), 0, 1)
  }

  /**
   * The numeric check of process_line: strtoll with errno cleared, then reject
   * on leftover characters (`*e`), a value outside lo..hi or ERANGE.
   */
  method NumberField(tok: string, lo: int, hi: int) returns (ok: bool)
    requires |tok| > 0
    ensures ok == NumberIn(tok, lo, hi)
  {
    var num, e, erange := Strtoll(tok);
    ok := !(e != |tok| || num < lo || num > hi || erange);
  }

  /**
   * The table lookup of process_line: the index of `tok` in `table`, or
   * |table| when it is not there.
   */
  method FindName(tok: string, table: seq<string>) returns (i: nat)
    ensures i <= |table|
    ensures i < |table| ==> table[i] == tok
    ensures forall j :: 0 <= j < i ==> table[j] != tok
  {
    i := 0;
    while i < |table| && tok != table[i]
      invariant i <= |table|
      invariant forall j :: 0 <= j < i ==> table[j] != tok
    {
      i := i + 1;
    }
  }

  /**
   * The check process_line applies to the token of field `k`, as it
   * writes it: a table lookup, strtoll with its leftover/range/errno test, a
   * width test, or a one-character test. The hour, minute and second test
   * `tok[2] != '\0'` is written |t| != 2, and the one-character test
   * `tok[1] != '\0'` is written |t| != 1 (strtok never yields an empty token).
   * process_line reads tok[2] past the terminator of a one-character token; that
   * out-of-bounds read is not reproduced.
   */
  method CheckToken(k: nat, t: string) returns (ok: bool)
    requires 1 <= k <= 19 && |t| > 0
    ensures ok == FieldOk(k, t)
  {
    var i: nat;
    match k
    case 1 =>
      i := FindName(t, Weekdays);
      ok := i != |Weekdays|;
    case 2 =>
      i := FindName(t, Months);
      ok := i != |Months|;
    case 3 =>
      ok := NumberField(t, 0, 31);
    case 4 =>
      ok := NumberField(t, 0, 24);
      ok := |t| == 2 && ok;
    case 5 | 6 =>
      ok := NumberField(t, 0, 60);
      ok := |t| == 2 && ok;
    case 7 =>
      ok := NumberField(t, 1980, 2100);
    case 8 | 10 =>
      // no upper bound but the 64-bit range
      ok := NumberField(t, 0, LLongMax);
    case 12 =>
      ok := |t| == 1 && (t[0] == 'a' || t[0] == 'b');
    case 13 =>
      ok := |t| == 1 && t[0] == '_';
    case 14 =>
      ok := |t| == 1 && (t[0] == 'i' || t[0] == 'o');
    case 15 =>
      ok := |t| == 1 && t[0] == 'r';
    case 18 =>
      ok := |t| == 1 && (t[0] == '0' || t[0] == '1');
    case _ =>
      ok := true;
  }

  /**
   * One block of process_line: `tok = strtok(NULL, delim)`, then return `k`
   * when there is no token or its check fails. `fail` says whether the block
   * returns; otherwise the cursor moves on to `next`.
   */
  method Field(s: string, pos: nat, k: nat, delim: char) returns (fail: bool, next: nat)
    requires pos <= |s| && 1 <= k <= 19
    requires delim == if k == 4 || k == 5 then ':' else ' '
    ensures next <= |s|
    ensures fail ==> ValidateFrom(s, pos, k) == k
    ensures !fail ==> ValidateFrom(s, pos, k) == ValidateFrom(s, next, k + 1)
  {
    var tok;
    tok, next := NextToken(s, pos, {delim});
    if tok.None? {
      return true, next;
    }
    var ok := CheckToken(k, tok.value);
    fail := !ok;
    if ok {
      assert ValidateFrom(s, pos, k) == ValidateFrom(s, next, k + 1);
    }
  }

  /**
   * process_line: strcpy into the private copy `temp`, then the chain of
   * field blocks in order, with `pos` as strtok's cursor, and finally the test
   * that no token follows field 19. process_line sizes `temp` by the buffer
   * length it is passed, which can be one byte short of what strcpy writes;
   * that defect is not reproduced.
   */
  method ProcessLine(line: string) returns (res: nat)
    ensures res == Validate(line)
  {
    var temp := CString(line);
    var pos: nat := 0;
    var fail: bool;

    fail, pos := Field(temp, pos, 1, ' ');    // day of week
    if fail { return 1; }
    fail, pos := Field(temp, pos, 2, ' ');    // month
    if fail { return 2; }
    fail, pos := Field(temp, pos, 3, ' ');    // day of month
    if fail { return 3; }
    fail, pos := Field(temp, pos, 4, ':');    // hour
    if fail { return 4; }
    fail, pos := Field(temp, pos, 5, ':');    // minute
    if fail { return 5; }
    fail, pos := Field(temp, pos, 6, ' ');    // second
    if fail { return 6; }
    fail, pos := Field(temp, pos, 7, ' ');    // year
    if fail { return 7; }
    fail, pos := Field(temp, pos, 8, ' ');    // transfer time
    if fail { return 8; }
    fail, pos := Field(temp, pos, 9, ' ');    // remote host
    if fail { return 9; }
    fail, pos := Field(temp, pos, 10, ' ');   // file size
    if fail { return 10; }
    fail, pos := Field(temp, pos, 11, ' ');   // file path
    if fail { return 11; }
    fail, pos := Field(temp, pos, 12, ' ');   // transfer mode
    if fail { return 12; }
    fail, pos := Field(temp, pos, 13, ' ');   // special action flag
    if fail { return 13; }
    fail, pos := Field(temp, pos, 14, ' ');   // direction
    if fail { return 14; }
    fail, pos := Field(temp, pos, 15, ' ');   // access mode
    if fail { return 15; }
    fail, pos := Field(temp, pos, 16, ' ');   // user name
    if fail { return 16; }
    fail, pos := Field(temp, pos, 17, ' ');   // group name
    if fail { return 17; }
    fail, pos := Field(temp, pos, 18, ' ');   // authentication method
    if fail { return 18; }
    fail, pos := Field(temp, pos, 19, ' ');   // user ident
    if fail { return 19; }

    // anything left over is field 20
    var tok;
    tok, pos := NextToken(temp, pos, {' '});
    if tok.Some? { return 20; }
    return 0;
  }

  /** One line of output: `<line number>-<field>: <line>`. */
  datatype Report = Report(lineNumber: nat, field: nat, text: string)

  /**
   * The output main produces for the lines from index `n` on (line numbers
   * count from 1) when `check` classifies each line: a report for each line
   * whose result is not 0, in order. Main uses process_line, so its output is
   * ReportsFrom(lines, Validate, 0).
   */
  function ReportsFrom(lines: seq<string>, check: string -> nat, n: nat): (out: seq<Report>)
    requires n <= |lines|
    ensures |out| <= |lines| - n
    decreases |lines| - n
  {
    if n == |lines| then []
    else
      var res := check(lines[n]);
      (if res != 0 then [Report(n + 1, res, lines[n])] else []) + ReportsFrom(lines, check, n + 1)
  }

  /** The loop invariant of ReportInvalid is kept by one more line. */
  lemma ReportsStep(lines: seq<string>, check: string -> nat, n: nat, out: seq<Report>)
    requires n < |lines| && out + ReportsFrom(lines, check, n) == ReportsFrom(lines, check, 0)
    ensures var res := check(lines[n]);
            (if res != 0 then out + [Report(n + 1, res, lines[n])] else out) + ReportsFrom(lines, check, n + 1)
            == ReportsFrom(lines, check, 0)
  {
    var rest := ReportsFrom(lines, check, n + 1);
    var res := check(lines[n]);
    if res != 0 {
      var r := Report(n + 1, res, lines[n]);
      assert ReportsFrom(lines, check, n) == [r] + rest;
      assert (out + [r]) + rest == out + ([r] + rest);
    } else {
      assert ReportsFrom(lines, check, n) == [] + rest;
    }
  }

  /**
   * The loop of main over the lines of the log, the lines given in order as
   * read by getline: `linenum` counts every line, blank ones included, and a
   * line is reported with its number and process_line's result when that is
   * not 0.
   */
  method ReportInvalid(lines: seq<string>) returns (out: seq<Report>)
    ensures out == ReportsFrom(lines, Validate, 0)
  {
    var linenum := 0;
    out := [];
    while linenum < |lines|
      invariant linenum <= |lines|
      invariant out + ReportsFrom(lines, Validate, linenum) == ReportsFrom(lines, Validate, 0)
    {
      var line := lines[linenum];
      linenum := linenum + 1;
      var res := ProcessLine(line);
      ReportsStep(lines, Validate, linenum - 1, out);
      if res != 0 {
        out := out + [Report(linenum, res, line)];
      }
    }
  }
}
