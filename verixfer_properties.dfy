/**
 * What the result of process_line means, stated over the tokens of a line
 * rather than over the strtok cursor: the result is the number of the first
 * field whose check fails, fields that are absent fail, and a token after
 * field 19 is field 20. A line assembled from its fields with the delimiters
 * strtok expects splits back into those fields, which gives the result for
 * every well-formed or truncated line and for a line with one token too many.
 */
module VerixferProperties {
  import opened Wrappers
  import opened CStrings
  import opened Tokenizer
  import opened Numbers
  import opened Verixfer

  /**
   * The tokens strtok yields for fields k..20 from cursor `pos`, each read with
   * its field's delimiter, up to the first call that finds no token. Unlike
   * process_line it goes on past a token whose check fails.
   */
  function Scan(s: string, pos: nat, k: nat): (ts: seq<string>)
    requires pos <= |s| && 1 <= k <= 20
    ensures |ts| <= 21 - k
    ensures forall i :: 0 <= i < |ts| ==> |ts[i]| > 0
    decreases 20 - k
  {
    var step := Strtok(s, pos, {Delim(k)});
    if step.token.None? then []
    else if k == 20 then [step.token.value]
    else [step.token.value] + Scan(s, step.next, k + 1)
  }

  /** The fields of a line, in order, as process_line's strtok calls see them; a 20th token is the extra one. */
  function Tokens(line: string): (ts: seq<string>)
    ensures |ts| <= 20
  {
    Scan(CString(line), 0, 1)
  }

  /**
   * Whether check `j` passes when `ts` holds the tokens of fields k onwards and
   * `ok` is the field check: for a field (j <= 19), its token is present and
   * passes `ok`; for the end of line (j == 20), no token follows field 19.
   */
  predicate PassAt(ts: seq<string>, k: nat, j: nat, ok: (nat, string) -> bool)
    requires k <= j
  {
    if j <= 19 then j - k < |ts| && ok(j, ts[j - k])
    else |ts| <= 20 - k
  }

  /** Check `j` of process_line on a line whose tokens are `ts`. */
  predicate Passes(ts: seq<string>, j: nat)
    requires 1 <= j
  {
    PassAt(ts, 1, j, FieldOk)
  }

  lemma PassAtShift(t: string, ts: seq<string>, k: nat, j: nat, ok: (nat, string) -> bool)
    requires k < j
    ensures PassAt([t] + ts, k, j, ok) == PassAt(ts, k + 1, j, ok)
  {
    if j <= 19 && j - k < |[t] + ts| {
      assert ([t] + ts)[j - k] == ts[j - k - 1];
    }
  }

  /**
   * The first failing check among k..20 when `ts` holds the tokens of fields k
   * onwards and `ok` is the field check, or 0: the token-level counterpart of
   * ValidateFrom.
   */
  function FirstFailure(ts: seq<string>, k: nat, ok: (nat, string) -> bool): (r: nat)
    requires 1 <= k <= 20
    decreases 20 - k
  {
    if k == 20 then (if |ts| > 0 then 20 else 0)
    else if |ts| == 0 || !ok(k, ts[0]) then k
    else FirstFailure(ts[1..], k + 1, ok)
  }

  /** ValidateFrom and FirstFailure over Scan agree on the end-of-line check. */
  lemma EndsAlike(s: string, pos: nat)
    requires pos <= |s|
    ensures ValidateFrom(s, pos, 20) == FirstFailure(Scan(s, pos, 20), 20, FieldOk)
  {
  }

  /** They agree when field k < 20 has no token or its token fails. */
  lemma StopsAlike(s: string, pos: nat, k: nat)
    requires pos <= |s| && 1 <= k < 20
    requires var step := Strtok(s, pos, {Delim(k)}); step.token.None? || !FieldOk(k, step.token.value)
    ensures ValidateFrom(s, pos, k) == k == FirstFailure(Scan(s, pos, k), k, FieldOk)
  {
  }

  /** ... and both go on to field k + 1 from the new cursor when its token passes. */
  lemma GoesOnAlike(s: string, pos: nat, k: nat)
    requires pos <= |s| && 1 <= k < 20
    requires var step := Strtok(s, pos, {Delim(k)}); step.token.Some? && FieldOk(k, step.token.value)
    ensures var next := Strtok(s, pos, {Delim(k)}).next;
            && ValidateFrom(s, pos, k) == ValidateFrom(s, next, k + 1)
            && FirstFailure(Scan(s, pos, k), k, FieldOk) == FirstFailure(Scan(s, next, k + 1), k + 1, FieldOk)
  {
    var step := Strtok(s, pos, {Delim(k)});
    var rest := Scan(s, step.next, k + 1);
    assert Scan(s, pos, k) == [step.token.value] + rest;
    assert ([step.token.value] + rest)[1..] == rest;
  }

  /** Reading fields k..20 through the strtok cursor gives the same result as reading the token list. */
  lemma {:induction false} ValidateFromTokens(s: string, pos: nat, k: nat)
    requires pos <= |s| && 1 <= k <= 20
    ensures ValidateFrom(s, pos, k) == FirstFailure(Scan(s, pos, k), k, FieldOk)
    decreases 20 - k
  {
    var step := Strtok(s, pos, {Delim(k)});
    if k == 20 {
      EndsAlike(s, pos);
    } else if step.token.None? || !FieldOk(k, step.token.value) {
      StopsAlike(s, pos, k);
    } else {
      GoesOnAlike(s, pos, k);
      ValidateFromTokens(s, step.next, k + 1);
    }
  }

  /**
   * FirstFailure is 0 exactly when checks k..20 all pass, and otherwise it is
   * the first check from k on that fails.
   */
  lemma {:induction false} FirstFailureMeaning(ts: seq<string>, k: nat, ok: (nat, string) -> bool)
    requires 1 <= k <= 20
    ensures var r := FirstFailure(ts, k, ok);
            && (r == 0 <==> forall j :: k <= j <= 20 ==> PassAt(ts, k, j, ok))
            && (r != 0 ==> k <= r <= 20 && !PassAt(ts, k, r, ok) && forall j :: k <= j < r ==> PassAt(ts, k, j, ok))
    decreases 20 - k
  {
    if k == 20 {
      assert PassAt(ts, k, k, ok) <==> |ts| == 0;
    } else if |ts| == 0 || !ok(k, ts[0]) {
      assert !PassAt(ts, k, k, ok);
    } else {
      var rest := ts[1..];
      assert [ts[0]] + rest == ts;
      FirstFailureMeaning(rest, k + 1, ok);
      var r := FirstFailure(rest, k + 1, ok);
      assert PassAt(ts, k, k, ok);
      forall j | k < j <= 20
        ensures PassAt(ts, k, j, ok) == PassAt(rest, k + 1, j, ok)
      {
        PassAtShift(ts[0], rest, k, j, ok);
      }
      if r == 0 {
        assert forall j :: k <= j <= 20 ==> PassAt(ts, k, j, ok);
      } else {
        assert !PassAt(ts, k, r, ok);
      }
    }
  }

  /** process_line's result depends on the line only through its tokens. */
  lemma ValidateIsFirstFailure(line: string)
    ensures Validate(line) == FirstFailure(Tokens(line), 1, FieldOk)
  {
    ValidateFromTokens(CString(line), 0, 1);
  }

  /**
   * The result of process_line is the number of the first failing check on the
   * line's tokens, or 0 when all 20 pass: fields 1..19 each need their token
   * and its check, and check 20 needs no 20th token.
   */
  lemma FirstFailingField(line: string)
    ensures var ts, r := Tokens(line), Validate(line);
            && (r == 0 <==> forall j :: 1 <= j <= 20 ==> Passes(ts, j))
            && (r != 0 ==> !Passes(ts, r) && forall j :: 1 <= j < r ==> Passes(ts, j))
  {
    var ts := Tokens(line);
    ValidateIsFirstFailure(line);
    FirstFailureMeaning(ts, 1, FieldOk);
    assert forall j :: 1 <= j <= 20 ==> Passes(ts, j) == PassAt(ts, 1, j, FieldOk);
  }

  /** A line whose tokens stop after field k - 1, all of which pass, fails at field k. */
  lemma Truncated(line: string, k: nat)
    requires 1 <= k <= 19
    requires |Tokens(line)| == k - 1
    requires forall j :: 1 <= j < k ==> Passes(Tokens(line), j)
    ensures Validate(line) == k
  {
    var ts := Tokens(line);
    FirstFailingField(line);
    assert !Passes(ts, k);
  }

  /**
   * When fields 1..19 pass, the result is 20 exactly when a further token
   * follows, and 0 otherwise.
   */
  lemma EndOfLine(line: string)
    requires forall j :: 1 <= j <= 19 ==> Passes(Tokens(line), j)
    ensures Validate(line) == if |Tokens(line)| == 20 then 20 else 0
  {
    var ts := Tokens(line);
    FirstFailingField(line);
    if |ts| == 20 {
      assert !Passes(ts, 20);
    } else {
      assert Passes(ts, 20);
    }
  }

  /** A plain digit string whose value is within lo..hi (and the 64-bit range) passes a numeric check. */
  lemma DigitsInRange(t: string, lo: int, hi: int)
    requires |t| > 0 && forall i :: 0 <= i < |t| ==> t[i] in Digits
    requires lo <= Value(t) <= hi <= LLongMax
    ensures NumberIn(t, lo, hi)
  {
    DecimalOfForm(t, 0, 0);
  }

  /**
   * The text of fields k, k+1, ... written out as a log line: each field is
   * followed by the delimiter its strtok call stops at (":" after the hour and
   * the minute, " " elsewhere), and the last one by nothing.
   */
  function JoinFrom(fs: seq<string>, k: nat): (line: string)
    decreases |fs|
  {
    if |fs| == 0 then ""
    else if |fs| == 1 then fs[0]
    else fs[0] + [Delim(k)] + JoinFrom(fs[1..], k + 1)
  }

  /** The log line made of the fields `fs`, the first being the day of week. */
  function Join(fs: seq<string>): string
  {
    JoinFrom(fs, 1)
  }

  /**
   * Fields that strtok gives back unchanged once joined: none is empty, none
   * holds a NUL (strcpy would cut the line there), and none holds the
   * delimiter of its own field.
   */
  predicate Joinable(fs: seq<string>, k: nat)
  {
    forall i :: 0 <= i < |fs| ==> |fs[i]| > 0 && '\0' !in fs[i] && Delim(k + i) !in fs[i]
  }

  lemma JoinableTail(fs: seq<string>, k: nat)
    requires |fs| > 0 && Joinable(fs, k)
    ensures Joinable(fs[1..], k + 1)
  {
    forall i | 0 <= i < |fs[1..]|
      ensures |fs[1..][i]| > 0 && '\0' !in fs[1..][i] && Delim(k + 1 + i) !in fs[1..][i]
    {
      assert fs[1..][i] == fs[i + 1];
    }
  }

  /** Replacing one field by another that may be joined at that place keeps the fields joinable. */
  lemma JoinableUpdate(fs: seq<string>, k: nat, i: nat, f: string)
    requires Joinable(fs, k) && i < |fs|
    requires |f| > 0 && '\0' !in f && Delim(k + i) !in f
    ensures Joinable(fs[i := f], k)
  {
  }

  lemma {:induction false} JoinFromNoNul(fs: seq<string>, k: nat)
    requires Joinable(fs, k)
    ensures '\0' !in JoinFrom(fs, k)
    decreases |fs|
  {
    if |fs| > 1 {
      JoinableTail(fs, k);
      JoinFromNoNul(fs[1..], k + 1);
    }
  }

  /**
   * One strtok call on a joined line: it yields the first field and leaves the
   * cursor at the start of the remaining fields.
   */
  lemma JoinStep(s: string, pos: nat, fs: seq<string>, k: nat)
    requires pos <= |s| && |fs| > 0
    requires s[pos..] == JoinFrom(fs, k) && Joinable(fs, k)
    ensures var step := Strtok(s, pos, {Delim(k)});
            step.token == Some(fs[0]) && s[step.next..] == JoinFrom(fs[1..], k + 1)
  {
    var t := fs[0];
    assert Delim(k + 0) !in t;
    assert s[pos..][..|t|] == t;
    assert s[pos..pos + |t|] == t;
    if |fs| > 1 {
      var rest := JoinFrom(fs[1..], k + 1);
      assert s[pos..] == t + [Delim(k)] + rest;
      assert s[pos + |t|] == s[pos..][|t|] == Delim(k);
      assert s[pos + |t| + 1..] == s[pos..][|t| + 1..] == rest;
    }
    StrtokAt(s, pos, {Delim(k)}, t);
  }

  /**
   * Scanning a joined line from field k on gives back its fields: every strtok
   * call finds exactly the next field, and the call after the last one finds
   * nothing.
   */
  lemma {:induction false} ScanJoin(s: string, pos: nat, fs: seq<string>, k: nat)
    requires pos <= |s| && 1 <= k <= 20 && k + |fs| <= 21
    requires s[pos..] == JoinFrom(fs, k) && Joinable(fs, k)
    ensures Scan(s, pos, k) == fs
    decreases |fs|
  {
    if |fs| == 0 {
      assert pos == |s|;
    } else {
      JoinStep(s, pos, fs, k);
      if k < 20 {
        var step := Strtok(s, pos, {Delim(k)});
        JoinableTail(fs, k);
        ScanJoin(s, step.next, fs[1..], k + 1);
        assert fs == [fs[0]] + fs[1..];
      }
    }
  }

  /** The round trip: the tokens of a joined line are its fields. */
  lemma TokensOfJoin(fs: seq<string>)
    requires |fs| <= 20 && Joinable(fs, 1)
    ensures Tokens(Join(fs)) == fs
  {
    JoinFromNoNul(fs, 1);
    CStringWhole(Join(fs));
    ScanJoin(Join(fs), 0, fs, 1);
  }

  /**
   * A line joined from at most 20 fields is judged on those fields: the first
   * failing check among them, a missing field, or the 20th field.
   */
  lemma JoinedLine(fs: seq<string>)
    requires |fs| <= 20 && Joinable(fs, 1)
    ensures Validate(Join(fs)) == FirstFailure(fs, 1, FieldOk)
  {
    TokensOfJoin(fs);
    ValidateIsFirstFailure(Join(fs));
  }

  /** A line of 19 joined fields is valid exactly when every field passes its check. */
  lemma WellFormedLine(fs: seq<string>)
    requires |fs| == 19 && Joinable(fs, 1)
    ensures Validate(Join(fs)) == 0 <==> forall i :: 0 <= i < 19 ==> FieldOk(i + 1, fs[i])
  {
    TokensOfJoin(fs);
    FirstFailingField(Join(fs));
    assert forall i :: 0 <= i < 19 ==> (Passes(fs, i + 1) <==> FieldOk(i + 1, fs[i]));
    assert Passes(fs, 20);
  }

  /** A joined line that stops after |fs| < 19 passing fields fails at the first missing field. */
  lemma TruncatedLine(fs: seq<string>)
    requires |fs| < 19 && Joinable(fs, 1)
    requires forall i :: 0 <= i < |fs| ==> FieldOk(i + 1, fs[i])
    ensures Validate(Join(fs)) == |fs| + 1
  {
    TokensOfJoin(fs);
    assert forall j :: 1 <= j <= |fs| ==> Passes(fs, j) by {
      forall j | 1 <= j <= |fs| ensures Passes(fs, j) {
        assert FieldOk(j - 1 + 1, fs[j - 1]);
      }
    }
    Truncated(Join(fs), |fs| + 1);
  }

  /** A joined line whose first k - 1 fields pass and whose field k fails gives k, whatever follows. */
  lemma JoinedFailsAt(fs: seq<string>, k: nat)
    requires |fs| <= 20 && Joinable(fs, 1)
    requires 1 <= k <= 19 && k <= |fs|
    requires forall i :: 0 <= i < k - 1 ==> FieldOk(i + 1, fs[i])
    requires !FieldOk(k, fs[k - 1])
    ensures Validate(Join(fs)) == k
  {
    JoinedLine(fs);
    FirstFailureMeaning(fs, 1, FieldOk);
    assert forall j :: 1 <= j < k ==> PassAt(fs, 1, j, FieldOk) by {
      forall j | 1 <= j < k ensures PassAt(fs, 1, j, FieldOk) {
        assert FieldOk(j - 1 + 1, fs[j - 1]);
      }
    }
    assert !PassAt(fs, 1, k, FieldOk);
  }

  /** Nineteen passing fields followed by any further token give field 20. */
  lemma ExtraTokenLine(fs: seq<string>)
    requires |fs| == 20 && Joinable(fs, 1)
    requires forall i :: 0 <= i < 19 ==> FieldOk(i + 1, fs[i])
    ensures Validate(Join(fs)) == 20
  {
    JoinedLine(fs);
    FirstFailureMeaning(fs, 1, FieldOk);
    assert forall j :: 1 <= j <= 19 ==> PassAt(fs, 1, j, FieldOk) by {
      forall j | 1 <= j <= 19 ensures PassAt(fs, 1, j, FieldOk) {
        assert FieldOk(j - 1 + 1, fs[j - 1]);
      }
    }
    assert !PassAt(fs, 1, 20, FieldOk);
  }

  /**
   * The first failure wins: when check k fails, the result is a check no later
   * than k, whatever follows; so a line with too many tokens reports an
   * earlier bad field rather than field 20.
   */
  lemma EarlierFailureWins(line: string, k: nat)
    requires 1 <= k <= 20 && !Passes(Tokens(line), k)
    ensures 1 <= Validate(line) <= k
  {
    FirstFailingField(line);
  }

  /**
   * Each report names a line after index `n` by its number (counting from 1,
   * every line included) and carries that line and its non-zero result.
   */
  predicate ReportsSoundFrom(lines: seq<string>, check: string -> nat, n: nat, out: seq<Report>)
  {
    forall j :: 0 <= j < |out| ==>
      n < out[j].lineNumber <= |lines| && out[j].text == lines[out[j].lineNumber - 1] &&
      out[j].field == check(out[j].text) && out[j].field != 0
  }

  /** The reports come in the order of their lines. */
  predicate InLineOrder(out: seq<Report>)
  {
    forall j1, j2 :: 0 <= j1 < j2 < |out| ==> out[j1].lineNumber < out[j2].lineNumber
  }

  /** Every line from index `n` on with a non-zero result is reported with its number, result and text. */
  predicate ReportsCompleteFrom(lines: seq<string>, check: string -> nat, n: nat, out: seq<Report>)
  {
    forall i :: n <= i < |lines| && check(lines[i]) != 0 ==> Report(i + 1, check(lines[i]), lines[i]) in out
  }

  lemma {:induction false} ReportsSound(lines: seq<string>, check: string -> nat, n: nat)
    requires n <= |lines|
    ensures ReportsSoundFrom(lines, check, n, ReportsFrom(lines, check, n))
    decreases |lines| - n
  {
    if n < |lines| {
      ReportsSound(lines, check, n + 1);
      var out := ReportsFrom(lines, check, n);
      var rest := ReportsFrom(lines, check, n + 1);
      if check(lines[n]) != 0 {
        assert out == [Report(n + 1, check(lines[n]), lines[n])] + rest;
        assert forall j :: 0 < j < |out| ==> out[j] == rest[j - 1];
      } else {
        assert out == rest;
      }
    }
  }

  lemma {:induction false} ReportsOrdered(lines: seq<string>, check: string -> nat, n: nat)
    requires n <= |lines|
    ensures InLineOrder(ReportsFrom(lines, check, n))
    decreases |lines| - n
  {
    if n < |lines| {
      ReportsOrdered(lines, check, n + 1);
      ReportsSound(lines, check, n + 1);
      var out := ReportsFrom(lines, check, n);
      var rest := ReportsFrom(lines, check, n + 1);
      if check(lines[n]) != 0 {
        assert out == [Report(n + 1, check(lines[n]), lines[n])] + rest;
        assert forall j :: 0 < j < |out| ==> out[j] == rest[j - 1];
      } else {
        assert out == rest;
      }
    }
  }

  lemma {:induction false} Reported(lines: seq<string>, check: string -> nat, n: nat, i: nat)
    requires n <= i < |lines| && check(lines[i]) != 0
    ensures Report(i + 1, check(lines[i]), lines[i]) in ReportsFrom(lines, check, n)
    decreases i - n
  {
    var rest := ReportsFrom(lines, check, n + 1);
    if i > n {
      Reported(lines, check, n + 1, i);
      if check(lines[n]) != 0 {
        assert ReportsFrom(lines, check, n) == [Report(n + 1, check(lines[n]), lines[n])] + rest;
      }
    } else {
      assert ReportsFrom(lines, check, n) == [Report(n + 1, check(lines[n]), lines[n])] + rest;
    }
  }

  lemma ReportsComplete(lines: seq<string>, check: string -> nat, n: nat)
    requires n <= |lines|
    ensures ReportsCompleteFrom(lines, check, n, ReportsFrom(lines, check, n))
  {
    forall i | n <= i < |lines| && check(lines[i]) != 0
      ensures Report(i + 1, check(lines[i]), lines[i]) in ReportsFrom(lines, check, n)
    {
      Reported(lines, check, n, i);
    }
  }

  /**
   * main's output for a log whose lines are `lines`: the reports are exactly
   * the lines process_line rejects, each with its number, result and text, in
   * the order of the log.
   */
  lemma ReportsMeaning(lines: seq<string>)
    ensures var out := ReportsFrom(lines, Validate, 0);
            ReportsSoundFrom(lines, Validate, 0, out) && InLineOrder(out) &&
            ReportsCompleteFrom(lines, Validate, 0, out)
  {
    ReportsSound(lines, Validate, 0);
    ReportsOrdered(lines, Validate, 0);
    ReportsComplete(lines, Validate, 0);
  }
}
