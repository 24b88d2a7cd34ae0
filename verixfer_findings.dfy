/**
 * The width test of the hour, minute and second (`tok[2] != '\0'`) as
 * process_line writes it. It reads the byte at index 2 of the token in the
 * copy after strtok has cut the token out. For a one-character token that byte
 * lies beyond the NUL strtok wrote after the token: it is the next character of
 * the copy, or the copy's own terminating NUL when the token's delimiter was the
 * last character, or outside the copy when the token ends the copy. So a
 * one-character hour at the very end of a line, "Mon Jan 01 5:", passes the
 * width test, and the line is rejected one field later than the two-character
 * rule of Verixfer.FieldOk rejects it.
 */
module VerixferFindings {
  import opened Wrappers
  import opened CStrings
  import opened Tokenizer
  import opened Verixfer
  import opened VerixferProperties

  /**
   * The byte read as tok[2] for the token `t` that strtok cut out of the copy
   * `s` at index `b`; None when that byte lies past the copy's terminator.
   */
  function Tok2AsWritten(s: string, b: nat, t: string): Option<char>
    requires b + |t| <= |s| && |t| > 0
  {
    if |t| >= 3 then Some(t[2])
    else if |t| == 2 then Some('\0')
    else if b + 2 < |s| then Some(s[b + 2])
    else if b + 2 == |s| then Some('\0')
    else None
  }

  /**
   * The as-written width test accepts the two-character tokens and also a
   * one-character token whose delimiter is the last character of the copy.
   */
  lemma WidthAsWritten(s: string, b: nat, t: string)
    requires b + |t| <= |s| && |t| > 0 && s[b..b + |t|] == t && '\0' !in s
    ensures Tok2AsWritten(s, b, t) == Some('\0') <==> |t| == 2 || (|t| == 1 && b + 2 == |s|)
  {
    if |t| >= 3 {
      assert t[2] == s[b + 2];
    }
  }

  /**
   * The result of process_line as written when it reads fields k..20 of the
   * copy `s` from cursor `pos`; None when the width test reads past the copy.
   */
  function ValidateFromAsWritten(s: string, pos: nat, k: nat): (r: Option<nat>)
    requires pos <= |s| && 1 <= k <= 20
    ensures r.Some? ==> r.value == 0 || k <= r.value <= 20
    decreases 20 - k
  {
    var step := Strtok(s, pos, {Delim(k)});
    if k == 20 then
      Some(if step.token.Some? then 20 else 0)
    else if step.token.None? then
      Some(k)
    else if 4 <= k <= 6 then
      var t := step.token.value;
      var c := Tok2AsWritten(s, Span(s, pos, {Delim(k)}), t);
      if c.None? then None
      else if c.value != '\0' || !NumberIn(t, 0, if k == 4 then 24 else 60) then Some(k)
      else ValidateFromAsWritten(s, step.next, k + 1)
    else if !FieldOk(k, step.token.value) then
      Some(k)
    else
      ValidateFromAsWritten(s, step.next, k + 1)
  }

  /** The line that shows the discrepancy: a one-digit hour followed by the end of the line. */
  const HourAtEnd: string := "Mon Jan 01 5:"

  /** strcpy copies HourAtEnd whole. */
  lemma HourAtEndCopy()
    ensures CString(HourAtEnd) == HourAtEnd && |HourAtEnd| == 13
  {
    CStringWhole(HourAtEnd);
  }

  /** The first strtok call on HourAtEnd yields "Mon". */
  lemma HourAtEndWeekday()
    ensures Strtok(HourAtEnd, 0, {' '}) == Step(Some("Mon"), 4)
  {
    assert HourAtEnd[0..3] == "Mon" && HourAtEnd[3] == ' ';
    StrtokAt(HourAtEnd, 0, {' '}, "Mon");
  }

  /** The second yields "Jan". */
  lemma HourAtEndMonth()
    ensures Strtok(HourAtEnd, 4, {' '}) == Step(Some("Jan"), 8)
  {
    assert HourAtEnd[4..7] == "Jan" && HourAtEnd[7] == ' ';
    StrtokAt(HourAtEnd, 4, {' '}, "Jan");
  }

  /** The third yields "01". */
  lemma HourAtEndDay()
    ensures Strtok(HourAtEnd, 8, {' '}) == Step(Some("01"), 11)
  {
    assert HourAtEnd[8..10] == "01" && HourAtEnd[10] == ' ';
    StrtokAt(HourAtEnd, 8, {' '}, "01");
  }

  /** Then "5" up to the final ":", with no delimiter before it, and after that nothing. */
  lemma HourAtEndHour()
    ensures Strtok(HourAtEnd, 11, {':'}) == Step(Some("5"), 13) && Span(HourAtEnd, 11, {':'}) == 11
    ensures Strtok(HourAtEnd, 13, {':'}).token.None?
  {
    var s := HourAtEnd;
    assert s[11..12] == "5" && s[12] == ':' && |s| == 13;
    StrtokAt(s, 11, {':'}, "5");
  }

  /** The fields before the hour pass, and "5" reads as an hour in range. */
  lemma HourAtEndFields()
    ensures FieldOk(1, "Mon") && FieldOk(2, "Jan") && FieldOk(3, "01") && NumberIn("5", 0, 24)
  {
    assert "Mon" == Weekdays[0];
    assert "Jan" == Months[0];
    DigitsInRange("01", 0, 31);
    DigitsInRange("5", 0, 24);
  }

  /**
   * On HourAtEnd, process_line as written accepts the hour "5" and fails at the
   * missing minute (5), while the two-character rule fails at the hour (4).
   */
  lemma HourAtEndDiffers()
    ensures ValidateFromAsWritten(HourAtEnd, 0, 1) == Some(5)
    ensures Validate(HourAtEnd) == 4
  {
    var s := HourAtEnd;
    HourAtEndCopy();
    HourAtEndWeekday();
    HourAtEndMonth();
    HourAtEndDay();
    HourAtEndHour();
    HourAtEndFields();
    assert Tok2AsWritten(s, 11, "5") == Some('\0');
    assert ValidateFromAsWritten(s, 11, 4) == Some(5);
    assert ValidateFromAsWritten(s, 0, 1) == ValidateFromAsWritten(s, 4, 2);
    assert ValidateFromAsWritten(s, 4, 2) == ValidateFromAsWritten(s, 8, 3);
    assert ValidateFromAsWritten(s, 8, 3) == ValidateFromAsWritten(s, 11, 4);
    assert ValidateFrom(s, 11, 4) == 4;
    assert ValidateFrom(s, 0, 1) == ValidateFrom(s, 4, 2);
    assert ValidateFrom(s, 4, 2) == ValidateFrom(s, 8, 3);
    assert ValidateFrom(s, 8, 3) == ValidateFrom(s, 11, 4);
  }
}
