/**
 * Concrete entries and the result process_line gives them. A line is written
 * as the list of its fields, joined with " " and, after the hour and the
 * minute, ":"; the last field keeps the newline that getline leaves in the
 * line. So Join(Good) is the line
 * "Mon Jan 01 00:05:30 2016 0 example.com 1024 /path/file.txt b _ i r user group 0 ident\n".
 */
module VerixferExamples {
  import opened Wrappers
  import opened Numbers
  import opened Verixfer
  import opened VerixferProperties

  /** The fields of a well-formed entry. */
  const Good: seq<string> := ["Mon", "Jan", "01", "00", "05", "30", "2016", "0", "example.com", "1024",
                              "/path/file.txt", "b", "_", "i", "r", "user", "group", "0", "ident\n"]

  lemma GoodJoinable()
    ensures Joinable(Good, 1)
  {
    forall i | 0 <= i < |Good| ensures |Good[i]| > 0 && '\0' !in Good[i] && Delim(1 + i) !in Good[i] {
    }
  }

  lemma Value2016()
    ensures Value("2016") == 2016
  {
    ValueSnoc("20", '1');
    assert "20" + ['1'] == "201";
    ValueSnoc("201", '6');
    assert "201" + ['6'] == "2016";
  }

  lemma Value1024()
    ensures Value("1024") == 1024
  {
    ValueSnoc("10", '2');
    assert "10" + ['2'] == "102";
    ValueSnoc("102", '4');
    assert "102" + ['4'] == "1024";
  }

  /** The day and time fields of Good read as the numbers they spell. */
  lemma GoodTimeNumbers()
    ensures FieldOk(3, "01") && FieldOk(4, "00") && FieldOk(5, "05") && FieldOk(6, "30")
  {
    DigitsInRange("01", 0, 31);
    DigitsInRange("00", 0, 24);
    DigitsInRange("05", 0, 60);
    DigitsInRange("30", 0, 60);
  }

  /** The year, transfer time and size fields of Good read as the numbers they spell. */
  lemma GoodTransferNumbers()
    ensures FieldOk(7, "2016") && FieldOk(8, "0") && FieldOk(10, "1024")
  {
    Value2016();
    DigitsInRange("2016", 1980, 2100);
    DigitsInRange("0", 0, LLongMax);
    Value1024();
    DigitsInRange("1024", 0, LLongMax);
  }

  /** The weekday and the month of Good are in their tables. */
  lemma GoodNamesPass()
    ensures FieldOk(1, Good[0]) && FieldOk(2, Good[1])
  {
    assert Good[0] == Weekdays[0];
    assert Good[1] == Months[0];
  }

  /** The day and time fields of Good pass their checks. */
  lemma GoodTimeFieldsPass()
    ensures forall i :: 2 <= i < 6 ==> FieldOk(i + 1, Good[i])
  {
    GoodTimeNumbers();
  }

  /** The year, transfer time, host and size fields of Good pass their checks. */
  lemma GoodTransferFieldsPass()
    ensures forall i :: 6 <= i < 10 ==> FieldOk(i + 1, Good[i])
  {
    GoodTransferNumbers();
  }

  /** The path, flags, names and ident of Good pass their checks. */
  lemma GoodTrailingFieldsPass()
    ensures forall i :: 10 <= i < 19 ==> FieldOk(i + 1, Good[i])
  {
  }

  /** Every field of Good passes its check. */
  lemma GoodFieldsPass()
    ensures forall i :: 0 <= i < 19 ==> FieldOk(i + 1, Good[i])
  {
    GoodNamesPass();
    GoodTimeFieldsPass();
    GoodTransferFieldsPass();
    GoodTrailingFieldsPass();
  }

  /** The well-formed line is accepted. */
  lemma GoodLineValid()
    ensures Validate(Join(Good)) == 0
  {
    GoodJoinable();
    GoodFieldsPass();
    WellFormedLine(Good);
  }

  /** A month name outside the table ("Jän") fails at field 2. */
  lemma MonthNotInTable()
    ensures Validate(Join(Good[1 := "Jän"])) == 2
  {
    GoodJoinable();
    GoodFieldsPass();
    JoinableUpdate(Good, 1, 1, "Jän");
    JoinedFailsAt(Good[1 := "Jän"], 2);
  }

  /**
   * The hour check accepts exactly two characters that strtoll reads in full
   * as a number in 0..24; the width counts strtoll's leading white space and
   * sign.
   */
  lemma HourAccepts()
    ensures FieldOk(4, "24") && FieldOk(4, " 5") && FieldOk(4, "+5") && FieldOk(4, "-0")
  {
    DigitsInRange("24", 0, 24);
    DecimalOfForm(" 5", 1, 1);
    assert " 5"[1..] == "5";
    DecimalOfForm("+5", 0, 1);
    assert "+5"[1..] == "5";
    DecimalOfForm("-0", 0, 1);
    assert "-0"[1..] == "0";
  }

  /** Out of range, too narrow, too wide, negative or with a leftover character: rejected. */
  lemma HourRejects()
    ensures !FieldOk(4, "25") && !FieldOk(4, "5") && !FieldOk(4, " 00") && !FieldOk(4, "-1") && !FieldOk(4, "5x")
  {
    DecimalOfForm("25", 0, 0);
    DecimalOfForm("-1", 0, 1);
    assert "-1"[1..] == "1";
    DecimalShape("5x");
  }

  /** Minutes and seconds go up to 60, days of the month up to 31. */
  lemma UpperBounds()
    ensures FieldOk(5, "60") && !FieldOk(5, "61") && FieldOk(6, "60") && !FieldOk(6, "61")
    ensures FieldOk(3, "31") && !FieldOk(3, "32")
  {
    DigitsInRange("60", 0, 60);
    DecimalOfForm("61", 0, 0);
    DigitsInRange("31", 0, 31);
    DecimalOfForm("32", 0, 0);
  }

  /** A day of the month of 32 fails at field 3. */
  lemma DayOutOfRange()
    ensures Validate(Join(Good[2 := "32"])) == 3
  {
    GoodJoinable();
    GoodFieldsPass();
    UpperBounds();
    JoinableUpdate(Good, 1, 2, "32");
    JoinedFailsAt(Good[2 := "32"], 3);
  }

  /** Transfer mode "x" fails at field 12. */
  lemma ModeNotAOrB()
    ensures Validate(Join(Good[11 := "x"])) == 12
  {
    GoodJoinable();
    GoodFieldsPass();
    JoinableUpdate(Good, 1, 11, "x");
    JoinedFailsAt(Good[11 := "x"], 12);
  }

  /** A one-digit hour ("5:05:30") fails at field 4 although 5 is in range. */
  lemma HourOneDigit()
    ensures Validate(Join(Good[3 := "5"])) == 4
  {
    GoodJoinable();
    GoodFieldsPass();
    HourRejects();
    JoinableUpdate(Good, 1, 3, "5");
    JoinedFailsAt(Good[3 := "5"], 4);
  }

  /**
   * Two spaces before the hour ("01  00:05:30"): the hour is read up to ":"
   * without skipping spaces, so its token is " 00", three characters wide.
   */
  lemma HourAfterTwoSpaces()
    ensures Validate(Join(Good[3 := " 00"])) == 4
  {
    GoodJoinable();
    GoodFieldsPass();
    HourRejects();
    JoinableUpdate(Good, 1, 3, " 00");
    JoinedFailsAt(Good[3 := " 00"], 4);
  }

  /** "01  5:05:30" is accepted: the hour token " 5" is two wide and strtoll skips its space. */
  lemma HourSpaceDigit()
    ensures Validate(Join(Good[3 := " 5"])) == 0
  {
    GoodJoinable();
    GoodFieldsPass();
    HourAccepts();
    JoinableUpdate(Good, 1, 3, " 5");
    WellFormedLine(Good[3 := " 5"]);
  }

  /** A line that stops after field 18, which then keeps the newline ("... group 0\n"), fails at field 18. */
  lemma NewlineInLastField()
    ensures Validate(Join(Good[..17] + ["0\n"])) == 18
  {
    GoodJoinable();
    GoodFieldsPass();
    var fs := Good[..17] + ["0\n"];
    assert Joinable(fs, 1) by {
      forall i | 0 <= i < |fs| ensures |fs[i]| > 0 && '\0' !in fs[i] && Delim(1 + i) !in fs[i] {
        if i < 17 { assert fs[i] == Good[i]; }
      }
    }
    assert forall i :: 0 <= i < 17 ==> fs[i] == Good[i];
    JoinedFailsAt(fs, 18);
  }

  /** A line cut after field 10 fails at field 11. */
  lemma CutAfterSize()
    ensures Validate(Join(Good[..10])) == 11
  {
    GoodJoinable();
    GoodFieldsPass();
    TruncatedLine(Good[..10]);
  }

  /**
   * The same line as getline delivers it, "... 1024\n": the newline stays in
   * the size token, strtoll leaves it over, and the line fails at field 10.
   */
  lemma CutAfterSizeWithNewline()
    ensures Validate(Join(Good[..9] + ["1024\n"])) == 10
  {
    GoodJoinable();
    GoodFieldsPass();
    var fs := Good[..9] + ["1024\n"];
    assert Joinable(fs, 1) by {
      forall i | 0 <= i < |fs| ensures |fs[i]| > 0 && '\0' !in fs[i] && Delim(1 + i) !in fs[i] {
        if i < 9 { assert fs[i] == Good[i]; }
      }
    }
    assert forall i :: 0 <= i < 9 ==> fs[i] == Good[i];
    DecimalShape("1024\n");
    JoinedFailsAt(fs, 10);
  }

  /** A space before the newline ("... ident \n") leaves "\n" as a 20th token: field 20. */
  lemma SpaceBeforeNewline()
    ensures Validate(Join(Good[18 := "ident"] + ["\n"])) == 20
  {
    GoodJoinable();
    GoodFieldsPass();
    var fs := Good[18 := "ident"] + ["\n"];
    assert Joinable(fs, 1) by {
      forall i | 0 <= i < |fs| ensures |fs[i]| > 0 && '\0' !in fs[i] && Delim(1 + i) !in fs[i] {
        if i < 18 { assert fs[i] == Good[i]; }
      }
    }
    assert forall i :: 0 <= i < 18 ==> fs[i] == Good[i];
    ExtraTokenLine(fs);
  }

  /** With a bad month and a 20th token the result is 2, not 20: the first failure wins. */
  lemma BadMonthAndExtraToken()
    ensures Validate(Join(Good[1 := "Jän"] + ["extra"])) == 2
  {
    GoodJoinable();
    GoodFieldsPass();
    var fs := Good[1 := "Jän"] + ["extra"];
    assert Joinable(fs, 1) by {
      forall i | 0 <= i < |fs| ensures |fs[i]| > 0 && '\0' !in fs[i] && Delim(1 + i) !in fs[i] {
        if i != 1 && i < 19 { assert fs[i] == Good[i]; }
      }
    }
    assert fs[0] == Good[0];
    JoinedFailsAt(fs, 2);
  }

  /** A blank line, as getline returns it, fails at field 1: its only token "\n" is no weekday. */
  lemma BlankLine()
    ensures Validate("\n") == 1
  {
  }

  /** A blank line anywhere in the log is reported, with its own number and field 1. */
  lemma BlankLineReported(lines: seq<string>, i: nat)
    requires i < |lines| && lines[i] == "\n"
    ensures Report(i + 1, 1, "\n") in ReportsFrom(lines, Validate, 0)
  {
    BlankLine();
    Reported(lines, Validate, 0, i);
  }
}
