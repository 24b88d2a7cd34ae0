/**
 * C's `strtoll(tok, &e, 10)` with `errno`: the conversion the validator applies
 * to its numeric fields. The C standard defines it by its "subject sequence":
 * the longest initial part of the string made of optional white space (the six
 * `isspace` characters of the C locale), an optional sign and at least one
 * decimal digit. `e` is left just past that part, or at the start of the string
 * when there is none; a value outside the signed 64-bit range is clamped and
 * sets `errno` to ERANGE.
 */
module Numbers {
  import opened Wrappers
  import opened CStrings

  const LLongMin: int := -0x8000_0000_0000_0000
  const LLongMax: int := 0x7FFF_FFFF_FFFF_FFFF

  /** isspace in the C locale: space, tab, newline, vertical tab, form feed, carriage return. */
  const CSpace: set<char> := {' ', '\t', '\n', '\U{000B}', '\U{000C}', '\r'}
  const Digits: set<char> := {'0', '1', '2', '3', '4', '5', '6', '7', '8', '9'}

  predicate InLLong(v: int) { LLongMin <= v <= LLongMax }

  function DigitValue(c: char): (d: nat)
    requires c in Digits
    ensures d < 10
  {
    c as int - '0' as int
  }

  /** The number a string of decimal digits denotes, read most significant digit first. */
  function Value(d: string): nat
    requires forall i :: 0 <= i < |d| ==> d[i] in Digits
  {
    if |d| == 0 then 0 else 10 * Value(d[..|d| - 1]) + DigitValue(d[|d| - 1])
  }

  /** Reading one more digit multiplies what was read by ten and adds the digit. */
  lemma ValueAppend(s: string, b: nat, k: nat)
    requires b <= k < |s|
    requires forall j :: b <= j <= k ==> s[j] in Digits
    ensures Value(s[b..k + 1]) == 10 * Value(s[b..k]) + DigitValue(s[k])
  {
    assert s[b..k + 1][..k - b] == s[b..k];
  }

  /** Where the optional sign ends, given where the white space ends. */
  function SignEnd(t: string, a: nat): (b: nat)
    requires a <= |t|
    ensures a <= b <= a + 1 && b <= |t|
    ensures b == a + 1 <==> a < |t| && (t[a] == '+' || t[a] == '-')
  {
    if a < |t| && (t[a] == '+' || t[a] == '-') then a + 1 else a
  }

  /**
   * The value of `t` when the WHOLE of `t` is a subject sequence of base-10
   * strtoll, and None otherwise. This is the reference reading of a token.
   */
  function Decimal(t: string): Option<int>
  {
    var a := Span(t, 0, CSpace);
    var b := SignEnd(t, a);
    if b < |t| && Span(t, b, Digits) == |t| then
      Some(Signed(b > a && t[a] == '-', Value(t[b..])))
    else
      None
  }

  /** One more digit on the right: the value so far times ten plus the digit. */
  lemma ValueSnoc(d: string, c: char)
    requires forall i :: 0 <= i < |d| ==> d[i] in Digits
    requires c in Digits
    ensures Value(d + [c]) == 10 * Value(d) + DigitValue(c)
  {
    assert (d + [c])[..|d|] == d;
  }

  /** Digits lie between '0' and '9', C white space at or below ' ': no character is both, nor a sign. */
  lemma DigitIsNotSpaceOrSign(c: char)
    requires c in Digits
    ensures c !in CSpace && c != '+' && c != '-'
  {
    assert '0' <= c <= '9';
  }

  /**
   * The accepted form: C white space up to `a`, an optional sign up to `b` and
   * at least one digit from there to the end; the token reads as the value of
   * the digits with the sign applied.
   */
  lemma DecimalOfForm(t: string, a: nat, b: nat)
    requires a <= b <= a + 1 && b < |t|
    requires forall i :: 0 <= i < a ==> t[i] in CSpace
    requires b == a + 1 ==> t[a] == '+' || t[a] == '-'
    requires forall i :: b <= i < |t| ==> t[i] in Digits
    ensures Decimal(t) == Some(Signed(b > a && t[a] == '-', Value(t[b..])))
  {
    DigitIsNotSpaceOrSign(t[b]);
    assert t[a] !in CSpace;
    SpanUnique(t, 0, CSpace, a);
    SpanUnique(t, b, Digits, |t|);
  }

  /**
   * An accepted token is never empty, ends in a digit (nothing is left over)
   * and has a digit just after the white space and the sign.
   */
  lemma DecimalShape(t: string)
    ensures Decimal(t).Some? ==> |t| > 0 && t[|t| - 1] in Digits &&
                                 t[SignEnd(t, Span(t, 0, CSpace))] in Digits
  {
    if Decimal(t).Some? {
      var b := SignEnd(t, Span(t, 0, CSpace));
      assert b <= |t| - 1;
    }
  }

  /** What strtoll returns on overflow: the nearest representable bound. */
  function Clamp(v: int): (r: int)
    ensures InLLong(r)
    ensures InLLong(v) ==> r == v
    ensures v > LLongMax ==> r == LLongMax
    ensures v < LLongMin ==> r == LLongMin
  {
    if v > LLongMax then LLongMax else if v < LLongMin then LLongMin else v
  }

  /** A magnitude with its sign applied. */
  function Signed(negative: bool, m: nat): int
  {
    if negative then -(m as int) else m
  }

  /** Where the subject sequence of `s` ends: after the digit run, or 0 when there are no digits. */
  function SubjectEnd(s: string): (end: nat)
    ensures end <= |s|
  {
    var b := SignEnd(s, Span(s, 0, CSpace));
    var k := Span(s, b, Digits);
    if k == b then 0 else k
  }

  /**
   * Which prefixes of `s` are subject sequences: exactly those that end after
   * the sign and inside the digit run of `s`.
   */
  lemma DecimalOfPrefix(s: string, n: nat)
    requires n <= |s|
    ensures var a := Span(s, 0, CSpace);
            var b := SignEnd(s, a);
            var k := Span(s, b, Digits);
            (Decimal(s[..n]).Some? <==> b < n <= k) &&
            (b < n <= k ==> Decimal(s[..n]).value == Signed(b > a && s[a] == '-', Value(s[b..n])))
  {
    var p := s[..n];
    var a := Span(s, 0, CSpace);
    var b := SignEnd(s, a);
    var k := Span(s, b, Digits);
    if n <= a {
      SpanUnique(p, 0, CSpace, n);
    } else {
      SpanUnique(p, 0, CSpace, a);
      assert SignEnd(p, a) == b;
      if b <= n {
        var kk := if k < n then k else n;
        SpanUnique(p, b, Digits, kk);
        assert p[b..] == s[b..n];
      }
    }
  }

  /**
   * The subject sequence is the LONGEST prefix that Decimal accepts: the
   * prefix ending at SubjectEnd is accepted (when that is not 0) and no longer
   * prefix is.
   */
  lemma SubjectIsLongest(s: string)
    ensures var a := Span(s, 0, CSpace);
            var b := SignEnd(s, a);
            var end := SubjectEnd(s);
            (end > 0 ==> Decimal(s[..end]) == Some(Signed(b > a && s[a] == '-', Value(s[b..end])))) &&
            forall j :: end < j <= |s| ==> Decimal(s[..j]).None?
  {
    var end := SubjectEnd(s);
    if end > 0 {
      DecimalOfPrefix(s, end);
    }
    forall j | end < j <= |s| ensures Decimal(s[..j]).None? {
      DecimalOfPrefix(s, j);
    }
  }

  /**
   * What strtoll's three outputs mean once `end` is known to be SubjectEnd(s)
   * and `num`, `erange` follow from the value of the prefix before it.
   */
  lemma ConversionFacts(s: string, num: int, end: nat, erange: bool)
    requires end == SubjectEnd(s)
    requires end == 0 ==> num == 0 && !erange
    requires end > 0 ==> Decimal(s[..end]).Some?
    requires end > 0 ==> num == Clamp(Decimal(s[..end]).value) && erange == !InLLong(Decimal(s[..end]).value)
    ensures forall j :: end < j <= |s| ==> Decimal(s[..j]).None?
    ensures |s| > 0 ==> ((end == |s| && !erange) <==> (Decimal(s).Some? && InLLong(Decimal(s).value)))
    ensures |s| > 0 && end == |s| && !erange ==> num == Decimal(s).value
  {
    SubjectIsLongest(s);
    assert s[..|s|] == s;
  }

  /** The digit loop of strtoll: the end of the digit run from `b` and the value it spells. */
  method ReadDigits(s: string, b: nat) returns (k: nat, acc: nat)
    requires b <= |s|
    ensures k == Span(s, b, Digits)
    ensures acc == Value(s[b..k])
  {
    k, acc := b, 0;
    while k < |s| && s[k] in Digits
      invariant b <= k <= |s|
      invariant Span(s, k, Digits) == Span(s, b, Digits)
      invariant forall j :: b <= j < k ==> s[j] in Digits
      invariant acc == Value(s[b..k])
    {
      ValueAppend(s, b, k);
      acc := 10 * acc + DigitValue(s[k]);
      k := k + 1;
    }
  }

  /**
   * strtoll(s, &e, 10) with errno cleared beforehand: `num` is the result,
   * `end` the index `e` is left at, `erange` whether errno became ERANGE.
   * The digits are accumulated without bound and clamped once at the end; glibc
   * detects the overflow digit by digit, with the same outcome.
   */
  method Strtoll(s: string) returns (num: int, end: nat, erange: bool)
    ensures end <= |s|
    // `e` stops just past the longest prefix that is a subject sequence ...
    ensures end > 0 ==> Decimal(s[..end]).Some?
    ensures forall j :: end < j <= |s| ==> Decimal(s[..j]).None?
    // ... and stays at the start when there is none
    ensures end == 0 ==> num == 0 && !erange
    ensures end > 0 ==> num == Clamp(Decimal(s[..end]).value)
    ensures end > 0 ==> (erange <==> !InLLong(Decimal(s[..end]).value))
    // consequently, for a non-empty token: nothing left over and no ERANGE
    // exactly when the whole token is a representable decimal number
    ensures |s| > 0 ==> ((end == |s| && !erange) <==> (Decimal(s).Some? && InLLong(Decimal(s).value)))
    ensures |s| > 0 && end == |s| && !erange ==> num == Decimal(s).value
  {
    var i := SpanLoop(s, 0, CSpace);
    var neg := false;
    var b := i;
    if i < |s| && (s[i] == '+' || s[i] == '-') {
      neg := s[i] == '-';
      b := i + 1;
    }
    var k, acc := ReadDigits(s, b);
    if k == b {
      num, end, erange := 0, 0, false;
    } else {
      var v := Signed(neg, acc);
      num, end, erange := Clamp(v), k, !InLLong(v);
      SubjectIsLongest(s);
      assert Decimal(s[..end]) == Some(v);
    }
    ConversionFacts(s, num, end, erange);
  }
}
