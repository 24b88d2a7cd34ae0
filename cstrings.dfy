/**
 * The three C string routines the validator relies on, over a line held as a
 * sequence of characters: `strspn`, `strcspn` (both as positions reached from
 * a starting index) and the copy made by `strcpy`, which stops at the first NUL.
 */
module CStrings {

  /** strspn from index `i`: the end of the run of characters of `cs` starting at `i`. */
  function Span(s: string, i: nat, cs: set<char>): (r: nat)
    requires i <= |s|
    ensures i <= r <= |s|
    ensures forall k :: i <= k < r ==> s[k] in cs
    ensures r == |s| || s[r] !in cs
    decreases |s| - i
  {
    if i < |s| && s[i] in cs then Span(s, i + 1, cs) else i
  }

  /** strcspn from index `i`: the end of the run of characters NOT in `cs` starting at `i`. */
  function CSpan(s: string, i: nat, cs: set<char>): (r: nat)
    requires i <= |s|
    ensures i <= r <= |s|
    ensures forall k :: i <= k < r ==> s[k] !in cs
    ensures r == |s| || s[r] in cs
    decreases |s| - i
  {
    if i < |s| && s[i] !in cs then CSpan(s, i + 1, cs) else i
  }

  /** strspn as the loop libc runs. */
  method SpanLoop(s: string, i: nat, cs: set<char>) returns (r: nat)
    requires i <= |s|
    ensures r == Span(s, i, cs)
  {
    r := i;
    while r < |s| && s[r] in cs
      invariant i <= r <= |s|
      invariant Span(s, r, cs) == Span(s, i, cs)
    {
      r := r + 1;
    }
  }

  /** strcspn as the loop libc runs. */
  method CSpanLoop(s: string, i: nat, cs: set<char>) returns (r: nat)
    requires i <= |s|
    ensures r == CSpan(s, i, cs)
  {
    r := i;
    while r < |s| && s[r] !in cs
      invariant i <= r <= |s|
      invariant CSpan(s, r, cs) == CSpan(s, i, cs)
    {
      r := r + 1;
    }
  }

  /** The run that Span measures is unique: any index with its two properties is Span's result. */
  lemma {:induction false} SpanUnique(s: string, i: nat, cs: set<char>, r: nat)
    requires i <= r <= |s|
    requires forall k :: i <= k < r ==> s[k] in cs
    requires r == |s| || s[r] !in cs
    ensures Span(s, i, cs) == r
    decreases r - i
  {
    if i < r {
      SpanUnique(s, i + 1, cs, r);
    }
  }

  /** The same for CSpan. */
  lemma {:induction false} CSpanUnique(s: string, i: nat, cs: set<char>, r: nat)
    requires i <= r <= |s|
    requires forall k :: i <= k < r ==> s[k] !in cs
    requires r == |s| || s[r] in cs
    ensures CSpan(s, i, cs) == r
    decreases r - i
  {
    if i < r {
      CSpanUnique(s, i + 1, cs, r);
    }
  }

  /**
   * What strcpy copies out of a line buffer: the C string, i.e. everything up
   * to (not including) the first NUL character.
   */
  function CString(s: string): (r: string)
    ensures r <= s
    ensures '\0' !in r
    ensures |r| < |s| ==> s[|r|] == '\0'
  {
    s[..CSpan(s, 0, {'\0'})]
  }

  /** A line without NUL characters is copied whole. */
  lemma CStringWhole(s: string)
    requires '\0' !in s
    ensures CString(s) == s
  {
  }
}
