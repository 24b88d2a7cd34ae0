/**
 * One call of C's `strtok` on a private copy of the line. The hidden cursor of
 * `strtok` is an index `pos` into the copy: the caller passes it in and gets
 * the new one back. A call skips the characters of the delimiter set, then
 * takes the maximal run of non-delimiters as the token; the delimiter that ends
 * the token is consumed as well (C overwrites it with a NUL), so the cursor
 * rests just past it, or at the end of the line when the token reaches the end.
 */
module Tokenizer {
  import opened Wrappers
  import opened CStrings

  /** The outcome of one call: the token, if any, and where the cursor rests afterwards. */
  datatype Step = Step(token: Option<string>, next: nat)

  function Strtok(s: string, pos: nat, delims: set<char>): (r: Step)
    requires pos <= |s|
    ensures pos <= r.next <= |s|
    ensures r.token.None? ==> r.next == |s|
    ensures r.token.Some? ==> pos < r.next && |r.token.value| > 0
  {
    var b := Span(s, pos, delims);
    if b == |s| then Step(None, |s|)
    else
      var e := CSpan(s, b, delims);
      Step(Some(s[b..e]), if e == |s| then e else e + 1)
  }

  /**
   * There is no token exactly when only delimiters remain, and a token holds
   * no delimiter.
   */
  lemma StrtokFacts(s: string, pos: nat, delims: set<char>)
    requires pos <= |s|
    ensures var r := Strtok(s, pos, delims);
            (r.token.None? <==> forall k :: pos <= k < |s| ==> s[k] in delims) &&
            (r.token.Some? ==> forall k :: 0 <= k < |r.token.value| ==> r.token.value[k] !in delims)
  {
  }

  /**
   * The token read at `pos` is the whole of `t` when `t` stands at `pos`, holds
   * no delimiter and is followed by a delimiter or by the end of the line.
   */
  lemma StrtokAt(s: string, pos: nat, delims: set<char>, t: string)
    requires pos + |t| <= |s| && s[pos..pos + |t|] == t
    requires |t| > 0 && forall k :: 0 <= k < |t| ==> t[k] !in delims
    requires pos + |t| == |s| || s[pos + |t|] in delims
    ensures Strtok(s, pos, delims) == Step(Some(t), if pos + |t| == |s| then |s| else pos + |t| + 1)
  {
    assert s[pos] == t[0];
    SpanUnique(s, pos, delims, pos);
    forall k | pos <= k < pos + |t| ensures s[k] !in delims {
      assert s[k] == t[k - pos];
    }
    CSpanUnique(s, pos, delims, pos + |t|);
  }

  /**
   * The cursor method: it scans the copy as glibc's strtok does, with strspn
   * over the delimiters and then strcspn up to the next one, and gives back
   * the token and the new cursor.
   */
  method NextToken(s: string, pos: nat, delims: set<char>) returns (tok: Option<string>, next: nat)
    requires pos <= |s|
    ensures Step(tok, next) == Strtok(s, pos, delims)
  {
    var b := SpanLoop(s, pos, delims);
    if b == |s| {
      return None, |s|;
    }
    var e := CSpanLoop(s, b, delims);
    tok := Some(s[b..e]);
    // The delimiter at s[e], if any, is the one C overwrites with a NUL.
    next := if e == |s| then e else e + 1;
  }
}
