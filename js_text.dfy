/**
 * JavaScript strings as the program sees them: sequences of UTF-16 code units.
 * `String.prototype.slice` and `String.prototype.trim`, which the score route
 * and the name form rely on, both work on code units, not on code points.
 */
module JsText {

  /** One UTF-16 code unit. */
  type CodeUnit = u: int | 0 <= u < 0x1_0000

  type JsString = seq<CodeUnit>

  /**
   * The code units `trim` strips: ECMAScript's WhiteSpace (TAB, VT, FF, SP,
   * NBSP, ZWNBSP and the Unicode space separators) and LineTerminator (LF,
   * CR, LS, PS). All of them lie in the basic multilingual plane.
   */
  predicate IsWhiteSpace(u: CodeUnit) {
    u == 0x09 || u == 0x0A || u == 0x0B || u == 0x0C || u == 0x0D || u == 0x20
    || u == 0xA0 || u == 0x1680 || (0x2000 <= u <= 0x200A)
    || u == 0x2028 || u == 0x2029 || u == 0x202F || u == 0x205F
    || u == 0x3000 || u == 0xFEFF
  }

  /** Every code unit of `s[lo..hi]` is white space. */
  predicate WhiteSpaceBetween(s: JsString, lo: int, hi: int) {
    forall k :: lo <= k < hi && 0 <= k < |s| ==> IsWhiteSpace(s[k])
  }

  predicate AllWhiteSpace(s: JsString) {
    WhiteSpaceBetween(s, 0, |s|)
  }

  /** `s.slice(0, n)` for a non-negative literal `n`. */
  function Slice(s: JsString, n: nat): (r: JsString)
    ensures |r| <= n && |r| <= |s|
    ensures |r| == if |s| <= n then |s| else n
    ensures r == s[..|r|]
  {
    if |s| <= n then s else s[..n]
  }

  /** The index of the first code unit at or after `from` that is not white space, or |s|. */
  function FirstKept(s: JsString, from: nat): (i: nat)
    requires from <= |s|
    ensures from <= i <= |s| && WhiteSpaceBetween(s, from, i)
    ensures i < |s| ==> !IsWhiteSpace(s[i])
    decreases |s| - from
  {
    if from < |s| && IsWhiteSpace(s[from]) then FirstKept(s, from + 1) else from
  }

  /** One past the last code unit of `s[lo..hi]` that is not white space, or `lo`. */
  function EndKept(s: JsString, lo: nat, hi: nat): (j: nat)
    requires lo <= hi <= |s|
    ensures lo <= j <= hi && WhiteSpaceBetween(s, j, hi)
    ensures j > lo ==> !IsWhiteSpace(s[j - 1])
    decreases hi
  {
    if hi > lo && IsWhiteSpace(s[hi - 1]) then EndKept(s, lo, hi - 1) else hi
  }

  /**
   * `s.trim()`: what it keeps is the contiguous piece `s[i..i+|r|]` that
   * neither starts nor ends with white space, and what it drops on either
   * side is white space only.
   */
  function Trim(s: JsString): (r: JsString)
    ensures var i := FirstKept(s, 0);
      && i + |r| <= |s|
      && r == s[i..i + |r|]
      && WhiteSpaceBetween(s, 0, i) && WhiteSpaceBetween(s, i + |r|, |s|)
      && (r != [] ==> !IsWhiteSpace(r[0]) && !IsWhiteSpace(r[|r| - 1]))
  {
    var i := FirstKept(s, 0);
    var j := EndKept(s, i, |s|);
    s[i..j]
  }

  /** `trim` yields the empty string exactly when its argument is all white space. */
  lemma TrimEmptyIff(s: JsString)
    ensures Trim(s) == [] <==> AllWhiteSpace(s)
  {
    var i := FirstKept(s, 0);
    if Trim(s) != [] {
      assert s[i] == Trim(s)[0];
    }
  }

  /** Trimming twice is trimming once. */
  lemma TrimIdempotent(s: JsString)
    ensures Trim(Trim(s)) == Trim(s)
  {
    var r := Trim(s);
    if r != [] {
      assert FirstKept(r, 0) == 0;
      assert EndKept(r, 0, |r|) == |r|;
      assert r[0..|r|] == r;
    }
  }
}
