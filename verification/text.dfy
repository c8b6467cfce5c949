/**
 * The two pieces of JavaScript string semantics the router relies on:
 * the white-space class shared by `String.prototype.trim` and the regular
 * expression escape `\s`, and ASCII letter case folding.
 */
module JsText {

  /**
   * JavaScript WhiteSpace and LineTerminator code points: tab, line feed,
   * vertical tab, form feed, carriage return, space, no-break space, the
   * space separators of Unicode category Zs, the line and paragraph
   * separators, and the byte-order mark.
   */
  predicate IsSpace(c: char) {
    || c == '\t' || c == '\n' || c == '\U{000B}' || c == '\U{000C}' || c == '\r'
    || c == ' ' || c == '\U{00A0}' || c == '\U{1680}'
    || ('\U{2000}' <= c <= '\U{200A}')
    || c == '\U{2028}' || c == '\U{2029}' || c == '\U{202F}' || c == '\U{205F}'
    || c == '\U{3000}' || c == '\U{FEFF}'
  }

  predicate IsUpperAscii(c: char) {
    'A' <= c <= 'Z'
  }

  /** Maps 'A'..'Z' to 'a'..'z' and leaves every other character alone. */
  function LowerAscii(c: char): (r: char)
    ensures IsUpperAscii(c) ==> 'a' <= r <= 'z' && r as int - c as int == 32
    ensures !IsUpperAscii(c) ==> r == c
  {
    if IsUpperAscii(c) then (c as int + 32) as char else c
  }

  /**
   * What folding means when a text character `c` is compared with a
   * lower-case pattern character `p` under the `i` flag: a pattern letter
   * matches exactly its two ASCII case forms, any other pattern character
   * matches only itself, and a folded character stays folded.
   */
  lemma FoldedComparison(c: char, p: char)
    requires !IsUpperAscii(p)
    ensures 'a' <= p <= 'z' ==> (LowerAscii(c) == p <==> c == p || c as int == p as int - 32)
    ensures !('a' <= p <= 'z') ==> (LowerAscii(c) == p <==> c == p)
    ensures !IsUpperAscii(LowerAscii(c)) && LowerAscii(LowerAscii(c)) == LowerAscii(c)
  {
  }

  /** Two characters are equal up to ASCII letter case. */
  predicate SameUpToCase(c: char, d: char) {
    LowerAscii(c) == LowerAscii(d)
  }

  /** Folding case never turns a character into, or out of, white space or '-'. */
  lemma SameUpToCaseKeepsClass(c: char, d: char)
    requires SameUpToCase(c, d)
    ensures IsSpace(c) <==> IsSpace(d)
    ensures c == '-' <==> d == '-'
  {
  }

  /** The number of white-space characters at the start of `s`. */
  function LeadingSpaces(s: string): (n: nat)
    ensures n <= |s|
    ensures forall i :: 0 <= i < n ==> IsSpace(s[i])
    ensures n < |s| ==> !IsSpace(s[n])
  {
    if |s| == 0 || !IsSpace(s[0]) then 0 else 1 + LeadingSpaces(s[1..])
  }

  /** The number of white-space characters at the end of `s`. */
  function TrailingSpaces(s: string): (n: nat)
    ensures n <= |s|
    ensures forall i :: |s| - n <= i < |s| ==> IsSpace(s[i])
    ensures n < |s| ==> !IsSpace(s[|s| - 1 - n])
  {
    if |s| == 0 || !IsSpace(s[|s| - 1]) then 0 else 1 + TrailingSpaces(s[..|s| - 1])
  }

  /**
   * `s[lo..hi]` is what trimming leaves of `s`: everything before `lo` and
   * from `hi` on is white space, and the kept part neither starts nor ends
   * with white space.
   */
  predicate TrimmedAt(s: string, lo: nat, hi: nat) {
    && lo <= hi <= |s|
    && (forall i :: 0 <= i < lo ==> IsSpace(s[i]))
    && (forall i :: hi <= i < |s| ==> IsSpace(s[i]))
    && (lo < hi ==> !IsSpace(s[lo]) && !IsSpace(s[hi - 1]))
  }

  /** The bounds `String.prototype.trim` keeps. */
  function TrimBounds(s: string): (b: (nat, nat))
    ensures TrimmedAt(s, b.0, b.1)
  {
    var lo := LeadingSpaces(s);
    var t := TrailingSpaces(s[lo..]);
    (lo, |s| - t)
  }

  /** `String.prototype.trim`: drops leading and trailing white space. */
  function Trim(s: string): (r: string)
    ensures exists lo: nat, hi: nat :: TrimmedAt(s, lo, hi) && r == s[lo..hi]
    ensures |r| <= |s|
    ensures r == [] || (!IsSpace(r[0]) && !IsSpace(r[|r| - 1]))
  {
    var b := TrimBounds(s);
    s[b.0..b.1]
  }

  /** Non-empty trimmed bounds are unique, so `Trim` is fully determined by `TrimmedAt`. */
  lemma TrimmedAtUnique(s: string, lo: nat, hi: nat, lo': nat, hi': nat)
    requires TrimmedAt(s, lo, hi) && TrimmedAt(s, lo', hi')
    ensures s[lo..hi] == s[lo'..hi']
  {
    if lo < hi && lo' < hi' {
      assert lo == lo' && hi == hi';
    }
  }

  /** Trimming twice is the same as trimming once. */
  lemma TrimIdempotent(s: string)
    ensures Trim(Trim(s)) == Trim(s)
  {
    var r := Trim(s);
    assert TrimmedAt(r, 0, |r|);
    var lo: nat, hi: nat :| TrimmedAt(r, lo, hi) && Trim(r) == r[lo..hi];
    TrimmedAtUnique(r, lo, hi, 0, |r|);
  }
}
