/** The string operations the task list relies on: JavaScript's
    `String.prototype.trim`, `toLowerCase` and `includes`, on `seq<char>`. */
module Text {

  /** The code points `trim` removes: JavaScript's WhiteSpace (tab, vertical tab,
      form feed, space, no-break space, byte-order mark and the other space
      separators) and LineTerminator (line feed, carriage return, line and
      paragraph separator). */
  predicate IsSpace(c: char) {
    || c == '\t' || c == '\n' || c == '\U{000B}' || c == '\U{000C}' || c == '\r'
    || c == ' ' || c == '\U{00A0}' || c == '\U{1680}'
    || ('\U{2000}' <= c <= '\U{200A}')
    || c == '\U{2028}' || c == '\U{2029}' || c == '\U{202F}' || c == '\U{205F}'
    || c == '\U{3000}' || c == '\U{FEFF}'
  }

  /** Every character of `s` is white space (this includes the empty string). */
  predicate AllSpace(s: string) {
    forall i :: 0 <= i < |s| ==> IsSpace(s[i])
  }

  /** `s` neither starts nor ends with white space. */
  predicate Trimmed(s: string) {
    s == [] || (!IsSpace(s[0]) && !IsSpace(s[|s| - 1]))
  }

  /** The first index at or after `i` whose character is not white space, or
      `|s|` when there is none. */
  function SkipSpace(s: string, i: nat): (k: nat)
    requires i <= |s|
    ensures i <= k <= |s|
    ensures forall j :: i <= j < k ==> IsSpace(s[j])
    ensures k == |s| || !IsSpace(s[k])
    decreases |s| - i
  {
    if i < |s| && IsSpace(s[i]) then SkipSpace(s, i + 1) else i
  }

  /** Moves the end `j` back over white space, stopping at `lo`. */
  function SkipSpaceBack(s: string, lo: nat, j: nat): (m: nat)
    requires lo <= j <= |s|
    ensures lo <= m <= j
    ensures forall i :: m <= i < j ==> IsSpace(s[i])
    ensures m == lo || !IsSpace(s[m - 1])
    decreases j
  {
    if lo < j && IsSpace(s[j - 1]) then SkipSpaceBack(s, lo, j - 1) else j
  }

  /** `trim`: `s` without its leading and trailing white space. The result is
      empty exactly when `s` is all white space, and it needs no further trimming. */
  function Trim(s: string): (r: string)
    ensures Trimmed(r)
    ensures r == [] <==> AllSpace(s)
  {
    var k := SkipSpace(s, 0);
    var m := SkipSpaceBack(s, k, |s|);
    s[k..m]
  }

  /** What `Trim` cuts off is white space on either side of a contiguous part of `s`. */
  lemma TrimIsInfix(s: string)
    ensures var t := Trim(s);
      exists k :: 0 <= k <= |s| - |t| && t == s[k..k + |t|] && AllSpace(s[..k]) && AllSpace(s[k + |t|..])
  {
    var k := SkipSpace(s, 0);
    var m := SkipSpaceBack(s, k, |s|);
    assert Trim(s) == s[k..m];
    assert forall j :: 0 <= j < k ==> s[..k][j] == s[j];
    assert forall j :: 0 <= j < |s| - m ==> s[m..][j] == s[m + j];
    assert AllSpace(s[..k]) && AllSpace(s[m..]);
  }

  /** A string that is already trimmed is left alone, so trimming twice is the
      same as trimming once. */
  lemma {:induction false} TrimOfTrimmed(s: string)
    requires Trimmed(s)
    ensures Trim(s) == s
  {
    assert SkipSpace(s, 0) == 0;
    assert SkipSpaceBack(s, 0, |s|) == |s|;
    assert s[0..|s|] == s;
  }

  lemma TrimIdempotent(s: string)
    ensures Trim(Trim(s)) == Trim(s)
  {
    TrimOfTrimmed(Trim(s));
  }

  /** `toLowerCase` for the ASCII letters and the upper-case letters of Latin-1. */
  function LowerChar(c: char): (d: char)
    ensures IsSpace(d) <==> IsSpace(c)
    ensures ('A' <= c <= 'Z') ==> d as int == c as int + 32
    ensures ('\U{00C0}' <= c <= '\U{00DE}') && c != '\U{00D7}' ==> d as int == c as int + 32
    ensures c == '\U{00D7}' ==> d == c
    ensures !('A' <= c <= 'Z') && !('\U{00C0}' <= c <= '\U{00DE}') ==> d == c
  {
    if 'A' <= c <= 'Z' || ('\U{00C0}' <= c <= '\U{00DE}' && c != '\U{00D7}')
    then (c as int + 32) as char
    else c
  }

  function Lower(s: string): (r: string)
    ensures |r| == |s|
    ensures forall i :: 0 <= i < |s| ==> r[i] == LowerChar(s[i])
  {
    if s == [] then [] else [LowerChar(s[0])] + Lower(s[1..])
  }

  /** `includes`: `sub` occurs in `s` at some position. */
  predicate Contains(s: string, sub: string)
    ensures Contains(s, sub) ==> |sub| <= |s|
    ensures sub <= s ==> Contains(s, sub)
  {
    assert sub <= s ==> sub <= s[0..];
    exists i :: 0 <= i <= |s| && sub <= s[i..]
  }

  lemma ContainsEmpty(s: string)
    ensures Contains(s, [])
  {
    assert [] <= s[0..];
  }
}
