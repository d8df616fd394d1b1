/** Byte strings as the core library uses them: case folding, the hash function
    and the two ways in which a host name is cut into labels. */
module Text {

  const DOT: char := '.'
  const NUL: char := '\0'

  /** ngx_tolower: only the ASCII letters are folded. */
  function LowerChar(c: char): (r: char)
    ensures r == '.' <==> c == '.'
    ensures !('A' <= r <= 'Z')
  {
    if 'A' <= c <= 'Z' then (c as int + 32) as char else c
  }

  const UPPER_LETTERS := "ABCDEFGHIJKLMNOPQRSTUVWXYZ"
  const LOWER_LETTERS := "abcdefghijklmnopqrstuvwxyz"

  /** The letters are folded one by one, and nothing else is. */
  lemma FoldsLetters()
    ensures |UPPER_LETTERS| == |LOWER_LETTERS| == 26
    ensures forall k :: 0 <= k < 26 ==> LowerChar(UPPER_LETTERS[k]) == LOWER_LETTERS[k]
    ensures forall c :: c !in UPPER_LETTERS ==> LowerChar(c) == c
  {
    assert forall k :: 0 <= k < 26 ==> UPPER_LETTERS[k] as int == 'A' as int + k;
    assert forall k :: 0 <= k < 26 ==> LOWER_LETTERS[k] as int == 'a' as int + k;
    forall c | 'A' <= c <= 'Z' ensures c in UPPER_LETTERS { assert c == UPPER_LETTERS[c as int - 'A' as int]; }
  }

  /** Is `b` the text `a` with its letters in lower case? */
  ghost predicate Folded(a: string, b: string) {
    |a| == |b| && forall i :: 0 <= i < |a| ==> FoldedChar(a[i], b[i])
  }

  ghost predicate FoldedChar(c: char, d: char) {
    if c in UPPER_LETTERS then exists k :: 0 <= k < 26 && UPPER_LETTERS[k] == c && LOWER_LETTERS[k] == d else d == c
  }

  lemma FoldedIff(a: string, b: string)
    ensures Folded(a, b) <==> b == Lower(a)
  {
    FoldsLetters();
    forall c, d ensures FoldedChar(c, d) <==> d == LowerChar(c) {
      if c in UPPER_LETTERS {
        var k :| 0 <= k < 26 && UPPER_LETTERS[k] == c;
        assert LowerChar(c) == LOWER_LETTERS[k];
      }
    }
  }

  function Lower(s: string): (r: string)
    ensures |r| == |s|
    ensures forall i :: 0 <= i < |s| ==> r[i] == LowerChar(s[i])
  {
    seq(|s|, i requires 0 <= i < |s| => LowerChar(s[i]))
  }

  predicate IsLower(s: string) {
    forall i :: 0 <= i < |s| ==> LowerChar(s[i]) == s[i]
  }

  lemma LowerFixes(s: string)
    ensures IsLower(Lower(s))
    ensures IsLower(s) <==> Lower(s) == s
  {}

  const WORD_LIMIT: nat := 0x1_0000_0000_0000_0000

  /** One step of the multiplicative hash in a 64-bit ngx_uint_t. */
  function HashStep(key: nat, c: char): nat {
    (key * 31 + c as int) % WORD_LIMIT
  }

  /** The hash of s[lo..hi]. */
  function HashRange(s: string, lo: nat, hi: nat): nat
    requires lo <= hi <= |s|
  {
    if lo == hi then 0 else HashStep(HashRange(s, lo, hi - 1), s[hi - 1])
  }

  function HashOf(s: string): nat { HashRange(s, 0, |s|) }

  lemma {:induction false} HashShift(s: string, t: string, lo: nat, n: nat)
    requires lo + n <= |s| && n <= |t| && forall i :: 0 <= i < n ==> s[lo + i] == t[i]
    ensures HashRange(s, lo, lo + n) == HashRange(t, 0, n)
  {
    if n > 0 { HashShift(s, t, lo, n - 1); }
  }

  lemma HashSlice(s: string, lo: nat, hi: nat)
    requires lo <= hi <= |s|
    ensures HashRange(s, lo, hi) == HashOf(s[lo..hi])
  {
    HashShift(s, s[lo..hi], lo, hi - lo);
  }

  // ----- labels

  /** The index of the first dot from `i` on, or |s|. */
  function DotFrom(s: string, i: nat): (r: nat)
    requires i <= |s|
    ensures i <= r <= |s|
    ensures forall j :: i <= j < r ==> s[j] != DOT
    ensures r < |s| ==> s[r] == DOT
    decreases |s| - i
  {
    if i == |s| || s[i] == DOT then i else DotFrom(s, i + 1)
  }

  /** The index behind the last dot before `n`, or 0. */
  function DotBefore(s: string, n: nat): (r: nat)
    requires n <= |s|
    ensures r <= n
    ensures forall j :: r <= j < n ==> s[j] != DOT
    ensures r > 0 ==> s[r - 1] == DOT
  {
    if n == 0 || s[n - 1] == DOT then n else DotBefore(s, n - 1)
  }

  function FirstDot(s: string): nat { DotFrom(s, 0) }

  function LastDot(s: string): nat { DotBefore(s, |s|) }

  /** The labels of a name from left to right. */
  function Labels(s: string): (r: seq<string>)
    ensures |r| > 0
  {
    var d := FirstDot(s);
    if d == |s| then [s] else [s[..d]] + Labels(s[d + 1..])
  }

  /** The labels of a name from right to left. */
  function RLabels(s: string): (r: seq<string>)
    ensures |r| > 0
  {
    var d := LastDot(s);
    if d == 0 then [s] else [s[d..]] + RLabels(s[..d - 1])
  }

  lemma FirstDotUnique(s: string, d: nat)
    requires d <= |s| && (forall i :: 0 <= i < d ==> s[i] != DOT) && (d < |s| ==> s[d] == DOT)
    ensures FirstDot(s) == d
  {
    assert FirstDot(s) <= d;
  }

  lemma LastDotUnique(s: string, d: nat)
    requires d <= |s| && (forall i :: d <= i < |s| ==> s[i] != DOT) && (d > 0 ==> s[d - 1] == DOT)
    ensures LastDot(s) == d
  {
    assert d <= LastDot(s);
  }

  /** A label in front of a dot is the first label. */
  lemma LabelsCons(l: string, rest: string)
    requires DOT !in l
    ensures FirstDot(l + [DOT] + rest) == |l|
    ensures Labels(l + [DOT] + rest) == [l] + Labels(rest)
  {
    var s := l + [DOT] + rest;
    FirstDotUnique(s, |l|);
    assert s[..|l|] == l && s[|l| + 1..] == rest;
  }

  lemma LabelsOne(l: string)
    requires DOT !in l
    ensures FirstDot(l) == |l| && Labels(l) == [l]
  {
    FirstDotUnique(l, |l|);
  }

  /** A label behind a dot is the last label. */
  lemma RLabelsSnoc(rest: string, l: string)
    requires DOT !in l
    ensures LastDot(rest + [DOT] + l) == |rest| + 1
    ensures RLabels(rest + [DOT] + l) == [l] + RLabels(rest)
  {
    var s := rest + [DOT] + l;
    LastDotUnique(s, |rest| + 1);
    assert s[|rest| + 1..] == l && s[..|rest|] == rest;
  }

  lemma RLabelsOne(l: string)
    requires DOT !in l
    ensures LastDot(l) == 0 && RLabels(l) == [l]
  {
    LastDotUnique(l, 0);
  }

  /** Does the text have `part` at p? */
  predicate At(text: string, p: nat, part: string) {
    p + |part| <= |text| && text[p..p + |part|] == part
  }

  lemma AtSplit(text: string, p: nat, a: string, b: string)
    requires At(text, p, a + b)
    ensures At(text, p, a) && At(text, p + |a|, b)
  {
    assert text[p..p + |a|] == text[p..p + |a + b|][..|a|];
    assert text[p + |a|..p + |a| + |b|] == text[p..p + |a + b|][|a|..];
  }

  lemma AtChar(text: string, p: nat, a: string, k: nat)
    requires At(text, p, a) && k < |a|
    ensures text[p + k] == a[k]
  {
    assert text[p + k] == text[p..p + |a|][k];
  }
}
