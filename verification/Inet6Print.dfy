/** The IPv6 printer: the longest run of zero words is elided, the leftmost one if there are several. */
module Inet6Print {
  import opened Inet6

  /** The length the caller's buffer must have. */
  const ADDRSTRLEN := 45

  type Address = s: seq<Byte> | |s| == 16 witness [0, 0, 0, 0, 0, 0, 0, 0, 0, 0, 0, 0, 0, 0, 0, 0]

  function WordAt(p: Address, w: nat): (v: nat)
    requires w < 8
    ensures v < 0x1_0000
  {
    p[2 * w] as int * 256 + p[2 * w + 1]
  }

  function HexDigit(d: nat): (c: char)
    requires d < 16
    ensures IsHex(c) && Value(c) == d
  {
    if d < 10 then '0' + d as char else 'a' + (d - 10) as char
  }

  function Hex(v: nat): (s: string)
    requires v < 0x1_0000
    ensures 1 <= |s| <= 4
  {
    if v < 16 then [HexDigit(v)]
    else if v < 256 then [HexDigit(v / 16), HexDigit(v % 16)]
    else if v < 4096 then [HexDigit(v / 16 / 16), HexDigit(v / 16 % 16), HexDigit(v % 16)]
    else [HexDigit(v / 16 / 16 / 16), HexDigit(v / 16 / 16 % 16), HexDigit(v / 16 % 16), HexDigit(v % 16)]
  }

  /** A printed group is in lower case and has no zero in front. */
  lemma HexIs(v: nat)
    requires v < 0x1_0000
    ensures forall k :: 0 <= k < |Hex(v)| ==> Hex(v)[k] in LOWER_DIGITS
    ensures |Hex(v)| > 1 ==> Hex(v)[0] != '0'
  {
    forall d | 0 <= d < 16 ensures HexDigit(d) in LOWER_DIGITS && (d > 0 ==> HexDigit(d) != '0') {
      assert HexDigit(d) == LOWER_DIGITS[d];
    }
  }

  function Dec(v: Byte): (s: string)
    ensures 1 <= |s| <= 3
  {
    if v < 10 then [HexDigit(v)]
    else if v < 100 then [HexDigit(v / 10), HexDigit(v % 10)]
    else [HexDigit(v / 100), HexDigit(v / 10 % 10), HexDigit(v % 10)]
  }

  /** A printed octet is a number without a zero in front. */
  lemma DecIs(v: Byte)
    ensures forall k :: 0 <= k < |Dec(v)| ==> Dec(v)[k] in "0123456789"
    ensures |Dec(v)| > 1 ==> Dec(v)[0] != '0'
  {
    forall d | 0 <= d < 10 ensures HexDigit(d) in "0123456789" && (d > 0 ==> HexDigit(d) != '0') {
      assert HexDigit(d) == "0123456789"[d];
    }
  }

  function DottedText(p: Address): (s: string)
    ensures |s| <= 15
  {
    Dec(p[12]) + "." + Dec(p[13]) + "." + Dec(p[14]) + "." + Dec(p[15])
  }

  /** Are the m words from word a on all zero? */
  predicate Run(p: Address, a: nat, m: nat) {
    a + m <= 8 && forall k :: a <= k < a + m ==> WordAt(p, k) == 0
  }

  /** The length of the run of zero words that starts at word a. */
  function RunLength(p: Address, a: nat): nat
    requires a <= 8
    decreases 8 - a
  {
    if a == 8 || WordAt(p, a) != 0 then 0 else 1 + RunLength(p, a + 1)
  }

  /** Where the longest run starts among those that start at word a or later; the leftmost one. */
  function LongestFrom(p: Address, a: nat): (b: nat)
    requires a <= 8
    ensures a <= b <= 8
    decreases 8 - a
  {
    if a == 8 then 8
    else
      var b := LongestFrom(p, a + 1);
      if RunLength(p, a) >= RunLength(p, b) then a else b
  }

  /** The elided run: nothing is elided when no two zero words are adjacent. */
  function Gap(p: Address): (int, nat) {
    var a := LongestFrom(p, 0);
    var m := RunLength(p, a);
    if m >= 2 then (a, m) else (-1, 1)
  }

  /** Is the run of m words at a the one to elide? */
  ghost predicate IsGap(p: Address, a: int, m: nat) {
    && (a < 0 ==> a == -1 && m == 1)
    && (a >= 0 ==> m >= 2 && Run(p, a, m))
    && forall b: nat, l: nat :: Run(p, b, l) ==> l < m || (l == m && a <= b)
  }

  lemma {:induction false} RunLengthIs(p: Address, a: nat)
    requires a <= 8
    ensures Run(p, a, RunLength(p, a))
    ensures forall l: nat :: Run(p, a, l) ==> l <= RunLength(p, a)
    decreases 8 - a
  {
    if a < 8 && WordAt(p, a) == 0 {
      RunLengthIs(p, a + 1);
      forall l: nat | Run(p, a, l) ensures l <= RunLength(p, a) {
        assert l > 0 ==> Run(p, a + 1, l - 1);
      }
    }
  }

  lemma {:induction false} LongestFromIs(p: Address, a: nat, b: nat)
    requires a <= b <= 8
    ensures var z := LongestFrom(p, a);
      RunLength(p, b) < RunLength(p, z) || (RunLength(p, b) == RunLength(p, z) && z <= b)
    decreases 8 - a
  {
    if a < 8 {
      LongestFromIs(p, a + 1, if b > a then b else a + 1);
    }
  }

  /** The elided run is the leftmost longest one, if it has at least two words. */
  lemma {:induction false} GapIs(p: Address)
    ensures IsGap(p, Gap(p).0, Gap(p).1)
  {
    var z := LongestFrom(p, 0);
    RunLengthIs(p, z);
    forall b: nat, l: nat | Run(p, b, l)
      ensures l < Gap(p).1 || (l == Gap(p).1 && Gap(p).0 <= b)
    {
      RunLengthIs(p, b);
      LongestFromIs(p, 0, b);
    }
  }

  lemma GapUnique(p: Address, a: int, m: nat)
    requires IsGap(p, a, m)
    ensures (a, m) == Gap(p)
  {
    GapIs(p);
    var (b, l) := Gap(p);
    if a >= 0 { assert Run(p, a, m); }
    if b >= 0 { assert Run(p, b, l); }
  }

  /** Does the printer end with a dotted address? */
  predicate EndsDotted(p: Address) {
    var (a, m) := Gap(p);
    a == 0 && ((m == 5 && p[10] == 0xff && p[11] == 0xff) || m == 6 || (m == 7 && p[14] != 0 && p[15] != 1))
  }

  /** The hexadecimal part from word w on, up to word `end`, without the run of m words at a. */
  function Words(p: Address, w: nat, a: int, m: nat, end: nat): string
    requires end <= 8 && m > 0
    decreases 8 - w
  {
    if w >= end then ""
    else if w == a then ":" + Words(p, w + m, a, m, end)
    else Hex(WordAt(p, w)) + (if w < 7 then ":" else "") + Words(p, w + 1, a, m, end)
  }

  function Print(p: Address): string {
    var (a, m) := Gap(p);
    Parts(p, a, m, if EndsDotted(p) then 6 else 8)
  }

  /** The text without the run of m words at a; the words from `end` on are printed as a dotted address. */
  function Parts(p: Address, a: int, m: nat, end: nat): string
    requires end <= 8 && m > 0
  {
    (if a == 0 then ":" else "") + Words(p, 0, a, m, end) + (if end == 6 then DottedText(p) else "")
  }

  lemma {:induction false} WordsLength(p: Address, w: nat, a: int, m: nat, end: nat)
    requires end <= 8 && m > 0 && w <= 8
    ensures |Words(p, w, a, m, end)| <= 5 * (if w <= end then end - w else 0)
    decreases 8 - w
  {
    hide Hex, WordAt;
    if w < end {
      if w == a && w + m <= 8 {
        WordsLength(p, w + m, a, m, end);
      } else if w != a {
        WordsLength(p, w + 1, a, m, end);
      }
    }
  }

  /** The buffer the caller must bring is always large enough. */
  lemma {:induction false} PrintFits(p: Address)
    ensures |Print(p)| <= ADDRSTRLEN
  {
    var (a, m) := Gap(p);
    if EndsDotted(p) {
      assert Words(p, 0, 0, m, 6) == ":" + Words(p, m, 0, m, 6);
      WordsLength(p, m, 0, m, 6);
    } else if a == 0 {
      assert Words(p, 0, 0, m, 8) == ":" + Words(p, m, 0, m, 8);
      WordsLength(p, m, 0, m, 8);
    } else {
      WordsLength(p, 0, a, m, 8);
    }
  }

  /** The runs that end at word w or before, against the best one found. */
  ghost predicate BestUpTo(p: Address, a: int, m: nat, w: nat) {
    && (a < 0 ==> a == -1 && m == 1)
    && (a >= 0 ==> m >= 2 && Run(p, a, m) && a + m <= w)
    && forall b: nat, l: nat :: Run(p, b, l) && b + l <= w ==> l < m || (l == m && a <= b)
  }

  /** Is a run of n zero words, which starts behind a non-zero word, about to end at w? */
  ghost predicate Pending(p: Address, w: nat, n: nat) {
    n <= w <= 8 && Run(p, w - n, n) && (w > n ==> WordAt(p, w - n - 1) != 0)
  }

  lemma PendingZero(p: Address, w: nat, n: nat)
    requires Pending(p, w, n) && w < 8 && WordAt(p, w) == 0
    ensures Pending(p, w + 1, n + 1)
  {
  }

  lemma PendingOver(p: Address, w: nat, n: nat)
    requires w < 8 && WordAt(p, w) != 0
    ensures Pending(p, w + 1, 0)
  {
  }

  lemma AtStart(p: Address)
    ensures Pending(p, 0, 0) && BestUpTo(p, -1, 1, 0)
  {
  }

  /** The run that ends at w competes with the best one. */
  lemma Extend(p: Address, a: int, m: nat, w: nat, n: nat)
    requires Pending(p, w, n) && BestUpTo(p, a, m, w - n)
    ensures if m < n then BestUpTo(p, w - n, n, w) else BestUpTo(p, a, m, w)
  {
    forall b: nat, l: nat | Run(p, b, l) && b + l <= w
      ensures b + l <= w - n || (b >= w - n && l <= n)
    {
    }
  }

  lemma PassNonzero(p: Address, a: int, m: nat, w: nat)
    requires w < 8 && WordAt(p, w) != 0 && BestUpTo(p, a, m, w)
    ensures BestUpTo(p, a, m, w + 1)
  {
    forall b: nat, l: nat | Run(p, b, l) && b + l <= w + 1
      ensures l < m || (l == m && a <= b)
    {
      if b + l == w + 1 { assert l == 0; }
    }
  }

  lemma BestIsGap(p: Address, a: int, m: nat)
    requires BestUpTo(p, a, m, 8)
    ensures (a, m) == Gap(p)
  {
    assert IsGap(p, a, m);
    GapUnique(p, a, m);
  }

  /** Finds the run to elide; positions are in bytes, and -1 says there is none. */
  method FindGap(p: Address) returns (zero: int, max: nat)
    ensures Gap(p) == (if zero < 0 then -1 else zero / 2, max)
    ensures zero == if Gap(p).0 < 0 then -1 else 2 * Gap(p).0
  {
    hide Pending, BestUpTo, Gap;
    var last: int, n := -1, 0;
    zero, max := -1, 1;
    var i := 0;
    ghost var a: int, w := -1, 0;
    AtStart(p);
    while i < 16
      invariant i == 2 * w && n <= w <= 8
      invariant zero == if a < 0 then -1 else 2 * a
      invariant n > 0 ==> last == 2 * (w - n)
      invariant Pending(p, w, n) && BestUpTo(p, a, max, w - n)
    {
      if p[i] != 0 || p[i + 1] != 0 {
        assert WordAt(p, w) != 0;
        Extend(p, a, max, w, n);
        if max < n {
          a := w - n;
          zero, max := last, n;
        }
        PassNonzero(p, a, max, w);
        PendingOver(p, w, n);
        n := 0;
      } else {
        assert WordAt(p, w) == 0;
        PendingZero(p, w, n);
        if n == 0 {
          last := i;
        }
        n := n + 1;
      }
      i, w := i + 2, w + 1;
    }
    Extend(p, a, max, w, n);
    if max < n {
      a := w - n;
      zero, max := last, n;
    }
    BestIsGap(p, a, max);
  }

  method Put(text: array<char>, at: nat, s: string) returns (end: nat)
    requires at + |s| <= text.Length
    modifies text
    ensures end == at + |s| && text[..end] == old(text[..at]) + s
  {
    forall k | 0 <= k < |s| {
      text[at + k] := s[k];
    }
    end := at + |s|;
  }

  lemma WordsStep(p: Address, w: nat, a: int, m: nat, end: nat)
    requires w < end <= 8 && m > 0
    ensures Words(p, w, a, m, end)
         == if w == a then ":" + Words(p, w + m, a, m, end)
            else Hex(WordAt(p, w)) + (if w < 7 then ":" else "") + Words(p, w + 1, a, m, end)
  {
  }

  /** Puts down the next piece of `piece + rest + end`. */
  method PutNext(text: array<char>, at: nat, piece: string, ghost rest: string, ghost end: string) returns (at': nat)
    requires at <= text.Length && at + |piece + rest| <= text.Length
    modifies text
    ensures at' <= text.Length && text[..at'] + rest + end == old(text[..at]) + (piece + rest) + end
  {
    at' := Put(text, at, piece);
  }

  /** Prints the word at byte i, with a colon behind it unless it is the last one. */
  method PutHex(p: Address, i: nat, text: array<char>, at: nat, ghost rest: string, ghost end: string)
    returns (at': nat)
    requires i < 16 && i % 2 == 0 && at <= text.Length
    requires at + |Hex(WordAt(p, i / 2)) + (if i < 14 then ":" else "") + rest| <= text.Length
    modifies text
    ensures at' <= text.Length
    ensures text[..at'] + rest + end
         == old(text[..at]) + (Hex(WordAt(p, i / 2)) + (if i < 14 then ":" else "") + rest) + end
  {
    hide Hex;
    ghost var hex := Hex(WordAt(p, i / 2));
    if i < 14 {
      assert hex + ":" + rest == hex + (":" + rest);
      at' := PutNext(text, at, Hex(p[i] as int * 256 + p[i + 1]), ":" + rest, end);
      at' := PutNext(text, at', ":", rest, end);
    } else {
      assert hex + "" + rest == hex + rest;
      at' := PutNext(text, at, Hex(p[i] as int * 256 + p[i + 1]), rest, end);
    }
  }

  /** Prints the hexadecimal part: the first n bytes, without the run of `max` words at byte `zero`. */
  method PutWords(p: Address, ghost a: int, zero: int, max: nat, n: nat, text: array<char>, at: nat) returns (at': nat)
    requires (n == 12 || n == 16) && zero == (if a < 0 then -1 else 2 * a) && max > 0
    requires at + |Words(p, 0, a, max, n / 2)| <= text.Length
    modifies text
    ensures at' <= text.Length && text[..at'] == old(text[..at]) + Words(p, 0, a, max, n / 2)
  {
    hide Words, Hex, WordAt;
    ghost var w, end := 0, n / 2;
    ghost var all := text[..at] + Words(p, 0, a, max, end);
    at' := at;
    var i := 0;
    while i < n
      invariant i == 2 * w && at' <= text.Length
      invariant text[..at'] + Words(p, w, a, max, end) + "" == all
      decreases n - i
    {
      WordsStep(p, w, a, max, end);
      assert at' + |Words(p, w, a, max, end)| == |all|;
      if i == zero {
        at' := PutNext(text, at', ":", Words(p, w + max, a, max, end), "");
        i, w := i + 2 * max, w + max;
      } else {
        at' := PutHex(p, i, text, at', Words(p, w + 1, a, max, end), "");
        i, w := i + 2, w + 1;
      }
    }
    WordsEnd(p, w, a, max, end);
  }

  lemma WordsEnd(p: Address, w: nat, a: int, m: nat, end: nat)
    requires end <= w && end <= 8 && m > 0
    ensures Words(p, w, a, m, end) == ""
  {
  }

  lemma PrintIs(p: Address)
    ensures Gap(p).1 > 0 && Print(p) == Parts(p, Gap(p).0, Gap(p).1, if EndsDotted(p) then 6 else 8)
    ensures var (a, m) := Gap(p);
      EndsDotted(p) ==
        (a == 0 && ((m == 5 && p[10] == 0xff && p[11] == 0xff) || m == 6 || (m == 7 && p[14] != 0 && p[15] != 1)))
  {
  }

  /** Prints an address; nothing is written behind the end of the buffer. */
  method Inet6Ntop(p: Address, text: array<char>) returns (len: nat)
    modifies text
    ensures text.Length < ADDRSTRLEN ==> len == 0 && text[..] == old(text[..])
    ensures text.Length >= ADDRSTRLEN ==> len <= text.Length && text[..len] == Print(p)
  {
    hide Print, Parts, Gap, EndsDotted;
    PrintIs(p);
    if text.Length < ADDRSTRLEN { return 0; }
    var zero, max := FindGap(p);
    PrintFits(p);
    var n := 16;
    if zero == 0 && ((max == 5 && p[10] == 0xff && p[11] == 0xff) || max == 6
                     || (max == 7 && p[14] != 0 && p[15] != 1)) {
      n := 12;
    }
    len := PutParts(p, Gap(p).0, zero, max, n, text);
  }

  method PutParts(p: Address, ghost a: int, zero: int, max: nat, n: nat, text: array<char>) returns (len: nat)
    requires (n == 12 || n == 16) && zero == (if a < 0 then -1 else 2 * a) && max > 0
    requires |Parts(p, a, max, n / 2)| <= text.Length
    modifies text
    ensures len <= text.Length && text[..len] == Parts(p, a, max, n / 2)
  {
    hide Words, DottedText;
    len := 0;
    if zero == 0 {
      len := Put(text, len, ":");
    }
    len := PutWords(p, a, zero, max, n, text, len);
    if n == 12 {
      len := Put(text, len, DottedText(p));
    }
  }
}
