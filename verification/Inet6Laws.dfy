/** What the parser makes of every way to write an address, and that it reads back what the printer writes. */
module Inet6Laws {
  import opened Common
  import opened Inet6
  import opened Inet6Print
  import opened Text

  /** What stands at the end: nothing, a group, or four octets in decimal. */
  datatype Last = Nothing | Group(group: string) | Quad(a: string, b: string, c: string, d: string)

  /** Groups, each with a colon behind it; perhaps "::" and more groups; and what stands at the end. */
  datatype Form = Form(left: seq<string>, gap: bool, right: seq<string>, last: Last)

  predicate IsGroup(g: string) {
    1 <= |g| <= 4 && forall k :: 0 <= k < |g| ==> IsHex(g[k])
  }

  predicate AllGroups(gs: seq<string>) {
    forall k :: 0 <= k < |gs| ==> IsGroup(gs[k])
  }

  predicate AllDigits(o: string) {
    forall k :: 0 <= k < |o| ==> IsDigit(o[k])
  }

  /** The value of the first n digits. */
  function DecValue(o: string, n: nat): nat
    requires n <= |o| && AllDigits(o)
  {
    if n == 0 then 0 else DecValue(o, n - 1) * 10 + Value(o[n - 1])
  }

  /** An octet may have leading zeros, and need not have a digit. */
  predicate IsOctet(o: string) {
    AllDigits(o) && DecValue(o, |o|) <= 255
  }

  function Octet(o: string): Byte
    requires IsOctet(o)
  {
    DecValue(o, |o|)
  }

  /** The first octet is read as a group at first, so it has one to four digits. */
  predicate LastOk(last: Last) {
    match last
    case Nothing => true
    case Group(g) => IsGroup(g)
    case Quad(a, b, c, d) => IsOctet(a) && IsOctet(b) && IsOctet(c) && IsOctet(d) && 1 <= |a| <= 4
  }

  /** Is it 255.255.255.255? */
  predicate AllOnes(last: Last)
    requires LastOk(last)
  {
    last.Quad? && Octet(last.a) == 255 && Octet(last.b) == 255 && Octet(last.c) == 255 && Octet(last.d) == 255
  }

  predicate WellFormed(f: Form) {
    AllGroups(f.left) && AllGroups(f.right) && LastOk(f.last) && (f.gap || f.right == [])
  }

  function Lead(gs: seq<string>): string {
    if gs == [] then "" else gs[0] + (":" + Lead(gs[1..]))
  }

  function LastText(last: Last): string {
    match last
    case Nothing => ""
    case Group(g) => g
    case Quad(a, b, c, d) => a + ("." + (b + ("." + (c + ("." + d)))))
  }

  function Colons(f: Form): string {
    if !f.gap then "" else if f.left == [] then "::" else ":"
  }

  function TextOf(f: Form): string {
    Lead(f.left) + (Colons(f) + (Lead(f.right) + LastText(f.last)))
  }

  function GroupValue(g: string, n: nat): nat
    requires n <= |g| && forall k :: 0 <= k < n ==> IsHex(g[k])
  {
    if n == 0 then 0 else GroupValue(g, n - 1) * 16 + Value(g[n - 1])
  }

  function BytesOf(gs: seq<string>): seq<Byte>
    requires AllGroups(gs)
  {
    if gs == [] then []
    else
      assert IsGroup(gs[0]);
      assert forall k :: 0 <= k < |gs[1..]| ==> gs[1..][k] == gs[k + 1];
      [Hi(GroupValue(gs[0], |gs[0]|)), Lo(GroupValue(gs[0], |gs[0]|))] + BytesOf(gs[1..])
  }

  /** A missing last group counts as zero. */
  function LastBytes(last: Last): seq<Byte>
    requires LastOk(last)
  {
    match last
    case Nothing => [0, 0]
    case Group(g) => [Hi(GroupValue(g, |g|)), Lo(GroupValue(g, |g|))]
    case Quad(a, b, c, d) => [Octet(a), Octet(b), Octet(c), Octet(d)]
  }

  /** The forms that mean an address to the parser. */
  predicate Accepts(f: Form)
    requires WellFormed(f)
  {
    var n := |f.left| + |f.right| + if f.last.Quad? then 2 else 1;
    && (if f.gap then n <= 7 else n == 8 && !f.last.Nothing?)
    && !AllOnes(f.last)
  }

  function ValueOf(f: Form): seq<Byte>
    requires WellFormed(f) && Accepts(f)
  {
    var n := |f.left| + |f.right| + if f.last.Quad? then 2 else 1;
    BytesOf(f.left) + Zeros(16 - 2 * n) + (BytesOf(f.right) + LastBytes(f.last))
  }

  lemma {:induction false} BytesLength(gs: seq<string>)
    requires AllGroups(gs)
    ensures |BytesOf(gs)| == 2 * |gs|
  {
    if gs != [] {
      assert forall k :: 0 <= k < |gs[1..]| ==> gs[1..][k] == gs[k + 1];
      BytesLength(gs[1..]);
    }
  }

  /** Between two groups: is the parser ready for the next one, with `n` words out? */
  predicate Between(s: Scan, n: nat) {
    |s.out| == 2 * n && n <= 7 && s.zero <= |s.out| && s.nibbles == 0 && s.word == 0
  }

  lemma ReadHex(text: string, i: nat, s: Scan)
    requires i < |text| && IsHex(text[i]) && s.nibbles < 4
    requires |s.out| <= 14 && s.zero <= |s.out| && s.mark <= i
    ensures Read(text, i, s) == Read(text, i + 1, s.(nibbles := s.nibbles + 1, word := s.word * 16 + Value(text[i])))
  {
  }

  lemma {:induction false} ReadGroup(text: string, i: nat, s: Scan, g: string, k: nat)
    requires k <= |g| && IsGroup(g) && At(text, i, g)
    requires |s.out| <= 14 && s.zero <= |s.out| && s.mark <= i
    requires s.nibbles == k && s.word == GroupValue(g, k)
    ensures Read(text, i + k, s) == Read(text, i + |g|, s.(nibbles := |g|, word := GroupValue(g, |g|)))
    decreases |g| - k
  {
    hide Read;
    if k < |g| {
      AtChar(text, i, g, k);
      ReadHex(text, i + k, s);
      ReadGroup(text, i, s.(nibbles := k + 1, word := GroupValue(g, k + 1)), g, k + 1);
    }
  }

  /** A group and the colon behind it. */
  lemma {:induction false} ReadOne(text: string, i: nat, s: Scan, n: nat, g: string)
    requires IsGroup(g) && At(text, i, g + ":") && Between(s, n) && s.mark <= i
    ensures var word := GroupValue(g, |g|);
      var end := i + |g| + 1;
      Read(text, i, s) == if n == 7 then None
                          else Read(text, end, Scan(s.out + [Hi(word), Lo(word)], s.zero, end, 0, 0))
  {
    AtSplit(text, i, g, ":");
    AtChar(text, i + |g|, ":", 0);
    ReadGroup(text, i, s, g, 0);
  }

  /** Groups with their colons; there is room for seven. */
  lemma {:induction false} ReadLead(text: string, i: nat, s: Scan, n: nat, gs: seq<string>)
    requires AllGroups(gs) && At(text, i, Lead(gs)) && Between(s, n) && s.mark <= i
    ensures |BytesOf(gs)| == 2 * |gs|
    ensures var end := i + |Lead(gs)|;
      Read(text, i, s) ==
        if n + |gs| > 7 then None
        else Read(text, end, Scan(s.out + BytesOf(gs), s.zero, if gs == [] then s.mark else end, 0, 0))
    decreases |gs|
  {
    hide Read, GroupValue, At;
    BytesLength(gs);
    if gs != [] {
      assert forall k :: 0 <= k < |gs[1..]| ==> gs[1..][k] == gs[k + 1];
      assert Lead(gs) == (gs[0] + ":") + Lead(gs[1..]);
      AtSplit(text, i, gs[0] + ":", Lead(gs[1..]));
      ReadOne(text, i, s, n, gs[0]);
      if n < 7 {
        var word := GroupValue(gs[0], |gs[0]|);
        var t := Scan(s.out + [Hi(word), Lo(word)], s.zero, i + |gs[0]| + 1, 0, 0);
        ReadLead(text, i + |gs[0]| + 1, t, n + 1, gs[1..]);
        assert t.out + BytesOf(gs[1..]) == s.out + BytesOf(gs);
      }
    } else {
      assert s.out + BytesOf(gs) == s.out;
    }
  }

  lemma Gapped(text: string, i: nat, s: Scan, n: nat)
    requires Between(s, n) && s.mark <= i < |text| && text[i] == ':' && s.zero < 0
    ensures Read(text, i, s) == Read(text, i + 1, s.(zero := |s.out|, mark := i + 1))
  {
  }

  /** Octets before the last one, each with a dot behind it. */
  lemma DottedOctet(text: string, i: nat, addr: nat, o: string, n: nat)
    requires IsOctet(o) && At(text, i, o + ".") && addr < 0x100_0000
    ensures Dotted(text, i, addr, 0, n) == Dotted(text, i + |o| + 1, addr * 256 + Octet(o), 0, n + 1)
  {
    AtSplit(text, i, o, ".");
    DottedDigits(text, i, addr, o, 0, n);
    AtChar(text, i + |o|, ".", 0);
  }

  lemma {:induction false} DecGrows(o: string, k: nat, m: nat)
    requires k <= m <= |o| && AllDigits(o)
    ensures DecValue(o, k) <= DecValue(o, m)
  {
    if k < m { DecGrows(o, k, m - 1); }
  }

  lemma DigitStep(text: string, j: nat, addr: nat, o: string, k: nat, n: nat)
    requires j < |text| && IsOctet(o) && k < |o| && text[j] == o[k]
    ensures Dotted(text, j, addr, DecValue(o, k), n) == Dotted(text, j + 1, addr, DecValue(o, k + 1), n)
  {
    DecGrows(o, k + 1, |o|);
  }

  lemma {:induction false} DottedDigits(text: string, i: nat, addr: nat, o: string, k: nat, n: nat)
    requires At(text, i, o) && IsOctet(o) && k <= |o|
    ensures Dotted(text, i + k, addr, DecValue(o, k), n) == Dotted(text, i + |o|, addr, Octet(o), n)
    decreases |o| - k
  {
    hide Dotted, DecValue, Value, IsDigit;
    if k < |o| {
      AtChar(text, i, o, k);
      DigitStep(text, i + k, addr, o, k, n);
      DottedDigits(text, i, addr, o, k + 1, n);
    }
  }

  function QuadValue(a: Byte, b: Byte, c: Byte, d: Byte): nat {
    ((a as int * 256 + b) * 256 + c) * 256 + d
  }

  /** Two octets and the dots behind them. */
  lemma {:induction false} DottedPair(text: string, i: nat, addr: nat, n: nat, a: string, b: string, rest: string)
    requires IsOctet(a) && IsOctet(b) && At(text, i, a + ("." + (b + ("." + rest)))) && addr < 0x1_0000
    ensures var j := i + |a| + 1 + |b| + 1;
      && At(text, j, rest)
      && Dotted(text, i, addr, 0, n) == Dotted(text, j, (addr * 256 + Octet(a)) * 256 + Octet(b), 0, n + 2)
  {
    hide Dotted, IsOctet, Octet, At;
    assert a + ("." + (b + ("." + rest))) == (a + ".") + ((b + ".") + rest);
    AtSplit(text, i, a + ".", (b + ".") + rest);
    DottedOctet(text, i, addr, a, n);
    AtSplit(text, i + |a| + 1, b + ".", rest);
    DottedOctet(text, i + |a| + 1, addr * 256 + Octet(a), b, n + 1);
  }

  /** A dotted address means its four octets. */
  lemma {:induction false} DottedQuad(text: string, i: nat, a: string, b: string, c: string, d: string)
    requires IsOctet(a) && IsOctet(b) && IsOctet(c) && IsOctet(d)
    requires At(text, i, LastText(Quad(a, b, c, d))) && i + |LastText(Quad(a, b, c, d))| == |text|
    ensures Dotted(text, i, 0, 0, 0) == QuadValue(Octet(a), Octet(b), Octet(c), Octet(d))
  {
    hide Dotted, IsOctet, Octet, DecValue, At;
    var rest := c + ("." + d);
    assert LastText(Quad(a, b, c, d)) == a + ("." + (b + ("." + rest)));
    hide LastText;
    DottedPair(text, i, 0, 0, a, b, rest);
    LastPair(text, i + |a| + 1 + |b| + 1, Octet(a) as int * 256 + Octet(b), c, d);
  }

  lemma LastPair(text: string, k: nat, ab: nat, c: string, d: string)
    requires IsOctet(c) && IsOctet(d) && ab < 0x1_0000
    requires At(text, k, c + ("." + d)) && k + |c + ("." + d)| == |text|
    ensures Dotted(text, k, ab, 0, 2) == (ab * 256 + Octet(c)) * 256 + Octet(d)
  {
    hide Dotted, IsOctet, Octet, DecValue, At;
    assert c + ("." + d) == (c + ".") + d;
    AtSplit(text, k, c + ".", d);
    DottedOctet(text, k, ab, c, 2);
    LastOctet(text, k + |c| + 1, ab * 256 + Octet(c), d);
  }

  lemma LastOctet(text: string, i: nat, addr: nat, d: string)
    requires IsOctet(d) && At(text, i, d) && i + |d| == |text| && addr < 0x100_0000
    ensures Dotted(text, i, addr, 0, 3) == addr * 256 + Octet(d)
  {
    DottedDigits(text, i, addr, d, 0, 3);
    DottedEnd(text, i + |d|, addr, Octet(d));
  }

  lemma DottedEnd(text: string, i: nat, addr: nat, octet: nat)
    requires i == |text| && addr < 0x100_0000 && octet < 256
    ensures Dotted(text, i, addr, octet, 3) == addr * 256 + octet
  {
  }

  lemma HiLo(x: nat, y: Byte)
    ensures (x * 256 + y) / 256 == x && Lo(x * 256 + y) == y && Hi(x * 256 + y) == x % 256
  {
  }

  lemma {:induction false} QuadBytes(a: Byte, b: Byte, c: Byte, d: Byte)
    ensures var v := QuadValue(a, b, c, d);
      [Hi(v / 0x1_0000), Lo(v / 0x1_0000)] + [Hi(v), Lo(v)] == [a, b, c, d]
  {
    hide Hi, Lo;
    var ab: nat := a as int * 256 + b;
    HiLo(a, b);
    HiLo(ab, c);
    HiLo(ab * 256 + c, d);
    assert QuadValue(a, b, c, d) / 0x1_0000 == ab;
  }

  lemma QuadNone(a: Byte, b: Byte, c: Byte, d: Byte)
    ensures QuadValue(a, b, c, d) == INADDR_NONE <==> a == 255 && b == 255 && c == 255 && d == 255
  {
  }

  lemma ReadEnd(text: string, s: Scan)
    requires |s.out| <= 14 && s.zero <= |s.out| && s.mark <= |text|
    ensures Read(text, |text|, s) == Finish(s)
  {
  }

  lemma ReadDot(text: string, i: nat, s: Scan)
    requires i < |text| && text[i] == '.' && s.nibbles > 0
    requires |s.out| <= 14 && s.zero <= |s.out| && s.mark <= i
    ensures Read(text, i, s) ==
      if |s.out| > 12 || s.mark < 0 || Dotted(text, s.mark, 0, 0, 0) == INADDR_NONE then None
      else
        var v := Dotted(text, s.mark, 0, 0, 0);
        Finish(s.(out := s.out + [Hi(v / 0x1_0000), Lo(v / 0x1_0000)], word := v))
  {
  }

  /** The first octet is read as a group until the dot shows what it is. */
  lemma {:induction false} ReadQuad(text: string, i: nat, s: Scan, n: nat, last: Last)
    requires last.Quad? && LastOk(last) && At(text, i, LastText(last)) && i + |LastText(last)| == |text|
    requires Between(s, n) && s.mark <= i && (s.mark >= 0 ==> s.mark == i)
    ensures Read(text, i, s) ==
      if n == 7 || s.mark < 0 || AllOnes(last) then None
      else
        var v := QuadValue(Octet(last.a), Octet(last.b), Octet(last.c), Octet(last.d));
        Finish(Scan(s.out + [Hi(v / 0x1_0000), Lo(v / 0x1_0000)], s.zero, s.mark, |last.a|, v))
  {
    var Quad(a, b, c, d) := last;
    var rest := "." + (b + ("." + (c + ("." + d))));
    FirstIsGroup(a);
    DottedQuad(text, i, a, b, c, d);
    QuadNone(Octet(a), Octet(b), Octet(c), Octet(d));
    assert LastText(last) == a + rest;
    hide Read, Finish, Dotted, QuadValue, Octet, DecValue, IsOctet, GroupValue, LastText, At, IsGroup;
    AtSplit(text, i, a, rest);
    AtChar(text, i + |a|, rest, 0);
    ReadGroup(text, i, s, a, 0);
    ReadDot(text, i + |a|, s.(nibbles := |a|, word := GroupValue(a, |a|)));
  }

  lemma FirstIsGroup(a: string)
    requires IsOctet(a) && 1 <= |a| <= 4
    ensures IsGroup(a) && GroupValue(a, 0) == 0
  {
  }

  /** What comes out when the text ends with `end`, two or four bytes, behind s.out. */
  function Closed(s: Scan, words: nat, end: seq<Byte>): Option<seq<Byte>>
    requires s.zero <= |s.out|
  {
    if s.zero < 0 then (if words == 8 then Some(s.out + end) else None)
    else if words <= 7 then Some(s.out[..s.zero] + Zeros(16 - 2 * words) + (s.out[s.zero..] + end))
    else None
  }

  /** The end of the text, with n words out. */
  lemma {:induction false} ReadLast(text: string, i: nat, s: Scan, n: nat, last: Last)
    requires LastOk(last) && At(text, i, LastText(last)) && i + |LastText(last)| == |text|
    requires Between(s, n) && s.mark <= i && (s.mark >= 0 ==> s.mark == i)
    ensures Read(text, i, s) ==
      if AllOnes(last) || (last.Quad? && s.mark < 0) || (last.Nothing? && s.zero < 0) then None
      else Closed(s, n + if last.Quad? then 2 else 1, LastBytes(last))
  {
    match last
    case Nothing => LastNothing(text, s, n);
    case Group(g) => LastGroup(text, i, s, n, g);
    case Quad(_, _, _, _) => LastQuad(text, i, s, n, last);
  }

  lemma LastNothing(text: string, s: Scan, n: nat)
    requires Between(s, n) && s.mark <= |text|
    ensures Read(text, |text|, s) == if s.zero < 0 then None else Closed(s, n + 1, [0, 0])
  {
    hide Read, Finish, Closed;
    ReadEnd(text, s);
    FinishIs(s, n, [0, 0]);
  }

  lemma LastGroup(text: string, i: nat, s: Scan, n: nat, g: string)
    requires IsGroup(g) && At(text, i, g) && i + |g| == |text| && Between(s, n) && s.mark <= i
    ensures Read(text, i, s) == Closed(s, n + 1, LastBytes(Group(g)))
  {
    hide Read, Finish, Closed;
    var t := s.(nibbles := |g|, word := GroupValue(g, |g|));
    ReadGroup(text, i, s, g, 0);
    ReadEnd(text, t);
    FinishIs(t, n, LastBytes(Group(g)));
    ClosedSame(s, t, n + 1, LastBytes(Group(g)));
  }

  lemma LastQuad(text: string, i: nat, s: Scan, n: nat, last: Last)
    requires last.Quad? && LastOk(last) && At(text, i, LastText(last)) && i + |LastText(last)| == |text|
    requires Between(s, n) && s.mark <= i && (s.mark >= 0 ==> s.mark == i)
    ensures Read(text, i, s) == if AllOnes(last) || s.mark < 0 then None else Closed(s, n + 2, LastBytes(last))
  {
    hide Read, Finish, Closed, QuadValue, Octet, IsOctet, At, LastText, AllOnes, Hi, Lo;
    var Quad(a, b, c, d) := last;
    ReadQuad(text, i, s, n, last);
    var v := QuadValue(Octet(a), Octet(b), Octet(c), Octet(d));
    var high, low := [Hi(v / 0x1_0000), Lo(v / 0x1_0000)], [Hi(v), Lo(v)];
    QuadBytes(Octet(a), Octet(b), Octet(c), Octet(d));
    if n < 7 {
      var t := Scan(s.out + high, s.zero, s.mark, |a|, v);
      FinishIs(t, n + 1, low);
      ClosedMore(s, t, n + 2, high, low);
    } else {
      ClosedNone(s, LastBytes(last));
    }
  }

  lemma ClosedSame(s: Scan, t: Scan, words: nat, end: seq<Byte>)
    requires s.zero == t.zero <= |s.out| && s.out == t.out
    ensures Closed(s, words, end) == Closed(t, words, end)
  {
  }

  lemma ClosedNone(s: Scan, end: seq<Byte>)
    requires s.zero <= |s.out|
    ensures Closed(s, 9, end) == None
  {
  }

  lemma ClosedMore(s: Scan, t: Scan, words: nat, a: seq<Byte>, b: seq<Byte>)
    requires s.zero == t.zero <= |s.out| && t.out == s.out + a
    ensures Closed(t, words, b) == Closed(s, words, a + b)
  {
    if s.zero >= 0 {
      assert t.out[..s.zero] == s.out[..s.zero] && t.out[s.zero..] + b == s.out[s.zero..] + (a + b);
    } else {
      assert t.out + b == s.out + (a + b);
    }
  }

  lemma FinishIs(s: Scan, n: nat, end: seq<Byte>)
    requires |s.out| == 2 * n && n <= 7 && s.zero <= |s.out| && end == [Hi(s.word), Lo(s.word)]
    ensures Finish(s) == if s.nibbles == 0 && s.zero < 0 then None else Closed(s, n + 1, end)
  {
    assert s.zero >= 0 ==>
      (s.out + end)[s.zero..] == s.out[s.zero..] + end && (s.out + end)[..s.zero] == s.out[..s.zero];
  }

  function Size(last: Last): nat {
    if last.Quad? then 2 else 1
  }

  /** Everything behind "::", or a whole address without it. */
  lemma {:induction false} ReadTail(text: string, i: nat, s: Scan, n: nat, gs: seq<string>, last: Last)
    requires AllGroups(gs) && LastOk(last)
    requires At(text, i, Lead(gs) + LastText(last)) && i + |Lead(gs) + LastText(last)| == |text|
    requires Between(s, n) && s.mark <= i && (s.mark >= 0 ==> s.mark == i)
    ensures Read(text, i, s) ==
      if AllOnes(last) || (last.Quad? && s.mark < 0 && gs == []) || (last.Nothing? && s.zero < 0)
      then None
      else Closed(s, n + |gs| + Size(last), BytesOf(gs) + LastBytes(last))
  {
    hide Read, GroupValue, BytesOf, LastText, LastBytes, LastOk, AllOnes, Closed;
    AtSplit(text, i, Lead(gs), LastText(last));
    ReadLead(text, i, s, n, gs);
    if n + |gs| <= 7 {
      var end := i + |Lead(gs)|;
      var t := Scan(s.out + BytesOf(gs), s.zero, if gs == [] then s.mark else end, 0, 0);
      ReadLast(text, end, t, n + |gs|, last);
      ClosedMore(s, t, n + |gs| + Size(last), BytesOf(gs), LastBytes(last));
    } else {
      ClosedMany(s, n + |gs| + Size(last), BytesOf(gs) + LastBytes(last));
    }
  }

  lemma ClosedMany(s: Scan, words: nat, end: seq<Byte>)
    requires s.zero <= |s.out| && words > 8
    ensures Closed(s, words, end) == None
  {
  }

  lemma AtWhole(text: string)
    ensures At(text, 0, text)
  {
  }

  lemma NoColonFirst(f: Form)
    requires WellFormed(f) && TextOf(f) != "" && (f.left != [] || !f.gap)
    ensures TextOf(f)[0] != ':'
  {
    if f.left != [] {
      assert IsGroup(f.left[0]);
      assert TextOf(f)[0] == f.left[0][0];
    } else {
      assert TextOf(f) == LastText(f.last);
    }
  }

  lemma {:induction false} ParsePlain(f: Form)
    requires WellFormed(f) && !f.gap
    ensures Parse(TextOf(f)) == if Accepts(f) then Some(ValueOf(f)) else None
  {
    hide Read, GroupValue, BytesOf, Lead, LastText;
    var text := TextOf(f);
    assert text == Lead(f.left) + LastText(f.last) by { EmptyLead(); }
    if text == "" {
      EmptyText(f);
    } else {
      NoColonFirst(f);
      AtWhole(text);
      ReadTail(text, 0, START, 0, f.left, f.last);
      EmptyLead();
      assert Accepts(f) ==> ValueOf(f) == BytesOf(f.left) + LastBytes(f.last);
      assert [] + (BytesOf(f.left) + LastBytes(f.last)) == BytesOf(f.left) + LastBytes(f.last);
    }
  }

  lemma EmptyLead()
    ensures Lead([]) == "" && BytesOf([]) == []
  {
  }

  lemma SomeLead(gs: seq<string>)
    ensures gs != [] ==> |Lead(gs)| > 0
  {
  }

  lemma EmptyText(f: Form)
    requires WellFormed(f) && !f.gap && TextOf(f) == ""
    ensures !Accepts(f)
  {
    SomeLead(f.left);
  }

  lemma {:induction false} ParseGapFirst(f: Form)
    requires WellFormed(f) && f.gap && f.left == []
    ensures Parse(TextOf(f)) == if Accepts(f) then Some(ValueOf(f)) else None
  {
    hide Read, GroupValue, BytesOf, Lead, LastText, At, IsGroup, IsOctet;
    var text := TextOf(f);
    var tail := Lead(f.right) + LastText(f.last);
    EmptyLead();
    assert text == "::" + tail;
    AtWhole(text);
    AtSplit(text, 0, "::", tail);
    assert text[0] == ':' && text[1] == ':';
    Gapped(text, 1, START, 0);
    var s := Scan([], 0, 2, 0, 0);
    ReadTail(text, 2, s, 0, f.right, f.last);
    var end := BytesOf(f.right) + LastBytes(f.last);
    var words := |f.right| + Size(f.last);
    assert s.out[..0] == [] && s.out[0..] + end == end;
    assert Closed(s, words, end) == if words <= 7 then Some([] + Zeros(16 - 2 * words) + end) else None;
  }

  lemma {:induction false} ParseGapLater(f: Form)
    requires WellFormed(f) && f.gap && f.left != []
    ensures Parse(TextOf(f)) == if Accepts(f) then Some(ValueOf(f)) else None
  {
    hide Read, GroupValue, BytesOf, Lead, LastText, At, IsGroup, IsOctet;
    var text := TextOf(f);
    var tail := Lead(f.right) + LastText(f.last);
    assert text == Lead(f.left) + (":" + tail);
    NoColonFirst(f);
    AtWhole(text);
    AtSplit(text, 0, Lead(f.left), ":" + tail);
    ReadLead(text, 0, START, 0, f.left);
    if |f.left| <= 7 {
      var i := |Lead(f.left)|;
      AtSplit(text, i, ":", tail);
      AtChar(text, i, ":", 0);
      assert [] + BytesOf(f.left) == BytesOf(f.left);
      var s := Scan(BytesOf(f.left), -1, i, 0, 0);
      Gapped(text, i, s, |f.left|);
      var t := s.(zero := |s.out|, mark := i + 1);
      ReadTail(text, i + 1, t, |f.left|, f.right, f.last);
      var end := BytesOf(f.right) + LastBytes(f.last);
      assert t.out[..t.zero] == t.out && t.out[t.zero..] + end == end;
      var words := |f.left| + |f.right| + Size(f.last);
      assert Closed(t, words, end) == if words <= 7 then Some(t.out + Zeros(16 - 2 * words) + end) else None;
    }
  }

  /** The exact meaning of every form: the parser accepts it if and only if `Accepts` says so. */
  lemma {:induction false} ParseForm(f: Form)
    requires WellFormed(f)
    ensures Parse(TextOf(f)) == if Accepts(f) then Some(ValueOf(f)) else None
  {
    hide Parse, TextOf, ValueOf, Accepts;
    if !f.gap {
      ParsePlain(f);
    } else if f.left == [] {
      ParseGapFirst(f);
    } else {
      ParseGapLater(f);
    }
  }

  /** The words from i on, before j, in hexadecimal. */
  function HexWords(p: Address, i: nat, j: nat): (gs: seq<string>)
    requires i <= j <= 8
    ensures |gs| == j - i
    decreases j - i
  {
    if i == j then [] else [Hex(WordAt(p, i))] + HexWords(p, i + 1, j)
  }

  lemma HexDigitIs(d: nat)
    requires d < 16
    ensures IsHex(HexDigit(d)) && Value(HexDigit(d)) == d
  {
  }

  /** The digits of v are those of v / 16 and one more. */
  lemma OneMoreDigit(g: string, v: nat, h: string)
    requires v < 0x1_0000 && g == h + [HexDigit(v % 16)] && |g| <= 4
    requires h == "" || IsGroup(h)
    requires v / 16 == if h == "" then 0 else GroupValue(h, |h|)
    ensures IsGroup(g) && GroupValue(g, |g|) == v
  {
    HexDigitIs(v % 16);
    hide HexDigit, Value, IsHex;
    forall k | 0 <= k < |h| ensures g[k] == h[k] {}
    SamePrefix(g, h, |h|);
  }

  lemma {:induction false} SamePrefix(g: string, h: string, n: nat)
    requires n <= |g| && n <= |h| && forall k :: 0 <= k < n ==> IsHex(g[k]) && h[k] == g[k]
    ensures GroupValue(g, n) == GroupValue(h, n)
  {
    if n > 0 { SamePrefix(g, h, n - 1); }
  }

  lemma {:induction false} HexValue(v: nat)
    requires v < 0x1_0000
    ensures IsGroup(Hex(v)) && GroupValue(Hex(v), |Hex(v)|) == v
    decreases v
  {
    if v < 16 {
      OneMoreDigit(Hex(v), v, "");
    } else {
      HexValue(v / 16);
      assert Hex(v) == Hex(v / 16) + [HexDigit(v % 16)];
      OneMoreDigit(Hex(v), v, Hex(v / 16));
    }
  }

  lemma WordBytes(p: Address, w: nat)
    requires w < 8
    ensures Hi(WordAt(p, w)) == p[2 * w] && Lo(WordAt(p, w)) == p[2 * w + 1]
  {
  }

  lemma {:induction false} HexWordsBytes(p: Address, i: nat, j: nat)
    requires i <= j <= 8
    ensures AllGroups(HexWords(p, i, j)) && BytesOf(HexWords(p, i, j)) == p[2 * i..2 * j]
    decreases j - i
  {
    hide Hi, Lo, GroupValue, WordAt, Hex, IsGroup;
    if i < j {
      HexValue(WordAt(p, i));
      WordBytes(p, i);
      HexWordsBytes(p, i + 1, j);
      var gs, rest := HexWords(p, i, j), HexWords(p, i + 1, j);
      assert gs[0] == Hex(WordAt(p, i)) && gs[1..] == rest;
      assert p[2 * i..2 * j] == [p[2 * i], p[2 * i + 1]] + p[2 * (i + 1)..2 * j];
    }
  }

  lemma DigitIs(d: nat)
    requires d < 10
    ensures IsDigit(HexDigit(d)) && Value(HexDigit(d)) == d
  {
  }

  lemma DecIs(v: Byte)
    ensures IsOctet(Dec(v)) && Octet(Dec(v)) == v && 1 <= |Dec(v)| <= 3
  {
    var o, tens := Dec(v), v / 10;
    DigitIs(v % 10);
    DigitIs(tens % 10);
    DigitIs(tens / 10);
    hide HexDigit, Value, IsDigit;
    assert DecValue(o, 0) == 0;
    if v < 10 {
      assert o == [HexDigit(v % 10)];
    } else if v < 100 {
      assert o == [HexDigit(tens % 10), HexDigit(v % 10)];
      assert DecValue(o, 1) == tens;
    } else {
      assert v / 100 == tens / 10;
      assert o == [HexDigit(tens / 10), HexDigit(tens % 10), HexDigit(v % 10)];
      assert DecValue(o, 1) == tens / 10;
      assert DecValue(o, 2) == tens;
    }
  }

  /** The end of an address in decimal. */
  function QuadOf(p: Address): Last {
    Quad(Dec(p[12]), Dec(p[13]), Dec(p[14]), Dec(p[15]))
  }

  lemma QuadOfIs(p: Address)
    ensures LastOk(QuadOf(p)) && LastBytes(QuadOf(p)) == [p[12], p[13], p[14], p[15]]
    ensures AllOnes(QuadOf(p)) <==> EndsInOnes(p)
  {
    DecIs(p[12]);
    DecIs(p[13]);
    DecIs(p[14]);
    DecIs(p[15]);
    hide IsOctet, Octet;
  }

  /** The form in which an address is printed. */
  function FormOf(p: Address): Form {
    var (a, m) := Gap(p);
    GapIs(p);
    if a < 0 then Form(HexWords(p, 0, 7), false, [], Group(Hex(WordAt(p, 7))))
    else if EndsDotted(p) then Form([], true, HexWords(p, m, if m < 6 then 6 else m), QuadOf(p))
    else if a + m == 8 then Form(HexWords(p, 0, a), true, [], Nothing)
    else Form(HexWords(p, 0, a), true, HexWords(p, a + m, 7), Group(Hex(WordAt(p, 7))))
  }

  /** The groups the printer puts down before it comes to the gap or to the last word. */
  lemma {:induction false} WordsLead(p: Address, i: nat, j: nat, a: int, m: nat, end: nat)
    requires i <= j <= 7 && j <= end <= 8 && m > 0 && (a < i || j <= a)
    ensures Words(p, i, a, m, end) == Lead(HexWords(p, i, j)) + Words(p, j, a, m, end)
    decreases j - i
  {
    hide Hex, WordAt, Words;
    if i < j {
      WordsStep(p, i, a, m, end);
      WordsLead(p, i + 1, j, a, m, end);
      var gs, rest := HexWords(p, i, j), HexWords(p, i + 1, j);
      assert gs[0] == Hex(WordAt(p, i)) && gs[1..] == rest;
      assert Lead(gs) == gs[0] + (":" + Lead(rest));
      hide Lead, HexWords;
      Regrouped(gs[0], Lead(rest), Words(p, j, a, m, end));
    } else {
      assert Lead(HexWords(p, i, j)) == "";
    }
  }

  lemma Regrouped(g: string, lead: string, rest: string)
    ensures g + ":" + (lead + rest) == (g + (":" + lead)) + rest
  {
  }

  lemma LastWord(p: Address, a: int, m: nat)
    requires m > 0 && a < 7
    ensures Words(p, 7, a, m, 8) == Hex(WordAt(p, 7))
  {
  }

  lemma AtGap(p: Address, a: nat, m: nat, end: nat)
    requires m > 0 && a < end <= 8
    ensures Words(p, a, a, m, end) == ":" + Words(p, a + m, a, m, end)
    ensures a + m >= end ==> Words(p, a + m, a, m, end) == ""
  {
  }

  lemma {:induction false} PrintPlain(p: Address)
    requires Gap(p).0 < 0
    ensures Print(p) == TextOf(FormOf(p))
  {
    hide Hex, WordAt, Gap, Words, Lead;
    EmptyLead();
    WordsLead(p, 0, 7, -1, 1, 8);
    LastWord(p, -1, 1);
    GapIs(p);
  }

  lemma QuadText(p: Address)
    ensures DottedText(p) == LastText(QuadOf(p))
  {
    hide Dec;
    var a, b, c, d := Dec(p[12]), Dec(p[13]), Dec(p[14]), Dec(p[15]);
    assert a + "." + b + "." + c + "." + d == a + ("." + (b + ("." + (c + ("." + d)))));
  }

  lemma {:induction false} PrintDotted(p: Address)
    requires EndsDotted(p)
    ensures Print(p) == TextOf(FormOf(p))
  {
    var m := Gap(p).1;
    GapIs(p);
    hide Hex, WordAt, Gap, Words, Lead, DottedText;
    EmptyLead();
    AtGap(p, 0, m, 6);
    QuadText(p);
    if m < 6 {
      WordsLead(p, m, 6, 0, m, 6);
      WordsEnd(p, 6, 0, m, 6);
      assert Words(p, m, 0, m, 6) == Lead(HexWords(p, m, 6)) + "" == Lead(HexWords(p, m, 6));
    }
    var words, quad := Words(p, m, 0, m, 6), DottedText(p);
    assert ":" + (":" + words) + quad == "::" + (words + quad);
  }

  lemma Regroup(head: string, left: string, rest: string)
    requires head == "" || (head == ":" && left == "")
    ensures head + (left + (":" + rest)) + "" == left + ((head + ":") + rest)
  {
    if head == "" {
      assert head + (left + (":" + rest)) + "" == left + (":" + rest);
    }
  }

  lemma {:induction false} PrintGap(p: Address)
    requires Gap(p).0 >= 0 && !EndsDotted(p)
    ensures Print(p) == TextOf(FormOf(p))
  {
    var (a, m) := Gap(p);
    GapIs(p);
    PrintIs(p);
    var f := FormOf(p);
    var end := Lead(f.right) + LastText(f.last);
    var head := if a == 0 then ":" else "";
    assert f.left == HexWords(p, 0, a) && Colons(f) == head + ":" && TextOf(f) == Lead(f.left) + (Colons(f) + end);
    assert Parts(p, a, m, 8) == head + Words(p, 0, a, m, 8) + "";
    hide Hex, WordAt, Gap, IsGap, Run, Words, Lead, DottedText, HexWords, EndsDotted, TextOf, Colons, Print, Parts;
    EmptyLead();
    WordsLead(p, 0, a, a, m, 8);
    AtGap(p, a, m, 8);
    EndOfGap(p, a, m);
    hide FormOf, LastText;
    Regroup(head, Lead(f.left), end);
  }

  lemma EndOfGap(p: Address, a: nat, m: nat)
    requires (a, m) == Gap(p) && m > 0 && a + m <= 8 && !EndsDotted(p)
    ensures Words(p, a + m, a, m, 8) == Lead(FormOf(p).right) + LastText(FormOf(p).last)
  {
    hide Hex, WordAt, Gap, Words, Lead, HexWords, EndsDotted;
    EmptyLead();
    if a + m < 8 {
      WordsLead(p, a + m, 7, a, m, 8);
      LastWord(p, a, m);
    } else {
      WordsEnd(p, 8, a, m, 8);
    }
  }

  /** The printed text is the text of that form. */
  lemma {:induction false} PrintIsForm(p: Address)
    ensures Print(p) == TextOf(FormOf(p))
  {
    hide Print, TextOf, FormOf;
    if Gap(p).0 < 0 {
      PrintPlain(p);
    } else if EndsDotted(p) {
      PrintDotted(p);
    } else {
      PrintGap(p);
    }
  }

  lemma {:induction false} ZeroBytes(p: Address, a: nat, m: nat)
    requires Run(p, a, m)
    ensures p[2 * a..2 * (a + m)] == Zeros(2 * m)
  {
    forall k | 2 * a <= k < 2 * (a + m) ensures p[k] == 0 {
      ZeroByte(p, a, m, k);
    }
  }

  lemma ZeroByte(p: Address, a: nat, m: nat, k: nat)
    requires Run(p, a, m) && 2 * a <= k < 2 * (a + m)
    ensures p[k] == 0
  {
    assert WordAt(p, k / 2) == 0;
  }

  /** Does the form mean the address? */
  predicate Means(f: Form, p: Address) {
    WellFormed(f) && Accepts(f) && ValueOf(f) == p
  }

  lemma LastWordGroup(p: Address)
    ensures IsGroup(Hex(WordAt(p, 7))) && LastBytes(Group(Hex(WordAt(p, 7)))) == [p[14], p[15]]
  {
    hide Hex, WordAt, Hi, Lo, GroupValue;
    HexValue(WordAt(p, 7));
    WordBytes(p, 7);
  }

  lemma MeansBy(f: Form, p: Address, i: nat, j: nat)
    requires WellFormed(f) && Accepts(f)
    requires i <= j <= 16 && j - i == 16 - 2 * (|f.left| + |f.right| + Size(f.last))
    requires BytesOf(f.left) == p[..i] && p[i..j] == Zeros(j - i)
    requires BytesOf(f.right) + LastBytes(f.last) == p[j..]
    ensures Means(f, p)
  {
    hide IsGroup, BytesOf, LastBytes, Zeros;
    assert p == p[..i] + p[i..j] + p[j..];
  }

  function LastHex(p: Address): Last {
    Group(Hex(WordAt(p, 7)))
  }

  lemma {:induction false} PlainMeans(p: Address)
    ensures Means(Form(HexWords(p, 0, 7), false, [], LastHex(p)), p)
  {
    hide BytesOf, LastBytes, WordAt, Hex, HexWords, IsGroup, Means;
    HexWordsBytes(p, 0, 7);
    LastWordGroup(p);
    EmptyLead();
    assert p[0..14] == p[..14] && p[14..] == [] + [p[14], p[15]];
    MeansBy(Form(HexWords(p, 0, 7), false, [], LastHex(p)), p, 14, 14);
  }

  lemma {:induction false} GapMeans(p: Address, a: nat, m: nat)
    requires Run(p, a, m) && a + m < 8 && m >= 1
    ensures Means(Form(HexWords(p, 0, a), true, HexWords(p, a + m, 7), LastHex(p)), p)
  {
    hide BytesOf, LastBytes, WordAt, Hex, HexWords, IsGroup, Means, Run, Zeros;
    ZeroBytes(p, a, m);
    HexWordsBytes(p, 0, a);
    HexWordsBytes(p, a + m, 7);
    LastWordGroup(p);
    assert p[0..2 * a] == p[..2 * a] && p[2 * (a + m)..] == p[2 * (a + m)..14] + [p[14], p[15]];
    MeansBy(Form(HexWords(p, 0, a), true, HexWords(p, a + m, 7), LastHex(p)), p, 2 * a, 2 * (a + m));
  }

  lemma {:induction false} GapLastMeans(p: Address, a: nat, m: nat)
    requires Run(p, a, m) && a + m == 8 && m >= 2
    ensures Means(Form(HexWords(p, 0, a), true, [], Nothing), p)
  {
    hide BytesOf, WordAt, Hex, HexWords, IsGroup, Means, Run, Zeros;
    ZeroBytes(p, a, m - 1) by { RunShorter(p, a, m); }
    RunShorter(p, a, m);
    HexWordsBytes(p, 0, a);
    EmptyLead();
    assert p[0..2 * a] == p[..2 * a] && p[14..] == [] + [0, 0];
    MeansBy(Form(HexWords(p, 0, a), true, [], Nothing), p, 2 * a, 14);
  }

  lemma RunShorter(p: Address, a: nat, m: nat)
    requires Run(p, a, m) && a + m == 8 && m >= 2
    ensures Run(p, a, m - 1) && p[14] == 0 && p[15] == 0
  {
    assert WordAt(p, 7) == 0;
  }

  lemma TailBytes(p: Address, k: nat)
    requires k <= 12
    ensures p[..0] == [] && p[0..k] == p[..k] && p[k..] == p[k..12] + [p[12], p[13], p[14], p[15]]
    ensures p[12..] == [p[12], p[13], p[14], p[15]]
  {
  }

  lemma {:induction false} DottedMeans(p: Address, m: nat)
    requires Run(p, 0, m) && 5 <= m <= 7 && !EndsInOnes(p)
    ensures Means(Form([], true, HexWords(p, m, if m < 6 then 6 else m), QuadOf(p)), p)
  {
    var n := if m < 6 then m else 6;
    RunPrefix(p, m, n);
    QuadOfIs(p);
    hide BytesOf, WordAt, Hex, HexWords, IsGroup, Means, Run, Zeros, LastOk, LastBytes, AllOnes;
    ZeroBytes(p, 0, n);
    HexWordsBytes(p, m, if m < 6 then 6 else m);
    EmptyLead();
    TailBytes(p, 2 * n);
    hide QuadOf;
    var f := Form([], true, HexWords(p, m, if m < 6 then 6 else m), QuadOf(p));
    assert m >= 6 ==> BytesOf(f.right) == [] && f.right == [];
    MeansBy(f, p, 0, 2 * n);
  }

  lemma RunPrefix(p: Address, m: nat, n: nat)
    requires Run(p, 0, m) && n <= m
    ensures Run(p, 0, n)
  {
  }

  /** The two addresses whose dotted end looks like a failure to the dotted parser. */
  const ALL_ONES: Address := [0, 0, 0, 0, 0, 0, 0, 0, 0, 0, 0, 0, 255, 255, 255, 255]
  const MAPPED_ONES: Address := [0, 0, 0, 0, 0, 0, 0, 0, 0, 0, 255, 255, 255, 255, 255, 255]

  lemma DottedRun(p: Address)
    requires EndsDotted(p)
    ensures var m := Gap(p).1;
      Gap(p).0 == 0 && 5 <= m <= 7 && Run(p, 0, m) && (m == 5 ==> p[10] == 0xff && p[11] == 0xff)
  {
    GapIs(p);
  }

  predicate EndsInOnes(p: Address) {
    p[12] == 255 && p[13] == 255 && p[14] == 255 && p[15] == 255
  }

  lemma {:induction false} FormMeansDotted(p: Address)
    requires EndsDotted(p)
    ensures WellFormed(FormOf(p))
    ensures if EndsInOnes(p) then !Accepts(FormOf(p)) else Means(FormOf(p), p)
  {
    DottedRun(p);
    var m := Gap(p).1;
    QuadOfIs(p);
    hide HexWords, LastBytes, BytesOf, WordAt, Hex, IsGroup, Gap, Run, ValueOf, LastOk, AllOnes;
    GapIs(p);
    HexWordsBytes(p, m, if m < 6 then 6 else m);
    if !EndsInOnes(p) {
      DottedMeans(p, m);
    }
  }

  /** An address is printed in a form that means it, and the parser reads the form unless it ends in ones. */
  lemma {:induction false} FormMeans(p: Address)
    ensures WellFormed(FormOf(p))
    ensures if EndsDotted(p) && EndsInOnes(p) then !Accepts(FormOf(p)) else Means(FormOf(p), p)
  {
    if EndsDotted(p) {
      FormMeansDotted(p);
    } else {
      FormMeansHex(p);
    }
  }

  lemma {:induction false} FormMeansHex(p: Address)
    requires !EndsDotted(p)
    ensures WellFormed(FormOf(p)) && Means(FormOf(p), p)
  {
    var (a, m) := Gap(p);
    GapIs(p);
    assert a >= 0 ==> Run(p, a, m) && a + m <= 8 && m >= 2;
    hide HexWords, LastBytes, BytesOf, WordAt, Hex, IsGroup, Gap, IsGap, Run, ValueOf, EndsDotted, EndsInOnes,
      QuadOf, Accepts, WellFormed;
    if a < 0 {
      PlainMeans(p);
    } else if a + m == 8 {
      GapLastMeans(p, a, m);
    } else {
      GapMeans(p, a, m);
    }
  }

  lemma {:induction false} OnesOnly(p: Address)
    requires EndsDotted(p) && EndsInOnes(p)
    ensures p == ALL_ONES || p == MAPPED_ONES
  {
    DottedRun(p);
    var m := Gap(p).1;
    hide Gap, EndsDotted, Run;
    forall k | 0 <= k < 10 ensures p[k] == 0 {
      ZeroByte(p, 0, m, k);
    }
    if m > 5 {
      ZeroByte(p, 0, m, 10);
      ZeroByte(p, 0, m, 11);
      assert p == ALL_ONES;
    } else {
      assert p == MAPPED_ONES;
    }
  }

  lemma NoLongerRun(p: Address, m: nat, b: nat, l: nat)
    requires m <= 7 && Run(p, b, l) && forall k :: m <= k < 8 ==> WordAt(p, k) != 0
    ensures l <= m
  {
    var k := if b > m then b else m;
    assert k < 8 ==> WordAt(p, k) != 0;
  }

  /** The leading zero words of an address that has no others are its gap. */
  lemma LeadingRun(p: Address, m: nat)
    requires 2 <= m <= 7 && Run(p, 0, m) && forall k :: m <= k < 8 ==> WordAt(p, k) != 0
    ensures Gap(p) == (0, m)
  {
    forall b: nat, l: nat | Run(p, b, l) ensures l < m || (l == m && 0 <= b) {
      NoLongerRun(p, m, b, l);
    }
    assert IsGap(p, 0, m);
    GapUnique(p, 0, m);
  }

  lemma OnesEnd(p: Address, m: nat)
    requires 5 <= m <= 6 && EndsInOnes(p) && forall k :: 0 <= k < 2 * m ==> p[k] == 0
    requires m == 5 ==> p[10] == 255 && p[11] == 255
    ensures EndsDotted(p)
  {
    LeadingRun(p, m) by {
      assert Run(p, 0, m);
      assert WordAt(p, 7) == 0xffff && WordAt(p, 6) == 0xffff && (m == 5 ==> WordAt(p, 5) == 0xffff);
    }
  }

  /** Which addresses end in a dotted 255.255.255.255. */
  lemma {:induction false} OnesPrinted(p: Address)
    ensures EndsDotted(p) && EndsInOnes(p) <==> p == ALL_ONES || p == MAPPED_ONES
  {
    hide EndsDotted;
    if EndsDotted(p) && EndsInOnes(p) {
      OnesOnly(p);
    }
    if p == ALL_ONES {
      OnesEnd(p, 6);
    }
    if p == MAPPED_ONES {
      OnesEnd(p, 5);
    }
  }

  /** The parser undoes the printer for every address but two, and fails on those. */
  lemma {:induction false} RoundTrip(p: Address)
    ensures Parse(Print(p)) == (if p == ALL_ONES || p == MAPPED_ONES then None else Some(p[..]))
  {
    hide Parse, Print, TextOf, FormOf, Accepts, WellFormed, EndsDotted, EndsInOnes;
    PrintIsForm(p);
    FormMeans(p);
    ParseForm(FormOf(p));
    OnesPrinted(p);
  }

  lemma {:induction false} DottedShift(text: string, i: nat, addr: nat, octet: nat, n: nat)
    requires i <= |text|
    ensures Dotted(":" + text, i + 1, addr, octet, n) == Dotted(text, i, addr, octet, n)
    decreases |text| - i
  {
    if i < |text| {
      assert (":" + text)[i + 1] == text[i];
      if IsDigit(text[i]) && octet * 10 + Value(text[i]) <= 255 {
        DottedShift(text, i + 1, addr, octet * 10 + Value(text[i]), n);
      } else if text[i] == '.' {
        DottedShift(text, i + 1, (addr * 256 + octet) % 0x1_0000_0000, 0, n + 1);
      }
    }
  }

  function Shifted(s: Scan): Scan {
    if s.mark < 0 then s else s.(mark := s.mark + 1)
  }

  lemma {:induction false} ReadShift(text: string, i: nat, s: Scan)
    requires i <= |text| && |s.out| <= 14 && s.zero <= |s.out| && -1 <= s.mark <= i
    ensures Read(":" + text, i + 1, Shifted(s)) == Read(text, i, s)
    decreases |text| - i
  {
    hide Finish, Dotted;
    if i < |text| {
      assert (":" + text)[i + 1] == text[i];
      if text[i] == ':' {
        if s.nibbles > 0 && |s.out| <= 12 {
          ReadShift(text, i + 1, Scan(s.out + [Hi(s.word), Lo(s.word)], s.zero, i + 1, 0, 0));
        } else if s.nibbles == 0 && s.zero < 0 {
          ReadShift(text, i + 1, s.(zero := |s.out|, mark := i + 1));
        }
      } else if text[i] == '.' && s.nibbles > 0 {
        if s.mark >= 0 {
          DottedShift(text, s.mark, 0, 0, 0);
          FinishShift(s);
        }
      } else if s.nibbles < 4 && IsHex(text[i]) {
        ReadShift(text, i + 1, s.(nibbles := s.nibbles + 1, word := s.word * 16 + Value(text[i])));
      }
    } else {
      FinishShift(s);
    }
  }

  /** Where the last colon was does not matter any more at the end. */
  lemma FinishShift(s: Scan)
    requires |s.out| <= 14 && s.zero <= |s.out|
    ensures Finish(Shifted(s)) == Finish(s)
    ensures forall out: seq<Byte>, word: nat :: |out| == |s.out| + 2 <= 14 ==>
      Finish(Shifted(s).(out := out, word := word)) == Finish(s.(out := out, word := word))
  {
  }

  /** A single leading colon is ignored. */
  lemma {:induction false} LeadingColon(text: string)
    requires text != "" && text[0] != ':'
    ensures Parse(":" + text) == Parse(text)
  {
    ReadShift(text, 0, START);
  }
}
