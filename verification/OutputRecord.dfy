/** The record of what an output chain hands to the next filter: bytes, and marks for the flags among them. */
module OutputRecord {
  import opened Common
  import opened Bufs
  import opened OutputState

  datatype Token = Data(b: Byte) | Mark(flush: bool, lastBuf: bool, lastInChain: bool, sync: bool)

  function DataOf(data: seq<Byte>): (r: seq<Token>)
    ensures |r| == |data|
  {
    seq(|data|, i requires 0 <= i < |data| => Data(data[i]))
  }

  /** A buffer that is nowhere and asks for a flush, for a sync or for the end is a mark; a buffer with data ends with
      one if it has flags; any other buffer says nothing. */
  function MarkOf(b: Buf): seq<Token> {
    if !b.temporary && !b.memory && !b.mmap && !b.inFile && (b.flush || b.lastBuf || b.sync) then
      [Mark(b.flush, b.lastBuf, b.lastInChain, b.sync)]
    else if Size(b) != 0 && (b.flush || b.lastBuf || b.lastInChain) then
      [Mark(b.flush, b.lastBuf, b.lastInChain, false)]
    else []
  }

  /** `part` says that the buffer is a fragment that is not the end of what it was copied from. */
  function TokensOf(files: Files, b: Buf, part: bool): seq<Token> {
    if GoodBuf(files, b) then DataOf(Bytes(files, b)) + if part then [] else MarkOf(b) else []
  }

  ghost function Stream(files: Files, t: Table, chain: seq<Id>, parts: set<Id>): seq<Token> {
    if chain == [] then []
    else
      (if chain[0] in t then TokensOf(files, t[chain[0]], chain[0] in parts) else []) +
      Stream(files, t, chain[1..], parts)
  }

  /** What has been handed down, and what is to be: the fragments made ready, and what waits. */
  ghost function Record(files: Files, s: State, handed: seq<Token>, parts: set<Id>): seq<Token> {
    handed + Stream(files, s.t, s.out, parts) + Stream(files, s.t, s.input, {})
  }

  lemma {:induction false} StreamSame(files: Files, t: Table, u: Table, chain: seq<Id>, p: set<Id>, q: set<Id>)
    requires forall id :: id in chain ==>
      (id in t <==> id in u) && (id in t ==> t[id] == u[id]) && (id in p <==> id in q)
    ensures Stream(files, t, chain, p) == Stream(files, u, chain, q)
  {
    if chain != [] {
      var x := chain[0];
      assert x in chain && (x in t <==> x in u) && (x in p <==> x in q);
      forall id | id in chain[1..] ensures id in chain {}
      StreamSame(files, t, u, chain[1..], p, q);
    }
  }

  lemma {:induction false} StreamAppend(files: Files, t: Table, a: seq<Id>, b: seq<Id>, p: set<Id>)
    ensures Stream(files, t, a + b, p) == Stream(files, t, a, p) + Stream(files, t, b, p)
  {
    if a == [] {
      assert a + b == b;
    } else {
      assert (a + b)[1..] == a[1..] + b && (a + b)[0] == a[0];
      StreamAppend(files, t, a[1..], b, p);
    }
  }

  lemma StreamOne(files: Files, t: Table, x: Id, p: set<Id>)
    requires x in t
    ensures Stream(files, t, [x], p) == TokensOf(files, t[x], x in p)
  {
    assert [x][1..] == [];
    assert Stream(files, t, [x], p) == TokensOf(files, t[x], x in p) + Stream(files, t, [], p);
  }

  lemma StreamFirst(files: Files, t: Table, chain: seq<Id>, p: set<Id>)
    requires chain != [] && chain[0] in t
    ensures Stream(files, t, chain, p) == TokensOf(files, t[chain[0]], chain[0] in p) + Stream(files, t, chain[1..], p)
  {
  }

  ghost predicate PartsOut(parts: set<Id>, out: seq<Id>) {
    forall id :: id in parts ==> id in out
  }

  lemma PartsMore(parts: set<Id>, out: seq<Id>, x: Id)
    requires PartsOut(parts, out)
    ensures PartsOut(parts, out + [x]) && PartsOut(parts + {x}, out + [x])
  {
  }

  lemma NoParts(out: seq<Id>)
    ensures PartsOut({}, out)
  {
  }

  /** What is to be handed down is in the table. */
  lemma ChainsKnown(files: Files, s: State, tag: int, cur: Id)
    requires Inv(files, s, tag, cur)
    ensures forall id :: id in s.out || id in s.input ==> id in s.t
  {
    var all := All(s);
    forall k | 0 <= k < |s.out| ensures s.out[k] in s.t { assert all[|s.down| + k] == s.out[k]; }
    forall k | 0 <= k < |s.input| ensures s.input[k] in s.t { assert all[|s.down + s.out| + k] == s.input[k]; }
  }

  /** Does the buffer not occur in what is to be handed down? */
  ghost predicate Apart(s: State, parts: set<Id>, x: Id) {
    x !in s.out && x !in parts && forall k :: 1 <= k < |s.input| ==> s.input[k] != x
  }

  lemma FirstApart(files: Files, s: State, tag: int, cur: Id, parts: set<Id>)
    requires Inv(files, s, tag, cur) && s.input != [] && PartsOut(parts, s.out)
    ensures Apart(s, parts, s.input[0])
  {
    var n := |s.down + s.out|;
    var all := All(s);
    FirstFacts(files, s, tag, cur);
    forall k | 0 <= k < |s.out| ensures s.out[k] != s.input[0] {
      assert all[|s.down| + k] == s.out[k] && all[n] == s.input[0];
    }
  }

  lemma CurApart(files: Files, s: State, tag: int, cur: Id, parts: set<Id>)
    requires Inv(files, s, tag, cur) && cur != NONE && PartsOut(parts, s.out)
    ensures Apart(s, parts, cur) && cur !in s.input
  {
  }

  lemma ElsewhereSame(files: Files, t: Table, x: Id, b: Buf, chain: seq<Id>, p: set<Id>)
    requires x !in chain
    ensures Stream(files, t[x := b], chain, p) == Stream(files, t, chain, p)
  {
    StreamSame(files, t[x := b], t, chain, p, p);
  }

  /** An empty buffer that is not special says nothing. */
  lemma DropRecord(files: Files, s: State, handed: seq<Token>, parts: set<Id>)
    requires s.input != [] && s.input[0] in s.t && Size(s.t[s.input[0]]) == 0 && !Special(s.t[s.input[0]])
    ensures Record(files, Dropped(s), handed, parts) == Record(files, s, handed, parts)
  {
    StreamFirst(files, s.t, s.input, {});
    hide Stream;
    assert TokensOf(files, s.t[s.input[0]], false) == [];
  }

  /** Do the buffers say the same? */
  predicate SameTokens(files: Files, b: Buf, c: Buf) {
    GoodBuf(files, b) && GoodBuf(files, c) && Bytes(files, b) == Bytes(files, c) && MarkOf(b) == MarkOf(c)
  }

  lemma SameSaid(files: Files, b: Buf, c: Buf)
    requires SameTokens(files, b, c)
    ensures TokensOf(files, b, false) == TokensOf(files, c, false)
  {
  }

  /** A buffer moves from the input to the output. */
  lemma PassRecord(files: Files, s: State, b: Buf, handed: seq<Token>, parts: set<Id>)
    requires s.input != [] && s.input[0] in s.t && SameTokens(files, s.t[s.input[0]], b) && Apart(s, parts, s.input[0])
    ensures Record(files, Passed(s, b), handed, parts) == Record(files, s, handed, parts)
  {
    var x, u := s.input[0], s.t[s.input[0] := b];
    hide Stream, GoodBuf, MarkOf, TokensOf, SameTokens;
    SameSaid(files, s.t[x], b);
    StreamFirst(files, s.t, s.input, {});
    StreamAppend(files, u, s.out, [x], parts);
    StreamOne(files, u, x, parts);
    ElsewhereSame(files, s.t, x, b, s.out, parts);
    ElsewhereSame(files, s.t, x, b, s.input[1..], {});
    RegroupOne(handed, Stream(files, s.t, s.out, parts), TokensOf(files, b, false),
               Stream(files, s.t, s.input[1..], {}));
  }

  /** A buffer that waits is replaced by one that says the same. */
  lemma StayRecord(files: Files, s: State, b: Buf, handed: seq<Token>, parts: set<Id>)
    requires s.input != [] && s.input[0] in s.t && SameTokens(files, s.t[s.input[0]], b) && Apart(s, parts, s.input[0])
    ensures Record(files, s.(t := s.t[s.input[0] := b]), handed, parts) == Record(files, s, handed, parts)
  {
    var x, u := s.input[0], s.t[s.input[0] := b];
    hide Stream, GoodBuf, MarkOf, TokensOf, SameTokens;
    SameSaid(files, s.t[x], b);
    StreamFirst(files, s.t, s.input, {});
    StreamFirst(files, u, s.input, {});
    ElsewhereSame(files, s.t, x, b, s.out, parts);
    ElsewhereSame(files, s.t, x, b, s.input[1..], {});
  }

  /** Does the fragment have the flags of the buffer if it is its end, and what is left of the buffer the same ones? */
  predicate FlagsGo(b: Buf, src: Buf, dst: Buf) {
    && Size(dst) > 0 && 0 <= Size(src) && InMemory(dst) && !Special(b) && !Special(src)
    && src.flush == b.flush && src.lastBuf == b.lastBuf && src.lastInChain == b.lastInChain
    && (Size(src) == 0 ==> dst.flush == b.flush && dst.lastBuf == b.lastBuf && dst.lastInChain == b.lastInChain)
  }

  function PartsWith(parts: set<Id>, cur: Id, src: Buf): set<Id> {
    if Size(src) == 0 then parts else parts + {cur}
  }

  lemma Regroup(h: seq<Token>, a: seq<Token>, x: seq<Token>, y: seq<Token>, b: seq<Token>)
    ensures h + (a + x) + (y + b) == h + a + ((x + y) + b)
  {
  }

  lemma RegroupOne(h: seq<Token>, a: seq<Token>, x: seq<Token>, b: seq<Token>)
    ensures h + (a + x) + b == h + a + (x + b)
  {
  }

  lemma DataSplit(a: seq<Byte>, b: seq<Byte>)
    ensures DataOf(a + b) == DataOf(a) + DataOf(b)
  {
  }

  lemma MarksGo(b: Buf, src: Buf, dst: Buf)
    requires FlagsGo(b, src, dst) && Size(b) > 0
    ensures MarkOf(if Size(src) == 0 then dst else src) == MarkOf(b)
  {
  }

  /** Fragment and rest together say what the buffer said. */
  lemma SplitTokens(files: Files, b: Buf, src: Buf, dst: Buf)
    requires Fragment(files, b, src, dst) && FlagsGo(b, src, dst) && Size(b) > 0
    ensures TokensOf(files, b, false) ==
            TokensOf(files, dst, Size(src) != 0) + if Size(src) == 0 then [] else TokensOf(files, src, false)
  {
    hide GoodBuf, MarkOf, DataOf, FlagsGo;
    MarksGo(b, src, dst);
    var x, y := Bytes(files, dst), Bytes(files, src);
    DataSplit(x, y);
    if Size(src) == 0 {
      assert y == [] && x + y == x;
      assert DataOf(x) + [] + MarkOf(b) == DataOf(x) + MarkOf(b);
    } else {
      assert DataOf(x) + DataOf(y) + MarkOf(b) == DataOf(x) + [] + (DataOf(y) + MarkOf(b));
    }
  }

  /** A fragment moves from the input to the output. */
  lemma CopyRecord(files: Files, s: State, cur: Id, src: Buf, dst: Buf, handed: seq<Token>, parts: set<Id>)
    requires s.input != [] && s.input[0] in s.t && cur != s.input[0] && Size(s.t[s.input[0]]) > 0
    requires Fragment(files, s.t[s.input[0]], src, dst) && FlagsGo(s.t[s.input[0]], src, dst)
    requires Apart(s, parts, s.input[0]) && Apart(s, parts, cur) && cur !in s.input
    ensures Record(files, Copied(s, cur, src, dst), handed, PartsWith(parts, cur, src)) ==
            Record(files, s, handed, parts)
  {
    var x, rest, q := s.input[0], s.input[1..], PartsWith(parts, cur, src);
    var u, v := s.t[x := src], s.t[x := src][cur := dst];
    hide Stream, Fragment, FlagsGo, TokensOf;
    assert cur !in rest && x !in rest;
    SplitTokens(files, s.t[x], src, dst);
    StreamFirst(files, s.t, s.input, {});
    ElsewhereSame(files, s.t, x, src, rest, {});
    ElsewhereSame(files, u, cur, dst, rest, {});
    ElsewhereSame(files, s.t, x, src, s.out, parts);
    ElsewhereSame(files, u, cur, dst, s.out, parts);
    StreamSame(files, v, v, s.out, parts, q);
    StreamAppend(files, v, s.out, [cur], q);
    StreamOne(files, v, cur, q);
    var a, b := Stream(files, s.t, s.out, parts), Stream(files, s.t, rest, {});
    if Size(src) == 0 {
      assert TokensOf(files, dst, false) + [] == TokensOf(files, dst, false);
      RegroupOne(handed, a, TokensOf(files, dst, false), b);
    } else {
      StreamFirst(files, v, s.input, {});
      Regroup(handed, a, TokensOf(files, dst, true), TokensOf(files, src, false), b);
    }
  }

  /** More to do. */
  lemma AddRecord(files: Files, s: State, chain: seq<Id>, handed: seq<Token>, parts: set<Id>)
    ensures Record(files, s.(input := s.input + chain), handed, parts) ==
            Record(files, s, handed, parts) + Stream(files, s.t, chain, {})
  {
    hide Stream;
    StreamAppend(files, s.t, s.input, chain, {});
  }

  /** Nothing that is to be handed down has changed. */
  lemma SameRecord(files: Files, s: State, d: State, handed: seq<Token>, parts: set<Id>)
    requires d.out == s.out && d.input == s.input
    requires forall id :: id in s.out || id in s.input ==> id in s.t && id in d.t && d.t[id] == s.t[id]
    ensures Record(files, d, handed, parts) == Record(files, s, handed, parts)
  {
    StreamSame(files, d.t, s.t, s.out, parts, parts);
    StreamSame(files, d.t, s.t, s.input, {}, {});
  }

  /** The output has been handed down. */
  lemma HandRecord(files: Files, s: State, d: State, handed: seq<Token>, parts: set<Id>)
    requires d.out == [] && d.input == s.input
    requires forall id :: id in s.input ==> id in s.t && id in d.t && d.t[id] == s.t[id]
    ensures Record(files, d, handed + Stream(files, s.t, s.out, parts), {}) == Record(files, s, handed, parts)
  {
    StreamSame(files, d.t, s.t, s.input, {}, {});
    assert Stream(files, d.t, [], {}) == [];
  }

  lemma EmptyStream(files: Files, t: Table)
    ensures Stream(files, t, [], {}) == []
  {
  }

  /** With nothing made ready and nothing waiting, everything has been handed down. */
  lemma AllHanded(files: Files, s: State, handed: seq<Token>, parts: set<Id>)
    requires s.out == [] && s.input == []
    ensures Record(files, s, handed, parts) == handed
  {
  }
}
