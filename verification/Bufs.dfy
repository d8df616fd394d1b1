/** Buffers, chains of them, and what has been sent of a chain. Buffers lie in a table and chains name them. */
module Bufs {
  import opened Common

  type Byte = int

  type Id = int

  /** The bytes of each file, by descriptor. */
  type Files = map<int, seq<Byte>>

  /** A buffer: a piece of memory, a piece of a file, both, or only flags. */
  datatype Buf = Buf(mem: seq<Byte>, pos: nat, last: nat, temporary: bool, memory: bool, mmap: bool,
                     inFile: bool, file: int, filePos: nat, fileLast: nat, directio: bool,
                     flush: bool, lastBuf: bool, lastInChain: bool, sync: bool, tag: int, recycled: bool)

  type Table = map<Id, Buf>

  predicate InMemory(b: Buf) {
    b.temporary || b.memory || b.mmap
  }

  /** Only flags, no data. */
  predicate Special(b: Buf) {
    (b.flush || b.lastBuf || b.sync) && !InMemory(b) && !b.inFile
  }

  function Size(b: Buf): int {
    if InMemory(b) then b.last - b.pos else b.fileLast - b.filePos
  }

  predicate GoodBuf(files: Files, b: Buf) {
    && b.pos <= b.last <= |b.mem| && b.filePos <= b.fileLast
    && (b.inFile ==> b.file in files && b.fileLast <= |files[b.file]|)
    && (!b.inFile && !InMemory(b) ==> b.filePos == b.fileLast)
  }

  /** The data of a buffer. */
  function Bytes(files: Files, b: Buf): (data: seq<Byte>)
    requires GoodBuf(files, b)
    ensures |data| == Size(b)
  {
    if InMemory(b) then b.mem[b.pos..b.last]
    else if b.inFile then files[b.file][b.filePos..b.fileLast]
    else []
  }

  ghost predicate GoodChain(files: Files, t: Table, chain: seq<Id>) {
    forall k :: 0 <= k < |chain| ==> chain[k] in t && GoodBuf(files, t[chain[k]])
  }

  /** The data of a chain, in order. */
  ghost function Flow(files: Files, t: Table, chain: seq<Id>): seq<Byte>
    requires GoodChain(files, t, chain)
  {
    if chain == [] then []
    else
      assert forall k :: 0 <= k < |chain| - 1 ==> chain[1..][k] == chain[k + 1];
      assert chain[0] in t;
      Bytes(files, t[chain[0]]) + Flow(files, t, chain[1..])
  }

  lemma {:induction false} FlowAppend(files: Files, t: Table, a: seq<Id>, b: seq<Id>)
    requires GoodChain(files, t, a) && GoodChain(files, t, b)
    ensures GoodChain(files, t, a + b) && Flow(files, t, a + b) == Flow(files, t, a) + Flow(files, t, b)
    decreases |a|
  {
    GoodAppend(files, t, a, b);
    if a == [] {
      assert a + b == b;
    } else {
      hide Flow, GoodChain, GoodBuf, Bytes;
      FlowUnfold(files, t, a);
      FlowAppend(files, t, a[1..], b);
      HeadAndTail(a, b);
      FlowUnfold(files, t, a + b);
      Associative(Bytes(files, t[a[0]]), Flow(files, t, a[1..]), Flow(files, t, b));
    }
  }

  lemma FlowUnfold(files: Files, t: Table, a: seq<Id>)
    requires GoodChain(files, t, a) && a != []
    ensures a[0] in t && GoodBuf(files, t[a[0]]) && GoodChain(files, t, a[1..])
    ensures Flow(files, t, a) == Bytes(files, t[a[0]]) + Flow(files, t, a[1..])
  {
    GoodTail(files, t, a);
  }

  lemma HeadAndTail(a: seq<Id>, b: seq<Id>)
    requires a != []
    ensures (a + b)[0] == a[0] && (a + b)[1..] == a[1..] + b
  {
  }

  lemma Associative(x: seq<Byte>, y: seq<Byte>, z: seq<Byte>)
    ensures (x + y) + z == x + (y + z)
  {
  }

  lemma GoodAppend(files: Files, t: Table, a: seq<Id>, b: seq<Id>)
    requires GoodChain(files, t, a) && GoodChain(files, t, b)
    ensures GoodChain(files, t, a + b)
  {
  }

  lemma GoodTail(files: Files, t: Table, a: seq<Id>)
    requires GoodChain(files, t, a) && a != []
    ensures a[0] in t && GoodBuf(files, t[a[0]]) && GoodChain(files, t, a[1..])
  {
    assert forall k :: 0 <= k < |a| - 1 ==> a[1..][k] == a[k + 1];
  }

  lemma FlowFirst(files: Files, t: Table, chain: seq<Id>, rest: seq<Id>)
    requires chain != [] && chain == [chain[0]] + rest
    requires GoodChain(files, t, rest) && chain[0] in t && GoodBuf(files, t[chain[0]])
    ensures GoodChain(files, t, chain)
    ensures Flow(files, t, chain) == Bytes(files, t[chain[0]]) + Flow(files, t, rest)
  {
    assert chain[1..] == rest;
    forall k | 0 <= k < |chain| ensures chain[k] in t && GoodBuf(files, t[chain[k]]) {
      if k > 0 { assert chain[k] == rest[k - 1]; }
    }
  }

  lemma FlowOne(files: Files, t: Table, id: Id)
    requires id in t && GoodBuf(files, t[id])
    ensures GoodChain(files, t, [id]) && Flow(files, t, [id]) == Bytes(files, t[id])
  {
    assert [id][1..] == [];
    assert Flow(files, t, []) == [];
  }

  lemma {:induction false} FlowSplit(files: Files, t: Table, chain: seq<Id>, k: nat)
    requires GoodChain(files, t, chain) && k <= |chain|
    ensures GoodChain(files, t, chain[..k]) && GoodChain(files, t, chain[k..])
    ensures Flow(files, t, chain) == Flow(files, t, chain[..k]) + Flow(files, t, chain[k..])
  {
    assert chain == chain[..k] + chain[k..];
    FlowAppend(files, t, chain[..k], chain[k..]);
  }

  /** Buffers outside a chain do not matter to it. */
  lemma {:induction false} FlowSame(files: Files, t: Table, u: Table, chain: seq<Id>)
    requires GoodChain(files, t, chain)
    requires forall k :: 0 <= k < |chain| ==> chain[k] in u && u[chain[k]] == t[chain[k]]
    ensures GoodChain(files, u, chain) && Flow(files, u, chain) == Flow(files, t, chain)
    decreases |chain|
  {
    if chain != [] {
      var c := chain[1..];
      assert forall k :: 0 <= k < |c| ==> c[k] == chain[k + 1];
      FlowSame(files, t, u, c);
    }
  }

  /** n bytes of the buffer have been sent. */
  function Advanced(b: Buf, n: nat): Buf {
    b.(pos := if InMemory(b) then b.pos + n else b.pos, filePos := if b.inFile then b.filePos + n else b.filePos)
  }

  /** All of the buffer has been sent. */
  function Drained(b: Buf): Buf {
    b.(pos := if InMemory(b) then b.last else b.pos, filePos := if b.inFile then b.fileLast else b.filePos)
  }

  /** A buffer that is in memory and in a file holds the same number of bytes in both. */
  predicate Matched(b: Buf) {
    InMemory(b) && b.inFile ==> b.last - b.pos == b.fileLast - b.filePos
  }

  lemma AdvancedBytes(files: Files, b: Buf, n: nat)
    requires GoodBuf(files, b) && Matched(b) && n <= Size(b)
    ensures GoodBuf(files, Advanced(b, n)) && Matched(Advanced(b, n))
    ensures Bytes(files, Advanced(b, n)) == Bytes(files, b)[n..]
  {
  }

  lemma DrainedBytes(files: Files, b: Buf)
    requires GoodBuf(files, b) && Matched(b)
    ensures GoodBuf(files, Drained(b)) && Matched(Drained(b)) && Size(Drained(b)) == 0
    ensures Bytes(files, Drained(b)) == []
  {
  }

  ghost predicate AllMatched(t: Table, chain: seq<Id>) {
    forall k :: 0 <= k < |chain| && chain[k] in t ==> Matched(t[chain[k]])
  }

  /** Nothing but how much has been sent differs. */
  predicate SameButSent(b: Buf, c: Buf) {
    b == c.(pos := b.pos, filePos := b.filePos) && b.pos >= c.pos && b.filePos >= c.filePos
  }

  ghost predicate OnlySent(t: Table, u: Table, chain: seq<Id>) {
    && u.Keys == t.Keys
    && (forall id :: id in t && id !in chain ==> u[id] == t[id])
    && (forall id :: id in t ==> SameButSent(u[id], t[id]))
  }

  /** In the middle of `UpdateSent`: everything before k is empty, and `left` bytes remain to be marked. */
  ghost predicate Marking(files: Files, t: Table, u: Table, chain: seq<Id>, sent: nat, k: nat, left: nat)
    requires GoodChain(files, t, chain) && sent <= |Flow(files, t, chain)|
  {
    && k <= |chain| && OnlySent(t, u, chain) && GoodChain(files, u, chain) && AllMatched(u, chain)
    && (forall j :: 0 <= j < k ==> Size(u[chain[j]]) == 0)
    && (forall j :: k <= j < |chain| ==> u[chain[j]] == t[chain[j]])
    && GoodChain(files, u, chain[k..])
    && left <= |Flow(files, u, chain[k..])|
    && Flow(files, t, chain)[sent..] == Flow(files, u, chain[k..])[left..]
  }

  lemma DropTwice(a: seq<Byte>, b: seq<Byte>, n: nat)
    requires n <= |a|
    ensures (a + b)[n..] == a[n..] + b
  {
  }

  lemma {:induction false} TailStep(files: Files, u: Table, chain: seq<Id>, k: nat)
    requires k < |chain| && GoodChain(files, u, chain[k..])
    ensures chain[k] in u && GoodBuf(files, u[chain[k]]) && GoodChain(files, u, chain[k + 1..])
    ensures Flow(files, u, chain[k..]) == Bytes(files, u[chain[k]]) + Flow(files, u, chain[k + 1..])
  {
    assert chain[k..][0] == chain[k] && chain[k..][1..] == chain[k + 1..];
  }

  lemma GoodPut(files: Files, u: Table, chain: seq<Id>, id: Id, b: Buf)
    requires GoodChain(files, u, chain) && AllMatched(u, chain) && GoodBuf(files, b) && Matched(b)
    ensures GoodChain(files, u[id := b], chain) && AllMatched(u[id := b], chain)
  {
  }

  lemma OnlySentPut(t: Table, u: Table, chain: seq<Id>, id: Id, b: Buf)
    requires OnlySent(t, u, chain) && id in chain && id in t && SameButSent(b, u[id])
    ensures OnlySent(t, u[id := b], chain)
  {
  }

  /** What follows a buffer does not change with it. */
  lemma {:induction false} TailSame(files: Files, u: Table, chain: seq<Id>, k: nat, b: Buf)
    requires k < |chain| && Distinct(chain) && GoodChain(files, u, chain[k + 1..])
    ensures var v := u[chain[k] := b];
      GoodChain(files, v, chain[k + 1..]) && Flow(files, v, chain[k + 1..]) == Flow(files, u, chain[k + 1..])
  {
    var v, tail := u[chain[k] := b], chain[k + 1..];
    assert forall j :: 0 <= j < |tail| ==> tail[j] == chain[k + 1 + j];
    FlowSame(files, u, v, tail);
  }

  /** Passes a buffer, which is empty afterwards. */
  lemma {:induction false} PassWhole(files: Files, t: Table, u: Table, chain: seq<Id>, sent: nat, k: nat, left: nat)
    requires GoodChain(files, t, chain) && Distinct(chain) && sent <= |Flow(files, t, chain)|
    requires Marking(files, t, u, chain, sent, k, left) && k < |chain| && chain[k] in u
    requires left >= Size(u[chain[k]]) >= 0
    ensures Marking(files, t, u[chain[k] := Drained(u[chain[k]])], chain, sent, k + 1, left - Size(u[chain[k]]))
  {
    var id := chain[k];
    var v := u[id := Drained(u[id])];
    AtMark(files, t, u, chain, sent, k, left);
    hide Flow, OnlySent, GoodChain, AllMatched, GoodBuf, Matched, Distinct, Bytes, Size, Drained;
    TailStep(files, u, chain, k);
    DrainedBytes(files, u[id]);
    GoodPut(files, u, chain, id, Drained(u[id]));
    OnlySentPut(t, u, chain, id, Drained(u[id]));
    TailSame(files, u, chain, k, v[id]);
    DropMore(Bytes(files, u[id]), Flow(files, u, chain[k + 1..]), left);
    Elsewhere(u, chain, k, v[id]);
  }

  /** The buffer at the mark has not been touched. */
  lemma AtMark(files: Files, t: Table, u: Table, chain: seq<Id>, sent: nat, k: nat, left: nat)
    requires GoodChain(files, t, chain) && sent <= |Flow(files, t, chain)|
    requires Marking(files, t, u, chain, sent, k, left) && k < |chain|
    ensures var id := chain[k];
      && id in chain && id in t && id in u && u[id] == t[id] && Matched(u[id])
      && SameButSent(Drained(u[id]), u[id])
  {
    hide Flow;
  }

  lemma Elsewhere(u: Table, chain: seq<Id>, k: nat, b: Buf)
    requires Distinct(chain) && k < |chain| && chain[k] in u && forall j :: 0 <= j < |chain| ==> chain[j] in u
    ensures forall j :: 0 <= j < |chain| && j != k ==> u[chain[k] := b][chain[j]] == u[chain[j]]
  {
  }

  lemma DropMore(a: seq<Byte>, b: seq<Byte>, n: nat)
    requires |a| <= n <= |a| + |b|
    ensures (a + b)[n..] == b[n - |a|..]
  {
  }

  /** Ends inside a buffer. */
  lemma {:induction false} PassPart(files: Files, t: Table, u: Table, chain: seq<Id>, sent: nat, k: nat, left: nat)
    requires GoodChain(files, t, chain) && Distinct(chain) && sent <= |Flow(files, t, chain)|
    requires Marking(files, t, u, chain, sent, k, left) && k < |chain| && chain[k] in u && left < Size(u[chain[k]])
    ensures var v := u[chain[k] := Advanced(u[chain[k]], left)];
      && OnlySent(t, v, chain) && GoodChain(files, v, chain) && AllMatched(v, chain) && GoodChain(files, v, chain[k..])
      && Flow(files, t, chain)[sent..] == Flow(files, v, chain[k..])
  {
    var id := chain[k];
    var v := u[id := Advanced(u[id], left)];
    TailStep(files, u, chain, k);
    assert id in chain && u[id] == t[id] && id in t;
    AdvancedBytes(files, u[id], left);
    GoodPut(files, u, chain, id, Advanced(u[id], left));
    OnlySentPut(t, u, chain, id, Advanced(u[id], left));
    TailSame(files, u, chain, k, v[id]);
    hide Flow, Advanced, OnlySent;
    FlowSplit(files, v, chain, k);
    TailStep(files, v, chain, k);
    DropTwice(Bytes(files, u[id]), Flow(files, u, chain[k + 1..]), left);
  }

  lemma MarkingStart(files: Files, t: Table, chain: seq<Id>, sent: nat)
    requires GoodChain(files, t, chain) && AllMatched(t, chain) && sent <= |Flow(files, t, chain)|
    ensures Marking(files, t, t, chain, sent, 0, sent)
  {
    assert chain[0..] == chain;
  }

  lemma MarkingFacts(files: Files, t: Table, u: Table, chain: seq<Id>, sent: nat, k: nat, left: nat)
    requires GoodChain(files, t, chain) && sent <= |Flow(files, t, chain)| && Marking(files, t, u, chain, sent, k, left)
    ensures k < |chain| ==> chain[k] in u && GoodBuf(files, u[chain[k]]) && u[chain[k]] == t[chain[k]]
    ensures forall j :: 0 <= j < k ==> Size(u[chain[j]]) == 0
    ensures forall j :: k <= j < |chain| ==> u[chain[j]] == t[chain[j]]
    ensures OnlySent(t, u, chain) && GoodChain(files, u, chain) && AllMatched(u, chain)
    ensures GoodChain(files, u, chain[k..]) && (k == |chain| ==> left == 0)
    ensures left <= |Flow(files, u, chain[k..])| && Flow(files, t, chain)[sent..] == Flow(files, u, chain[k..])[left..]
  {
  }

  lemma SpecialPass(files: Files, b: Buf)
    requires GoodBuf(files, b) && Special(b)
    ensures Size(b) == 0 && Drained(b) == b
  {
  }

  /** Marks the first `sent` bytes of a chain as sent, and returns what is left to send. */
  method UpdateSent(ghost files: Files, t: Table, chain: seq<Id>, sent: nat) returns (u: Table, k: nat)
    requires GoodChain(files, t, chain) && Distinct(chain) && AllMatched(t, chain)
    requires sent <= |Flow(files, t, chain)|
    ensures k <= |chain| && OnlySent(t, u, chain) && GoodChain(files, u, chain) && AllMatched(u, chain)
    ensures GoodChain(files, u, chain[k..])
    ensures Flow(files, u, chain[k..]) == Flow(files, t, chain)[sent..]
    ensures forall j :: 0 <= j < k ==> Size(u[chain[j]]) == 0
    ensures forall j :: k < j < |chain| ==> u[chain[j]] == t[chain[j]]
    ensures k < |chain| ==> !Special(u[chain[k]]) && (Size(t[chain[k]]) > 0 ==> Size(u[chain[k]]) > 0)
  {
    hide Flow, GoodChain, OnlySent, AllMatched, Marking, Drained, Advanced;
    u, k := t, 0;
    var left: nat := sent;
    MarkingStart(files, t, chain, sent);
    while k < |chain|
      invariant k <= |chain| && Marking(files, t, u, chain, sent, k, left)
    {
      MarkingFacts(files, t, u, chain, sent, k, left);
      var id := chain[k];
      if Special(u[id]) {
        SpecialPass(files, u[id]);
        PassWhole(files, t, u, chain, sent, k, left);
        assert u[id := Drained(u[id])] == u;
        k := k + 1;
        continue;
      }
      if left == 0 { break; }
      if left >= Size(u[id]) {
        PassWhole(files, t, u, chain, sent, k, left);
        left := left - Size(u[id]);
        u := u[id := Drained(u[id])];
        k := k + 1;
        continue;
      }
      PassPart(files, t, u, chain, sent, k, left);
      AdvancedSize(u[id], left);
      u := u[id := Advanced(u[id], left)];
      return;
    }
    MarkingFacts(files, t, u, chain, sent, k, left);
  }

  lemma AdvancedSize(b: Buf, n: nat)
    requires n < Size(b)
    ensures Special(Advanced(b, n)) == Special(b) && (InMemory(b) || b.inFile ==> Size(Advanced(b, n)) == Size(b) - n)
    ensures !InMemory(b) && !b.inFile ==> Advanced(b, n) == b
  {
  }

  /** The end of the page that x lies in, x itself at the end of a page. */
  function PageEnd(x: nat, page: nat): nat
    requires page > 0
  {
    (x + page - 1) / page * page
  }

  lemma PageEndIs(x: nat, page: nat)
    requires page > 0
    ensures x <= PageEnd(x, page) < x + page && PageEnd(x, page) % page == 0
  {
    var y := x + page - 1;
    assert y == y / page * page + y % page;
    ModTimes(y / page, page);
  }

  /** Do the first k buffers of the chain lie one behind the other in one file? */
  ghost predicate OneRange(t: Table, chain: seq<Id>, k: nat) {
    && 0 < k <= |chain| && (forall j :: 0 <= j < k ==> chain[j] in t)
    && (forall j :: 0 <= j < k ==> t[chain[j]].inFile && t[chain[j]].file == t[chain[0]].file)
    && (forall j :: 0 < j < k ==> t[chain[j - 1]].fileLast == t[chain[j]].filePos)
  }

  /** Joins buffers into one range of a file, of about `limit` bytes; only the last buffer may be taken in part,
      and only if that reaches the limit. */
  method CoalesceFile(ghost files: Files, t: Table, chain: seq<Id>, limit: nat, page: nat) returns (total: nat, k: nat)
    requires GoodChain(files, t, chain) && chain != [] && t[chain[0]].inFile && page > 0
    ensures OneRange(t, chain, k) && total < limit + page
    ensures t[chain[k - 1]].filePos <= t[chain[0]].filePos + total <= t[chain[k - 1]].fileLast
    ensures t[chain[0]].filePos + total < t[chain[k - 1]].fileLast ==> total >= limit
    ensures k < |chain| && total < limit ==> !OneRange(t, chain, k + 1)
  {
    var fd := t[chain[0]].file;
    total, k := 0, 0;
    var more := true;
    while more
      invariant more ==> k < |chain| && t[chain[k]].inFile && t[chain[k]].file == fd
      invariant more ==> k == 0 || total < limit
      invariant more ==> t[chain[0]].filePos + total == t[chain[k]].filePos
      invariant k == 0 ==> total == 0 && more
      invariant k > 0 ==> OneRange(t, chain, k) && total < limit + page
      invariant more && k > 0 ==> t[chain[k - 1]].fileLast == t[chain[k]].filePos
      invariant !more ==>
        && t[chain[k - 1]].filePos <= t[chain[0]].filePos + total <= t[chain[k - 1]].fileLast
        && (t[chain[0]].filePos + total < t[chain[k - 1]].fileLast ==> total >= limit)
        && (k < |chain| && total < limit ==> !OneRange(t, chain, k + 1))
      decreases |chain| - k, more
    {
      var b := t[chain[k]];
      var size := b.fileLast - b.filePos;
      if size > limit - total {
        size := limit - total;
        PageEndIs(b.filePos + size, page);
        var aligned := PageEnd(b.filePos + size, page);
        if aligned <= b.fileLast {
          size := aligned - b.filePos;
        }
      }
      total := total + size;
      var next := b.filePos + size;
      k := k + 1;
      more := k < |chain| && t[chain[k]].inFile && total < limit && t[chain[k]].file == fd
              && next == t[chain[k]].filePos;
    }
  }

  /** The bytes of the first k buffers, as they lie in the file. */
  ghost function FileFlow(files: Files, t: Table, chain: seq<Id>, k: nat): seq<Byte>
    requires k <= |chain| && GoodChain(files, t, chain) && forall j :: 0 <= j < k ==> t[chain[j]].inFile
  {
    if k == 0 then []
    else
      var b := t[chain[k - 1]];
      FileFlow(files, t, chain, k - 1) + files[b.file][b.filePos..b.fileLast]
  }

  /** One range of the file holds the bytes of those buffers, in order. */
  lemma {:induction false} RangeIsFlow(files: Files, t: Table, chain: seq<Id>, k: nat)
    requires GoodChain(files, t, chain) && OneRange(t, chain, k)
    ensures t[chain[0]].filePos <= t[chain[k - 1]].fileLast <= |files[t[chain[0]].file]|
    ensures files[t[chain[0]].file][t[chain[0]].filePos..t[chain[k - 1]].fileLast] == FileFlow(files, t, chain, k)
  {
    var f := files[t[chain[0]].file];
    if k == 1 {
      assert FileFlow(files, t, chain, 0) == [];
    } else {
      RangeIsFlow(files, t, chain, k - 1);
      var a, m, e := t[chain[0]].filePos, t[chain[k - 2]].fileLast, t[chain[k - 1]].fileLast;
      assert t[chain[k - 1]].filePos == m;
      assert f[a..m] + f[m..e] == f[a..e];
    }
  }

  /** The number of bytes in a chain from link k on. */
  function Total(t: Table, chain: seq<Id>, k: nat): int
    requires k <= |chain|
    decreases |chain| - k
  {
    if k == |chain| then 0 else (if chain[k] in t then Size(t[chain[k]]) else 0) + Total(t, chain, k + 1)
  }

  lemma {:induction false} TotalIsFlow(files: Files, t: Table, chain: seq<Id>, k: nat)
    requires GoodChain(files, t, chain) && k <= |chain|
    ensures GoodChain(files, t, chain[k..]) && Total(t, chain, k) == |Flow(files, t, chain[k..])|
    decreases |chain| - k
  {
    FlowSplit(files, t, chain, k);
    if k < |chain| {
      TotalIsFlow(files, t, chain, k + 1);
      TailStep(files, t, chain, k);
    }
  }

  lemma WholeTotal(files: Files, t: Table, chain: seq<Id>)
    requires GoodChain(files, t, chain)
    ensures Total(t, chain, 0) == |Flow(files, t, chain)|
  {
    TotalIsFlow(files, t, chain, 0);
    assert chain[0..] == chain;
  }
}
