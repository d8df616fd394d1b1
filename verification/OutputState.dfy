/** The state of an output chain: what waits, what has been made ready, and who holds which buffer. */
module OutputState {
  import opened Common
  import opened Bufs

  /** `input` waits; `out` is ready to go down; `down` is what the next filter holds; `busy` is what has gone down and
      has not come back; `free` can be used again. `wire` is what the next filter has got rid of. */
  datatype State = State(t: Table, input: seq<Id>, out: seq<Id>, free: seq<Id>, busy: seq<Id>,
                         down: seq<Id>, wire: seq<Byte>)

  /** Everything that still has to be sent, in order. */
  function All(s: State): seq<Id> {
    s.down + s.out + s.input
  }

  ghost predicate Lined(files: Files, s: State) {
    GoodChain(files, s.t, All(s)) && Distinct(All(s)) && AllMatched(s.t, All(s))
  }

  predicate Has(t: Table, id: Id, tag: int) {
    id in t && t[id].tag == tag
  }

  /** A buffer of the pool. */
  predicate PoolBuf(files: Files, b: Buf) {
    b.temporary && |b.mem| > 0 && GoodBuf(files, b)
  }

  predicate IdleBuf(files: Files, b: Buf) {
    PoolBuf(files, b) && b.pos == 0 && b.last == 0
  }

  /** Pool buffers never wait for input, and those on their way hold data. */
  ghost predicate Marked(files: Files, s: State, tag: int) {
    && NONE !in s.t
    && (forall id :: Has(s.t, id, tag) ==> PoolBuf(files, s.t[id]))
    && (forall id :: id in s.input ==> !Has(s.t, id, tag))
    && (forall id :: id in s.down || id in s.out ==> Has(s.t, id, tag) ==> Size(s.t[id]) > 0)
  }

  /** Free buffers are pool buffers without data that nobody else has. */
  ghost predicate FreeOk(files: Files, s: State, tag: int, cur: Id) {
    && Distinct(s.free)
    && (forall id :: id in s.free ==> Has(s.t, id, tag) && IdleBuf(files, s.t[id]))
    && (forall id :: id in s.free ==> id !in s.down && id !in s.out && id !in s.busy && id != cur)
  }

  ghost predicate BusyOk(files: Files, s: State, tag: int, cur: Id) {
    && (forall id :: id in s.busy ==> id in s.t && GoodBuf(files, s.t[id]))
    && (forall id :: id in s.busy && Has(s.t, id, tag) ==> id !in s.out && id != cur)
    && (forall i, j :: 0 <= i < j < |s.busy| && s.busy[i] == s.busy[j] ==> !Has(s.t, s.busy[i], tag))
    && (forall id :: id in s.down && Has(s.t, id, tag) ==> id in s.busy)
  }

  /** Every pool buffer is somewhere. */
  ghost predicate Covered(s: State, tag: int, cur: Id) {
    forall id :: Has(s.t, id, tag) ==> id == cur || id in s.free || id in s.busy || id in s.out
  }

  /** The buffer being filled: empty, and nobody else's. */
  ghost predicate CurOk(files: Files, s: State, cur: Id) {
    cur != NONE ==>
      && cur in s.t && IdleBuf(files, s.t[cur]) && cur !in s.down && cur !in s.out && cur !in s.input
      && cur !in s.free && cur !in s.busy
  }

  ghost predicate Inv(files: Files, s: State, tag: int, cur: Id) {
    && Lined(files, s) && Marked(files, s, tag) && FreeOk(files, s, tag, cur) && BusyOk(files, s, tag, cur)
    && Covered(s, tag, cur) && CurOk(files, s, cur)
  }

  /** All bytes that ever came in, as far as they are not lost: sent, on their way, or waiting. */
  ghost function Sum(files: Files, s: State): seq<Byte>
    requires Lined(files, s)
  {
    s.wire + Flow(files, s.t, All(s))
  }

  /** How much work is waiting: bytes and links. */
  function Work(t: Table, chain: seq<Id>): nat {
    if chain == [] then 0
    else (if chain[0] in t && Size(t[chain[0]]) > 0 then Size(t[chain[0]]) else 0) + 1 + Work(t, chain[1..])
  }

  // Dropping an empty buffer.

  function Dropped(s: State): State
    requires s.input != []
  {
    s.(input := s.input[1..])
  }

  lemma DistinctCut(a: seq<Id>, x: Id, b: seq<Id>)
    requires Distinct(a + [x] + b)
    ensures Distinct(a + b) && x !in a && x !in b
  {
    var l := a + [x] + b;
    forall i | 0 <= i < |a| ensures a[i] != x { assert l[i] == a[i] && l[|a|] == x; }
    forall j | 0 <= j < |b| ensures b[j] != x { assert l[|a| + 1 + j] == b[j] && l[|a|] == x; }
    forall i, j | 0 <= i < j < |a + b| ensures (a + b)[i] != (a + b)[j] {
      var i', j' := if i < |a| then i else i + 1, if j < |a| then j else j + 1;
      assert l[i'] == (a + b)[i] && l[j'] == (a + b)[j];
    }
  }

  lemma GoodSub(files: Files, t: Table, a: seq<Id>, b: seq<Id>)
    requires GoodChain(files, t, a) && AllMatched(t, a) && forall id :: id in b ==> id in a
    ensures GoodChain(files, t, b) && AllMatched(t, b)
  {
    forall k | 0 <= k < |b| ensures b[k] in t && GoodBuf(files, t[b[k]]) && Matched(t[b[k]]) {
      var id := b[k];
      assert id in b;
      assert id in a;
      var j :| 0 <= j < |a| && a[j] == b[k];
    }
  }

  lemma {:induction false} FlowParts(files: Files, t: Table, a: seq<Id>, x: Id, b: seq<Id>)
    requires GoodChain(files, t, a + [x] + b) && AllMatched(t, a + [x] + b)
    ensures GoodChain(files, t, a) && GoodChain(files, t, b) && x in t && GoodBuf(files, t[x])
    ensures GoodChain(files, t, a + b) && Flow(files, t, a + b) == Flow(files, t, a) + Flow(files, t, b)
    ensures Flow(files, t, a + [x] + b) == Flow(files, t, a) + (Bytes(files, t[x]) + Flow(files, t, b))
  {
    GoodSub(files, t, a + [x] + b, a);
    GoodSub(files, t, a + [x] + b, b);
    GoodSub(files, t, a + [x] + b, [x]);
    assert [x][0] in t;
    hide Flow, GoodChain, AllMatched;
    FlowOne(files, t, x);
    FlowAppend(files, t, a, b);
    FlowAppend(files, t, a, [x]);
    FlowAppend(files, t, a + [x], b);
    Associative(Flow(files, t, a), Bytes(files, t[x]), Flow(files, t, b));
  }

  lemma {:induction false} DropLined(files: Files, s: State)
    requires Lined(files, s) && s.input != []
    requires s.input[0] in s.t && Size(s.t[s.input[0]]) == 0
    ensures Lined(files, Dropped(s)) && Sum(files, Dropped(s)) == Sum(files, s)
  {
    var d := Dropped(s);
    var a, x, b := s.down + s.out, s.input[0], s.input[1..];
    assert All(s) == a + [x] + b && All(d) == a + b;
    hide Flow, GoodChain, AllMatched, Distinct, All;
    DistinctCut(a, x, b);
    GoodSub(files, s.t, a + [x] + b, a + b);
    FlowParts(files, s.t, a, x, b);
    assert Bytes(files, s.t[x]) + Flow(files, s.t, b) == Flow(files, s.t, b);
  }

  lemma DropRest(files: Files, s: State, tag: int)
    requires s.input != []
    requires Marked(files, s, tag) && FreeOk(files, s, tag, NONE) && BusyOk(files, s, tag, NONE)
    requires Covered(s, tag, NONE)
    ensures var d := Dropped(s);
      Marked(files, d, tag) && FreeOk(files, d, tag, NONE) && BusyOk(files, d, tag, NONE) && Covered(d, tag, NONE)
  {
    assert forall id :: id in s.input[1..] ==> id in s.input;
  }

  lemma {:induction false} DropKeeps(files: Files, s: State, tag: int)
    requires Inv(files, s, tag, NONE) && s.input != []
    requires s.input[0] in s.t && Size(s.t[s.input[0]]) == 0
    ensures Inv(files, Dropped(s), tag, NONE) && Sum(files, Dropped(s)) == Sum(files, s)
  {
    hide Lined, Marked, FreeOk, BusyOk, Covered;
    DropLined(files, s);
    DropRest(files, s, tag);
  }

  // Passing a buffer on as it is.

  function Passed(s: State, b: Buf): State
    requires s.input != []
  {
    s.(t := s.t[s.input[0] := b], input := s.input[1..], out := s.out + [s.input[0]])
  }

  /** A buffer that only forgets that it is in a file as well. */
  predicate SameData(files: Files, b: Buf, c: Buf) {
    && GoodBuf(files, b) && GoodBuf(files, c) && Matched(c) && c.tag == b.tag && Size(c) == Size(b)
    && Bytes(files, c) == Bytes(files, b)
  }

  lemma {:induction false} PutSameData(files: Files, t: Table, a: seq<Id>, x: Id, b: seq<Id>, c: Buf)
    requires GoodChain(files, t, a + [x] + b) && AllMatched(t, a + [x] + b) && Distinct(a + [x] + b)
    requires x in t && SameData(files, t[x], c)
    ensures var u := t[x := c];
      && GoodChain(files, u, a + [x] + b) && AllMatched(u, a + [x] + b)
      && Flow(files, u, a + [x] + b) == Flow(files, t, a + [x] + b)
  {
    var u := t[x := c];
    GoodPut(files, t, a + [x] + b, x, c);
    DistinctCut(a, x, b);
    FlowParts(files, t, a, x, b);
    FlowParts(files, u, a, x, b);
    assert forall k :: 0 <= k < |a| ==> a[k] in a;
    assert forall k :: 0 <= k < |b| ==> b[k] in b;
    FlowSame(files, t, u, a);
    FlowSame(files, t, u, b);
  }

  lemma {:induction false} PassLined(files: Files, s: State, c: Buf)
    requires Lined(files, s) && s.input != [] && s.input[0] in s.t && SameData(files, s.t[s.input[0]], c)
    ensures Lined(files, Passed(s, c)) && Sum(files, Passed(s, c)) == Sum(files, s)
  {
    var d := Passed(s, c);
    var a, x, b := s.down + s.out, s.input[0], s.input[1..];
    assert All(s) == a + [x] + b;
    assert All(d) == a + [x] + b;
    PutSameData(files, s.t, a, x, b, c);
  }

  lemma PassRest(files: Files, s: State, tag: int, c: Buf)
    requires s.input != [] && s.input[0] in s.t && SameData(files, s.t[s.input[0]], c)
    requires Marked(files, s, tag) && FreeOk(files, s, tag, NONE) && BusyOk(files, s, tag, NONE)
    requires Covered(s, tag, NONE)
    requires s.input[0] !in s.free
    ensures var d := Passed(s, c);
      Marked(files, d, tag) && FreeOk(files, d, tag, NONE) && BusyOk(files, d, tag, NONE) && Covered(d, tag, NONE)
  {
    var x, d := s.input[0], Passed(s, c);
    assert forall id :: id in s.input[1..] ==> id in s.input;
    assert x in s.input && !Has(s.t, x, tag) && !Has(d.t, x, tag);
    assert forall id :: Has(d.t, id, tag) <==> Has(s.t, id, tag);
    assert forall id :: id in d.out <==> id in s.out || id == x;
  }

  lemma {:induction false} PassKeeps(files: Files, s: State, tag: int, c: Buf)
    requires Inv(files, s, tag, NONE) && s.input != []
    requires s.input[0] in s.t && SameData(files, s.t[s.input[0]], c)
    ensures Inv(files, Passed(s, c), tag, NONE) && Sum(files, Passed(s, c)) == Sum(files, s)
  {
    InputNotFree(files, s, tag, s.input[0]);
    hide Lined, Marked, FreeOk, BusyOk, Covered, SameData;
    PassLined(files, s, c);
    PassRest(files, s, tag, c);
  }

  lemma InputNotFree(files: Files, s: State, tag: int, id: Id)
    requires Marked(files, s, tag) && FreeOk(files, s, tag, NONE) && id in s.input
    ensures id !in s.free && !Has(s.t, id, tag)
  {
  }

  // Copying from the first buffer into `cur`.

  function Copied(s: State, cur: Id, src: Buf, dst: Buf): State
    requires s.input != []
  {
    s.(t := s.t[s.input[0] := src][cur := dst], out := s.out + [cur],
       input := if Size(src) == 0 then s.input[1..] else s.input)
  }

  /** A fragment has gone from `b` to `dst`; `src` is what is left of `b`. */
  predicate Fragment(files: Files, b: Buf, src: Buf, dst: Buf) {
    && GoodBuf(files, b) && GoodBuf(files, src) && GoodBuf(files, dst) && Matched(src) && Matched(dst)
    && src.tag == b.tag && Size(dst) > 0 && Bytes(files, b) == Bytes(files, dst) + Bytes(files, src)
  }

  lemma DistinctInsert(a: seq<Id>, y: Id, b: seq<Id>)
    requires Distinct(a + b) && y !in a && y !in b
    ensures Distinct(a + [y] + b)
  {
    var l := a + [y] + b;
    forall i, j | 0 <= i < j < |l| ensures l[i] != l[j] {
      if i != |a| && j != |a| {
        var i', j' := if i < |a| then i else i - 1, if j < |a| then j else j - 1;
        assert (a + b)[i'] == l[i] && (a + b)[j'] == l[j];
      } else if i == |a| {
        assert l[j] == b[j - |a| - 1];
      } else {
        assert l[i] == a[i];
      }
    }
  }

  /** A new buffer in the middle of a chain. */
  lemma {:induction false} FlowInsert(files: Files, t: Table, a: seq<Id>, y: Id, b: seq<Id>, c: Buf)
    requires GoodChain(files, t, a + b) && AllMatched(t, a + b) && Distinct(a + b) && y !in a && y !in b
    requires GoodChain(files, t, a) && GoodChain(files, t, b) && GoodBuf(files, c) && Matched(c)
    ensures var u := t[y := c];
      && GoodChain(files, u, a + [y] + b) && AllMatched(u, a + [y] + b) && Distinct(a + [y] + b)
      && Flow(files, u, a + [y] + b) == Flow(files, t, a) + (Bytes(files, c) + Flow(files, t, b))
  {
    hide Flow, GoodChain, AllMatched, Distinct, GoodBuf, Matched, Bytes;
    var u := t[y := c];
    DistinctInsert(a, y, b);
    GoodInsert(files, t, a, y, b, c);
    FlowParts(files, u, a, y, b);
    FlowSame(files, t, u, a) by { assert forall k :: 0 <= k < |a| ==> a[k] in a; InTable(files, t, a); }
    FlowSame(files, t, u, b) by { assert forall k :: 0 <= k < |b| ==> b[k] in b; InTable(files, t, b); }
  }

  lemma InTable(files: Files, t: Table, a: seq<Id>)
    requires GoodChain(files, t, a)
    ensures forall k :: 0 <= k < |a| ==> a[k] in t
  {
  }

  lemma GoodInsert(files: Files, t: Table, a: seq<Id>, y: Id, b: seq<Id>, c: Buf)
    requires GoodChain(files, t, a + b) && AllMatched(t, a + b) && GoodBuf(files, c) && Matched(c)
    ensures GoodChain(files, t[y := c], a + [y] + b) && AllMatched(t[y := c], a + [y] + b)
  {
    hide GoodBuf, Matched;
    var u, l := t[y := c], a + [y] + b;
    forall k | 0 <= k < |l| ensures l[k] in u && GoodBuf(files, u[l[k]]) && Matched(u[l[k]]) {
      if k < |a| {
        assert (a + b)[k] == l[k];
      } else if k > |a| {
        assert (a + b)[k - 1] == l[k];
      }
    }
  }

  lemma {:induction false} CopyLined(files: Files, s: State, cur: Id, src: Buf, dst: Buf)
    requires Lined(files, s) && s.input != [] && s.input[0] in s.t && cur !in All(s)
    requires Fragment(files, s.t[s.input[0]], src, dst)
    ensures Lined(files, Copied(s, cur, src, dst)) && Sum(files, Copied(s, cur, src, dst)) == Sum(files, s)
  {
    var d := Copied(s, cur, src, dst);
    var a, x, b := s.down + s.out, s.input[0], s.input[1..];
    var u, tail := s.t[x := src], if Size(src) == 0 then b else [x] + b;
    hide Flow, GoodChain, AllMatched, Distinct, Fragment, Bytes, All;
    CopyShape(s, cur, src, dst);
    NotInParts(cur, a, x, b);
    FragmentGood(files, s.t[x], src, dst);
    FlowParts(files, s.t, a, x, b);
    CopyTail(files, s.t, u, a, x, b, src);
    DistinctCut(a, x, b);
    GoodPut(files, s.t, a + [x] + b, x, src);
    GoodSub(files, u, a + [x] + b, a + tail);
    FlowInsert(files, u, a, cur, tail, dst);
    CopySum(files, s.wire, Flow(files, s.t, a), s.t[x], src, dst, Flow(files, s.t, b));
  }

  lemma CopyShape(s: State, cur: Id, src: Buf, dst: Buf)
    requires s.input != []
    ensures var a, x, b := s.down + s.out, s.input[0], s.input[1..];
      && All(s) == a + [x] + b && a + ([x] + b) == a + [x] + b
      && All(Copied(s, cur, src, dst)) == a + [cur] + if Size(src) == 0 then b else [x] + b
  {
  }

  lemma FragmentGood(files: Files, b: Buf, src: Buf, dst: Buf)
    requires Fragment(files, b, src, dst)
    ensures GoodBuf(files, src) && Matched(src) && GoodBuf(files, dst) && Matched(dst)
  {
  }

  lemma NotInParts(y: Id, a: seq<Id>, x: Id, b: seq<Id>)
    requires y !in a + [x] + b
    ensures y !in a && y !in [x] && y !in b && y !in [x] + b
  {
    var l := a + [x] + b;
    forall k | 0 <= k < |a| ensures a[k] != y { assert l[k] == a[k]; }
    forall k | 0 <= k < |b| ensures b[k] != y { assert l[|a| + 1 + k] == b[k]; }
    assert l[|a|] == x;
  }

  /** What follows in the chain after the fragment. */
  lemma {:induction false} CopyTail(files: Files, t: Table, u: Table, a: seq<Id>, x: Id, b: seq<Id>, src: Buf)
    requires GoodChain(files, t, a + [x] + b) && AllMatched(t, a + [x] + b) && Distinct(a + [x] + b)
    requires u == t[x := src] && GoodBuf(files, src) && Matched(src)
    ensures GoodChain(files, t, a) && GoodChain(files, t, b) && GoodChain(files, u, a) && GoodChain(files, u, b)
    ensures GoodChain(files, u, [x] + b)
    ensures Flow(files, u, a) == Flow(files, t, a) && Flow(files, u, b) == Flow(files, t, b)
    ensures Flow(files, u, [x] + b) == Bytes(files, src) + Flow(files, t, b)
  {
    GoodPut(files, t, a + [x] + b, x, src);
    DistinctCut(a, x, b);
    FlowParts(files, t, a, x, b);
    FlowParts(files, u, a, x, b);
    assert forall k :: 0 <= k < |a| ==> a[k] in a;
    assert forall k :: 0 <= k < |b| ==> b[k] in b;
    FlowSame(files, t, u, a);
    FlowSame(files, t, u, b);
    FlowFirst(files, u, [x] + b, b);
  }

  lemma CopySum(files: Files, wire: seq<Byte>, f: seq<Byte>, b: Buf, src: Buf, dst: Buf, g: seq<Byte>)
    requires Fragment(files, b, src, dst)
    ensures wire + (f + (Bytes(files, dst) + (Bytes(files, src) + g))) == wire + (f + (Bytes(files, b) + g))
    ensures Size(src) == 0 ==> wire + (f + (Bytes(files, dst) + g)) == wire + (f + (Bytes(files, b) + g))
  {
    Associative(Bytes(files, dst), Bytes(files, src), g);
  }

  lemma CopyRest(files: Files, s: State, tag: int, cur: Id, src: Buf, dst: Buf)
    requires s.input != [] && s.input[0] in s.t && Fragment(files, s.t[s.input[0]], src, dst)
    requires Marked(files, s, tag) && FreeOk(files, s, tag, cur) && BusyOk(files, s, tag, cur) && Covered(s, tag, cur)
    requires cur != NONE && CurOk(files, s, cur) && dst.tag == s.t[cur].tag && PoolBuf(files, dst)
    ensures var d := Copied(s, cur, src, dst);
      && Marked(files, d, tag) && FreeOk(files, d, tag, NONE) && BusyOk(files, d, tag, NONE) && Covered(d, tag, NONE)
      && CurOk(files, d, NONE)
  {
    var x, d := s.input[0], Copied(s, cur, src, dst);
    assert x in s.input && !Has(s.t, x, tag) && !Has(d.t, x, tag);
    assert forall id :: Has(d.t, id, tag) <==> Has(s.t, id, tag);
    assert forall id :: id in d.input ==> id in s.input;
    assert forall id :: id in d.out <==> id in s.out || id == cur;
    assert forall id :: id != cur && id != x && id in s.t ==> d.t[id] == s.t[id];
    assert forall id :: id in s.busy && id == x ==> GoodBuf(files, d.t[id]);
    CopyBusy(files, s, tag, cur, src, dst);
  }

  lemma CopyBusy(files: Files, s: State, tag: int, cur: Id, src: Buf, dst: Buf)
    requires s.input != [] && s.input[0] in s.t && Fragment(files, s.t[s.input[0]], src, dst)
    requires BusyOk(files, s, tag, cur) && CurOk(files, s, cur) && cur != NONE && dst.tag == s.t[cur].tag
    requires !Has(s.t, s.input[0], tag)
    ensures var d := Copied(s, cur, src, dst);
      && (forall id :: id in d.busy ==> id in d.t && GoodBuf(files, d.t[id]))
      && (forall i, j :: 0 <= i < j < |d.busy| && d.busy[i] == d.busy[j] ==> !Has(d.t, d.busy[i], tag))
  {
    var d := Copied(s, cur, src, dst);
    assert forall id :: Has(d.t, id, tag) <==> Has(s.t, id, tag);
  }

  // Handing `out` down.

  function Sent(s: State, u: Table, k: nat, taken: seq<Byte>): State
    requires k <= |s.down + s.out|
  {
    s.(t := u, down := (s.down + s.out)[k..], busy := s.busy + s.out, out := [], wire := s.wire + taken)
  }

  /** What `UpdateSent` has done to the chain that the next filter holds. */
  ghost predicate Taken(files: Files, t: Table, u: Table, chain: seq<Id>, k: nat, sent: nat)
    requires GoodChain(files, t, chain)
  {
    && k <= |chain| && sent <= |Flow(files, t, chain)|
    && OnlySent(t, u, chain) && GoodChain(files, u, chain) && AllMatched(u, chain)
    && GoodChain(files, u, chain[k..]) && Flow(files, u, chain[k..]) == Flow(files, t, chain)[sent..]
    && (forall j :: k < j < |chain| ==> u[chain[j]] == t[chain[j]])
    && (k < |chain| ==> Size(t[chain[k]]) > 0 ==> Size(u[chain[k]]) > 0)
  }

  lemma TwoParts(files: Files, t: Table, a: seq<Id>, b: seq<Id>)
    requires GoodChain(files, t, a + b) && AllMatched(t, a + b) && Distinct(a + b)
    ensures GoodChain(files, t, a) && GoodChain(files, t, b) && AllMatched(t, a) && AllMatched(t, b)
    ensures Distinct(a) && Distinct(b) && forall id :: id in b ==> id !in a
    ensures Flow(files, t, a + b) == Flow(files, t, a) + Flow(files, t, b)
  {
    GoodSub(files, t, a + b, a);
    GoodSub(files, t, a + b, b);
    FlowAppend(files, t, a, b);
    forall i, j | 0 <= i < |a| && 0 <= j < |b| ensures a[i] != b[j] {
      assert (a + b)[i] == a[i] && (a + b)[|a| + j] == b[j];
    }
    forall i, j | 0 <= i < j < |a| ensures a[i] != a[j] {
      assert (a + b)[i] == a[i] && (a + b)[j] == a[j];
    }
    forall i, j | 0 <= i < j < |b| ensures b[i] != b[j] {
      assert (a + b)[|a| + i] == b[i] && (a + b)[|a| + j] == b[j];
    }
  }

  lemma TailDistinct(a: seq<Id>, b: seq<Id>, k: nat)
    requires Distinct(a + b) && k <= |a|
    ensures Distinct(a[k..] + b)
  {
    var l := a[k..] + b;
    forall i, j | 0 <= i < j < |l| ensures l[i] != l[j] {
      assert (a + b)[i + k] == l[i] && (a + b)[j + k] == l[j];
    }
  }

  lemma {:induction false} SentLined(files: Files, s: State, u: Table, k: nat, sent: nat)
    requires Lined(files, s) && s.t.Keys == u.Keys && GoodChain(files, s.t, s.down + s.out)
    requires Taken(files, s.t, u, s.down + s.out, k, sent)
    ensures var d := Sent(s, u, k, Flow(files, s.t, s.down + s.out)[..sent]);
      Lined(files, d) && Sum(files, d) == Sum(files, s)
  {
    var a, b := s.down + s.out, s.input;
    var taken := Flow(files, s.t, a)[..sent];
    var d := Sent(s, u, k, taken);
    hide Flow, Distinct, GoodChain, AllMatched, All;
    SentShape(s, u, k, taken);
    TwoParts(files, s.t, a, b);
    TailDistinct(a, b, k);
    InputUntouched(files, s.t, u, a, b);
    MatchedTail(u, a, k, b);
    FlowAppend(files, u, a[k..], b);
    SentSum(s.wire, Flow(files, s.t, a), sent, Flow(files, s.t, b));
  }

  lemma SentShape(s: State, u: Table, k: nat, taken: seq<Byte>)
    requires k <= |s.down + s.out|
    ensures All(s) == (s.down + s.out) + s.input && All(Sent(s, u, k, taken)) == (s.down + s.out)[k..] + s.input
  {
  }

  lemma SentSum(wire: seq<Byte>, f: seq<Byte>, n: nat, g: seq<Byte>)
    requires n <= |f|
    ensures (wire + f[..n]) + (f[n..] + g) == wire + (f + g)
  {
    assert f[..n] + f[n..] == f;
  }

  lemma InputUntouched(files: Files, t: Table, u: Table, a: seq<Id>, b: seq<Id>)
    requires OnlySent(t, u, a) && GoodChain(files, t, b) && AllMatched(t, b) && forall id :: id in b ==> id !in a
    ensures GoodChain(files, u, b) && AllMatched(u, b) && Flow(files, u, b) == Flow(files, t, b)
    ensures forall id :: id in b ==> id in u && id in t && u[id] == t[id]
  {
    forall k | 0 <= k < |b| ensures b[k] in t && b[k] in u && u[b[k]] == t[b[k]] {
      var id := b[k];
      assert id in b;
      assert id !in a;
    }
    FlowSame(files, t, u, b);
  }

  lemma MatchedTail(u: Table, a: seq<Id>, k: nat, b: seq<Id>)
    requires AllMatched(u, a) && AllMatched(u, b) && k <= |a|
    ensures AllMatched(u, a[k..] + b)
  {
    var l := a[k..] + b;
    forall i | 0 <= i < |l| && l[i] in u ensures Matched(u[l[i]]) {
      if i < |a| - k { assert l[i] == a[i + k]; } else { assert l[i] == b[i - (|a| - k)]; }
    }
  }

  /** What the bookkeeping needs to know about the chain that has been taken. */
  ghost predicate TakenBufs(files: Files, t: Table, u: Table, a: seq<Id>, k: nat) {
    && k <= |a| && OnlySent(t, u, a) && GoodChain(files, t, a) && GoodChain(files, u, a)
    && (forall j :: k < j < |a| ==> u[a[j]] == t[a[j]])
    && (k < |a| ==> Size(t[a[k]]) > 0 ==> Size(u[a[k]]) > 0)
  }

  lemma {:induction false} SentRest(files: Files, s: State, tag: int, u: Table, k: nat, taken: seq<Byte>)
    requires Distinct(All(s)) && TakenBufs(files, s.t, u, s.down + s.out, k)
    requires Marked(files, s, tag) && FreeOk(files, s, tag, NONE) && BusyOk(files, s, tag, NONE)
    requires Covered(s, tag, NONE)
    ensures var d := Sent(s, u, k, taken);
      Marked(files, d, tag) && FreeOk(files, d, tag, NONE) && BusyOk(files, d, tag, NONE) && Covered(d, tag, NONE)
  {
    assert NONE !in s.t;
    SentTags(files, s, u, k, tag);
    hide Marked, BusyOk, FreeOk, Covered, GoodChain, OnlySent, Distinct, TakenBufs;
    SentMarked(files, s, tag, u, k, taken);
    SentBusy(files, s, tag, u, k, taken);
    SentFree(files, s, tag, u, k, taken);
    SentCovered(s, tag, u, k, taken);
  }

  lemma SentCovered(s: State, tag: int, u: Table, k: nat, taken: seq<Byte>)
    requires k <= |s.down + s.out| && Covered(s, tag, NONE)
    requires forall id :: Has(u, id, tag) <==> Has(s.t, id, tag)
    ensures Covered(Sent(s, u, k, taken), tag, NONE)
  {
    var d := Sent(s, u, k, taken);
    forall id | Has(d.t, id, tag) ensures id == NONE || id in d.free || id in d.busy {
      assert Has(s.t, id, tag);
    }
  }

  lemma SentTags(files: Files, s: State, u: Table, k: nat, tag: int)
    requires TakenBufs(files, s.t, u, s.down + s.out, k)
    ensures k <= |s.down + s.out|
    ensures forall id :: Has(u, id, tag) <==> Has(s.t, id, tag)
    ensures forall id :: id in s.t && id !in s.down && id !in s.out ==> id in u && u[id] == s.t[id]
  {
    assert forall id :: id in s.t ==> SameButSent(u[id], s.t[id]);
  }

  lemma SentMarked(files: Files, s: State, tag: int, u: Table, k: nat, taken: seq<Byte>)
    requires TakenBufs(files, s.t, u, s.down + s.out, k)
    requires Marked(files, s, tag) && forall id :: Has(u, id, tag) <==> Has(s.t, id, tag)
    requires forall id :: id in s.t && id !in s.down && id !in s.out ==> id in u && u[id] == s.t[id]
    ensures Marked(files, Sent(s, u, k, taken), tag)
  {
    var a := s.down + s.out;
    forall id | Has(u, id, tag) ensures PoolBuf(files, u[id]) {
      assert PoolBuf(files, s.t[id]) && SameButSent(u[id], s.t[id]);
      if id in a {
        var j :| 0 <= j < |a| && a[j] == id;
      }
    }
    forall id | id in a[k..] && Has(u, id, tag) ensures Size(u[id]) > 0 {
      var j :| 0 <= j < |a[k..]| && a[k..][j] == id;
      assert a[k + j] == id;
      assert id in s.down || id in s.out;
    }
  }

  lemma DifferentInOut(s: State, i: nat, j: nat)
    requires Distinct(All(s)) && i < j < |s.out|
    ensures s.out[i] != s.out[j]
  {
    assert All(s)[|s.down| + i] == s.out[i] && All(s)[|s.down| + j] == s.out[j];
  }

  lemma SentFree(files: Files, s: State, tag: int, u: Table, k: nat, taken: seq<Byte>)
    requires k <= |s.down + s.out| && FreeOk(files, s, tag, NONE)
    requires forall id :: Has(u, id, tag) <==> Has(s.t, id, tag)
    requires forall id :: id in s.t && id !in s.down && id !in s.out ==> id in u && u[id] == s.t[id]
    ensures FreeOk(files, Sent(s, u, k, taken), tag, NONE)
  {
    var a, d := s.down + s.out, Sent(s, u, k, taken);
    assert forall id :: id in d.down ==> id in a;
    assert forall id :: id in a <==> id in s.down || id in s.out;
    assert forall id :: id in d.busy <==> id in s.busy || id in s.out;
  }

  lemma BusyDistinct(files: Files, s: State, tag: int, i: nat, j: nat)
    requires BusyOk(files, s, tag, NONE) && Distinct(All(s))
    requires i < j < |s.busy + s.out| && (s.busy + s.out)[i] == (s.busy + s.out)[j]
    ensures !Has(s.t, (s.busy + s.out)[i], tag)
  {
    var busy := s.busy + s.out;
    if j >= |s.busy| {
      assert busy[j] == s.out[j - |s.busy|] && busy[j] in s.out;
      if i >= |s.busy| {
        DifferentInOut(s, i - |s.busy|, j - |s.busy|);
      } else {
        assert busy[i] in s.busy;
      }
    }
  }

  lemma BusyGood(files: Files, s: State, u: Table, k: nat)
    requires TakenBufs(files, s.t, u, s.down + s.out, k)
    requires forall id :: id in s.busy ==> id in s.t && GoodBuf(files, s.t[id])
    requires forall id :: id in s.t && id !in s.down && id !in s.out ==> id in u && u[id] == s.t[id]
    ensures forall id :: id in s.busy || id in s.out ==> id in u && GoodBuf(files, u[id])
  {
    var a := s.down + s.out;
    forall id | id in s.busy || id in s.out ensures id in u && GoodBuf(files, u[id]) {
      if id in a {
        var j :| 0 <= j < |a| && a[j] == id;
      }
    }
  }

  lemma SentBusy(files: Files, s: State, tag: int, u: Table, k: nat, taken: seq<Byte>)
    requires Distinct(All(s)) && TakenBufs(files, s.t, u, s.down + s.out, k)
    requires BusyOk(files, s, tag, NONE) && NONE !in s.t && forall id :: Has(u, id, tag) <==> Has(s.t, id, tag)
    requires forall id :: id in s.t && id !in s.down && id !in s.out ==> id in u && u[id] == s.t[id]
    ensures k <= |s.down + s.out| && BusyOk(files, Sent(s, u, k, taken), tag, NONE)
  {
    var a := s.down + s.out;
    var busy := s.busy + s.out;
    hide TakenBufs, Distinct, GoodBuf;
    SentTags(files, s, u, k, tag);
    BusyGood(files, s, u, k);
    forall i, j | 0 <= i < j < |busy| && busy[i] == busy[j] ensures !Has(u, busy[i], tag) {
      BusyDistinct(files, s, tag, i, j);
    }
    assert forall id :: id in a[k..] ==> id in a;
    assert forall id :: id in a ==> id in s.down || id in s.out;
    assert forall id :: id in busy <==> id in s.busy || id in s.out;
    assert forall id :: Has(u, id, tag) ==> id in u;
  }

  lemma {:induction false} SentKeeps(files: Files, s: State, tag: int, u: Table, k: nat, sent: nat)
    requires Inv(files, s, tag, NONE) && GoodChain(files, s.t, s.down + s.out)
    requires Taken(files, s.t, u, s.down + s.out, k, sent)
    ensures var d := Sent(s, u, k, Flow(files, s.t, s.down + s.out)[..sent]);
      Inv(files, d, tag, NONE) && Sum(files, d) == Sum(files, s)
  {
    SentLined(files, s, u, k, sent);
    SentRest(files, s, tag, u, k, Flow(files, s.t, s.down + s.out)[..sent]);
  }

  /** The chain that goes down is sound. */
  lemma DownOut(files: Files, s: State)
    requires Lined(files, s)
    ensures GoodChain(files, s.t, s.down + s.out) && Distinct(s.down + s.out) && AllMatched(s.t, s.down + s.out)
  {
    TwoParts(files, s.t, s.down + s.out, s.input);
  }

  // Taking buffers back.

  /** The first busy buffer is done with: a pool buffer becomes free, another one is forgotten. */
  function Returned(s: State, tag: int): State
    requires s.busy != []
  {
    var x := s.busy[0];
    if Has(s.t, x, tag) then
      s.(t := s.t[x := s.t[x].(pos := 0, last := 0)], busy := s.busy[1..], free := [x] + s.free)
    else s.(busy := s.busy[1..])
  }

  lemma ReturnForgets(files: Files, s: State, tag: int)
    requires Inv(files, s, tag, NONE) && s.busy != [] && !Has(s.t, s.busy[0], tag)
    ensures Inv(files, Returned(s, tag), tag, NONE) && Sum(files, Returned(s, tag)) == Sum(files, s)
  {
    var d := Returned(s, tag);
    assert All(d) == All(s);
    assert forall k :: 0 <= k < |d.busy| ==> d.busy[k] == s.busy[k + 1];
    forall id | id in s.busy && Has(s.t, id, tag) ensures id in d.busy {
      var k :| 0 <= k < |s.busy| && s.busy[k] == id;
      assert d.busy[k - 1] == id;
    }
    assert forall id :: id in d.busy ==> id in s.busy;
    hide Flow, Distinct, GoodChain, AllMatched;
  }

  lemma ReturnedBuf(files: Files, b: Buf)
    requires PoolBuf(files, b)
    ensures IdleBuf(files, b.(pos := 0, last := 0))
  {
  }

  lemma {:induction false} ReturnLined(files: Files, s: State, tag: int)
    requires Lined(files, s) && s.busy != [] && Has(s.t, s.busy[0], tag) && s.busy[0] !in All(s)
    ensures Lined(files, Returned(s, tag)) && Sum(files, Returned(s, tag)) == Sum(files, s)
  {
    var d := Returned(s, tag);
    assert All(d) == All(s);
    forall k | 0 <= k < |All(s)| ensures All(s)[k] in d.t && All(s)[k] in s.t && d.t[All(s)[k]] == s.t[All(s)[k]] {
      assert All(s)[k] in All(s);
    }
    FlowSame(files, s.t, d.t, All(s));
  }

  lemma ReturnRest(files: Files, s: State, tag: int)
    requires s.busy != [] && Has(s.t, s.busy[0], tag) && s.out == [] && s.busy[0] !in s.down && s.busy[0] !in s.input
    requires Marked(files, s, tag) && FreeOk(files, s, tag, NONE) && BusyOk(files, s, tag, NONE)
    requires Covered(s, tag, NONE)
    ensures var d := Returned(s, tag);
      Marked(files, d, tag) && FreeOk(files, d, tag, NONE) && BusyOk(files, d, tag, NONE) && Covered(d, tag, NONE)
  {
    var d, x := Returned(s, tag), s.busy[0];
    ReturnedBuf(files, s.t[x]);
    assert forall id :: Has(d.t, id, tag) <==> Has(s.t, id, tag);
    assert x in s.busy;
    ReturnBusy(files, s, tag);
    assert forall id :: id in d.free <==> id == x || id in s.free;
    assert Distinct(d.free) by {
      forall j | 0 <= j < |s.free| ensures s.free[j] != x { assert s.free[j] in s.free; }
    }
  }

  lemma ReturnBusy(files: Files, s: State, tag: int)
    requires s.busy != [] && Has(s.t, s.busy[0], tag) && s.out == [] && s.busy[0] !in s.down
    requires BusyOk(files, s, tag, NONE) && IdleBuf(files, s.t[s.busy[0]].(pos := 0, last := 0)) && NONE !in s.t
    ensures var d := Returned(s, tag);
      && BusyOk(files, d, tag, NONE) && s.busy[0] !in d.busy
      && (forall id :: id in d.busy ==> id in s.busy)
      && (forall id :: id in s.busy && id != s.busy[0] ==> id in d.busy)
  {
    var d, x := Returned(s, tag), s.busy[0];
    assert forall id :: Has(d.t, id, tag) <==> Has(s.t, id, tag);
    assert forall k :: 0 <= k < |d.busy| ==> d.busy[k] == s.busy[k + 1];
    forall id | id in s.busy && id != x ensures id in d.busy {
      var k :| 0 <= k < |s.busy| && s.busy[k] == id;
      assert d.busy[k - 1] == id;
    }
    forall id | id in d.busy ensures id in s.busy && id != x {
      var k :| 0 <= k < |d.busy| && d.busy[k] == id;
      assert s.busy[k + 1] == id;
    }
  }

  lemma {:induction false} ReturnKeeps(files: Files, s: State, tag: int)
    requires Inv(files, s, tag, NONE) && s.busy != [] && s.out == []
    requires s.busy[0] in s.t && Size(s.t[s.busy[0]]) == 0
    ensures Inv(files, Returned(s, tag), tag, NONE) && Sum(files, Returned(s, tag)) == Sum(files, s)
  {
    var x := s.busy[0];
    if !Has(s.t, x, tag) {
      ReturnForgets(files, s, tag);
    } else {
      assert x !in s.down && x !in s.input && x !in s.out;
      assert All(s) == s.down + s.input;
      assert x !in All(s);
      hide Lined, Marked, FreeOk, BusyOk, Covered;
      ReturnLined(files, s, tag);
      ReturnRest(files, s, tag);
    }
  }

  // Progress.

  lemma WorkDrop(t: Table, chain: seq<Id>)
    requires chain != []
    ensures Work(t, chain[1..]) < Work(t, chain)
  {
  }

  lemma {:induction false} WorkSame(t: Table, u: Table, chain: seq<Id>)
    requires forall k :: 0 <= k < |chain| ==> chain[k] in t && chain[k] in u && u[chain[k]] == t[chain[k]]
    ensures Work(u, chain) == Work(t, chain)
  {
    if chain != [] {
      var c := chain[1..];
      assert forall k :: 0 <= k < |c| ==> c[k] == chain[k + 1];
      WorkSame(t, u, c);
      assert chain[0] in t;
    }
  }

  /** Sending part of the first buffer leaves less to do. */
  lemma {:induction false} WorkLess(t: Table, u: Table, chain: seq<Id>)
    requires chain != [] && chain[0] in t && chain[0] in u && 0 <= Size(u[chain[0]]) < Size(t[chain[0]])
    requires forall k :: 1 <= k < |chain| ==> chain[k] in t && chain[k] in u && u[chain[k]] == t[chain[k]]
    ensures Work(u, chain) < Work(t, chain) && Work(u, chain[1..]) < Work(t, chain)
  {
    var c := chain[1..];
    assert forall k :: 0 <= k < |c| ==> c[k] == chain[k + 1];
    WorkSame(t, u, c);
  }

  // Buffers to copy into.

  /** A new buffer does not matter to any chain. */
  lemma NewLined(files: Files, s: State, id: Id, b: Buf)
    requires Lined(files, s) && id !in s.t
    ensures var d := s.(t := s.t[id := b]);
      Lined(files, d) && Sum(files, d) == Sum(files, s) && forall x :: x in All(s) ==> x in s.t
  {
    var d := s.(t := s.t[id := b]);
    var all := All(s);
    assert All(d) == all;
    FlowSame(files, s.t, d.t, all);
    forall x | x in all ensures x in s.t {
      var k :| 0 <= k < |all| && all[k] == x;
    }
  }

  lemma NewRest(files: Files, s: State, tag: int, id: Id, b: Buf)
    requires Marked(files, s, tag) && FreeOk(files, s, tag, NONE) && BusyOk(files, s, tag, NONE)
    requires Covered(s, tag, NONE)
    requires id !in s.t && id != NONE && IdleBuf(files, b) && forall x :: x in All(s) ==> x in s.t
    ensures var d := s.(t := s.t[id := b]);
      && Marked(files, d, tag) && FreeOk(files, d, tag, id) && BusyOk(files, d, tag, id) && Covered(d, tag, id)
      && CurOk(files, d, id)
  {
    var d := s.(t := s.t[id := b]);
    assert forall x :: x in s.down || x in s.out || x in s.input ==> x in All(s);
    assert forall x :: Has(d.t, x, tag) && x != id ==> Has(s.t, x, tag);
    assert id !in s.free && id !in s.busy;
  }

  lemma NewCurKeeps(files: Files, s: State, tag: int, id: Id, b: Buf)
    requires Inv(files, s, tag, NONE) && id !in s.t && id != NONE && IdleBuf(files, b)
    ensures var d := s.(t := s.t[id := b]); Inv(files, d, tag, id) && Sum(files, d) == Sum(files, s)
  {
    hide Lined, Marked, FreeOk, BusyOk, Covered, CurOk, IdleBuf;
    NewLined(files, s, id, b);
    NewRest(files, s, tag, id, b);
  }

  /** A caller's buffer. */
  lemma NewUserKeeps(files: Files, s: State, tag: int, id: Id, b: Buf)
    requires Inv(files, s, tag, NONE) && id !in s.t && id != NONE && b.tag != tag
    ensures var d := s.(t := s.t[id := b]); Inv(files, d, tag, NONE) && Sum(files, d) == Sum(files, s)
  {
    hide Lined, Marked, FreeOk, BusyOk, Covered;
    NewLined(files, s, id, b);
    NewUserRest(files, s, tag, id, b);
    NewUserBusy(files, s, tag, id, b);
  }

  lemma NewUserRest(files: Files, s: State, tag: int, id: Id, b: Buf)
    requires Marked(files, s, tag) && FreeOk(files, s, tag, NONE) && Covered(s, tag, NONE)
    requires id !in s.t && id != NONE && b.tag != tag
    ensures var d := s.(t := s.t[id := b]);
      Marked(files, d, tag) && FreeOk(files, d, tag, NONE) && Covered(d, tag, NONE)
  {
    var d := s.(t := s.t[id := b]);
    assert forall x :: Has(d.t, x, tag) <==> Has(s.t, x, tag);
  }

  lemma NewUserBusy(files: Files, s: State, tag: int, id: Id, b: Buf)
    requires BusyOk(files, s, tag, NONE) && id !in s.t && id != NONE && b.tag != tag
    ensures BusyOk(files, s.(t := s.t[id := b]), tag, NONE)
  {
    var d := s.(t := s.t[id := b]);
    assert forall x :: Has(d.t, x, tag) <==> Has(s.t, x, tag);
  }

  lemma TakeFreeKeeps(files: Files, s: State, tag: int)
    requires Inv(files, s, tag, NONE) && s.free != []
    ensures var d := s.(free := s.free[1..]);
      Inv(files, d, tag, s.free[0]) && Sum(files, d) == Sum(files, s) && s.free[0] in s.t && s.free[0] != NONE
  {
    var d, x := s.(free := s.free[1..]), s.free[0];
    assert x in s.free && Has(s.t, x, tag);
    assert All(d) == All(s);
    assert forall k :: 0 <= k < |d.free| ==> d.free[k] == s.free[k + 1];
    assert forall id :: id in d.free ==> id in s.free;
    forall id | id in s.free && id != x ensures id in d.free {
      var k :| 0 <= k < |s.free| && s.free[k] == id;
      assert d.free[k - 1] == id;
    }
    forall k | 0 <= k < |d.free| ensures d.free[k] != x {
      assert d.free[k] == s.free[k + 1];
    }
  }

  /** The first buffer forgets that it is in a file as well, and stays where it is. */
  lemma {:induction false} StayKeeps(files: Files, s: State, tag: int, c: Buf)
    requires Inv(files, s, tag, NONE) && s.input != []
    requires s.input[0] in s.t && SameData(files, s.t[s.input[0]], c)
    ensures var d := s.(t := s.t[s.input[0] := c]);
      Inv(files, d, tag, NONE) && Sum(files, d) == Sum(files, s)
  {
    var x := s.input[0];
    InputNotFree(files, s, tag, x);
    StayRest(files, s, tag, c);
    hide Marked, FreeOk, BusyOk, Covered, SameData;
    StayLined(files, s, c);
  }

  lemma StayLined(files: Files, s: State, c: Buf)
    requires Lined(files, s) && s.input != [] && s.input[0] in s.t && SameData(files, s.t[s.input[0]], c)
    ensures var d := s.(t := s.t[s.input[0] := c]); Lined(files, d) && Sum(files, d) == Sum(files, s)
  {
    var d := s.(t := s.t[s.input[0] := c]);
    var a, x, b := s.down + s.out, s.input[0], s.input[1..];
    assert All(s) == a + [x] + b && All(d) == a + [x] + b;
    PutSameData(files, s.t, a, x, b, c);
  }

  lemma StayRest(files: Files, s: State, tag: int, c: Buf)
    requires s.input != [] && s.input[0] in s.t && SameData(files, s.t[s.input[0]], c) && !Has(s.t, s.input[0], tag)
    requires Marked(files, s, tag) && FreeOk(files, s, tag, NONE) && BusyOk(files, s, tag, NONE)
    requires Covered(s, tag, NONE)
    ensures var d := s.(t := s.t[s.input[0] := c]);
      Marked(files, d, tag) && FreeOk(files, d, tag, NONE) && BusyOk(files, d, tag, NONE) && Covered(d, tag, NONE)
  {
    var d := s.(t := s.t[s.input[0] := c]);
    assert forall id :: Has(d.t, id, tag) <==> Has(s.t, id, tag);
  }

  lemma AddRest(files: Files, s: State, tag: int, chain: seq<Id>)
    requires forall id :: id in chain ==> !Has(s.t, id, tag)
    requires Marked(files, s, tag) && FreeOk(files, s, tag, NONE) && BusyOk(files, s, tag, NONE)
    requires Covered(s, tag, NONE)
    ensures var d := s.(input := s.input + chain);
      Marked(files, d, tag) && FreeOk(files, d, tag, NONE) && BusyOk(files, d, tag, NONE) && Covered(d, tag, NONE)
  {
    var d := s.(input := s.input + chain);
    assert forall id :: id in d.input ==> id in s.input || id in chain;
  }

  lemma AddLined(files: Files, s: State, chain: seq<Id>)
    requires Lined(files, s) && GoodChain(files, s.t, chain) && AllMatched(s.t, chain) && Distinct(All(s) + chain)
    ensures var d := s.(input := s.input + chain);
      Lined(files, d) && Sum(files, d) == Sum(files, s) + Flow(files, s.t, chain)
  {
    var d := s.(input := s.input + chain);
    assert All(d) == All(s) + chain;
    var all := All(s);
    assert all[0..] == all;
    hide Distinct, GoodChain, AllMatched, Flow, All;
    FlowAppend(files, s.t, all, chain);
    MatchedTail(s.t, all, 0, chain);
    Associative(s.wire, Flow(files, s.t, all), Flow(files, s.t, chain));
  }

  /** Adding to what waits. */
  lemma {:induction false} AddKeeps(files: Files, s: State, tag: int, chain: seq<Id>)
    requires Inv(files, s, tag, NONE) && GoodChain(files, s.t, chain) && AllMatched(s.t, chain)
    requires Distinct(All(s) + chain) && forall id :: id in chain ==> !Has(s.t, id, tag)
    ensures var d := s.(input := s.input + chain);
      Inv(files, d, tag, NONE) && Sum(files, d) == Sum(files, s) + Flow(files, s.t, chain)
  {
    hide Lined, Marked, FreeOk, BusyOk, Covered;
    AddLined(files, s, chain);
    AddRest(files, s, tag, chain);
  }

  lemma {:induction false} CopyKeeps(files: Files, s: State, tag: int, cur: Id, src: Buf, dst: Buf)
    requires Inv(files, s, tag, cur) && cur != NONE && s.input != []
    requires s.input[0] in s.t && cur in s.t && Fragment(files, s.t[s.input[0]], src, dst)
    requires dst.tag == s.t[cur].tag && PoolBuf(files, dst)
    ensures var d := Copied(s, cur, src, dst); Inv(files, d, tag, NONE) && Sum(files, d) == Sum(files, s)
  {
    assert cur !in All(s) by {
      assert cur !in s.down && cur !in s.out && cur !in s.input;
    }
    CopyLined(files, s, cur, src, dst);
    CopyRest(files, s, tag, cur, src, dst);
  }

  lemma FirstFacts(files: Files, s: State, tag: int, cur: Id)
    requires Inv(files, s, tag, cur) && s.input != []
    ensures s.input[0] in s.t && GoodBuf(files, s.t[s.input[0]]) && Matched(s.t[s.input[0]]) && s.input[0] != cur
    ensures forall k :: 0 <= k < |s.input| ==> s.input[k] in s.t && s.input[k] != cur && !Has(s.t, s.input[k], tag)
    ensures forall k :: 1 <= k < |s.input| ==> s.input[k] != s.input[0]
  {
    var n := |s.down + s.out|;
    forall k | 0 <= k < |s.input| ensures s.input[k] in s.t && s.input[k] in s.input {
      assert All(s)[n + k] == s.input[k];
    }
    var all := All(s);
    assert all[n] == s.input[0] && all[n] in s.t && GoodBuf(files, s.t[all[n]]) && Matched(s.t[all[n]]);
    forall k | 1 <= k < |s.input| ensures s.input[k] != s.input[0] {
      assert all[n + k] == s.input[k] && all[n] == s.input[0];
    }
  }

  lemma CurFacts(files: Files, s: State, tag: int, cur: Id)
    requires Inv(files, s, tag, cur) && cur != NONE
    ensures cur in s.t && IdleBuf(files, s.t[cur])
  {
  }
}
