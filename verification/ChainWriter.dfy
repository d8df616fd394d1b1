/** The last filter: it keeps what the connection has not taken yet. */
module ChainWriter {
  import opened Common
  import opened Bufs

  datatype Result = Ok | Again | Error

  /** Appending a buffer to a chain. */
  lemma {:induction false} FlowPush(files: Files, t: Table, a: seq<Id>, id: Id)
    requires GoodChain(files, t, a) && id in t && GoodBuf(files, t[id])
    ensures GoodChain(files, t, a + [id]) && Flow(files, t, a + [id]) == Flow(files, t, a) + Bytes(files, t[id])
  {
    FlowOne(files, t, id);
    FlowAppend(files, t, a, [id]);
  }

  class ChainWriter {
    ghost const files: Files
    var bufs: Table
    /** What is still to be sent. */
    var out: seq<Id>
    /** What the connection has taken, since the beginning. */
    ghost var wire: seq<Byte>

    constructor (ghost files: Files, bufs: Table)
      ensures this.files == files && this.bufs == bufs && out == [] && wire == [] && Valid()
    {
      this.files, this.bufs, out, wire := files, bufs, [], [];
    }

    ghost predicate Valid()
      reads this
    {
      GoodChain(files, bufs, out) && Distinct(out) && AllMatched(bufs, out)
    }

    /** The connection takes any number of bytes from the front of the chain, or fails. */
    method SendChain() returns (ok: bool, k: nat)
      requires Valid()
      modifies this`bufs, this`wire
      ensures ok ==> Valid() && k <= |out| && GoodChain(files, bufs, out[k..])
      ensures ok ==> wire + Flow(files, bufs, out[k..]) == old(wire + Flow(files, bufs, out))
      ensures ok ==> OnlySent(old(bufs), bufs, out)
      ensures ok ==> forall j :: 0 <= j < k ==> Size(bufs[out[j]]) == 0
    {
      hide Flow, GoodChain, AllMatched, OnlySent;
      ok, k := false, 0;
      if * {
        return;
      }
      ghost var flow := Flow(files, bufs, out);
      WholeTotal(files, bufs, out);
      var sent: nat :| 0 <= sent <= Total(bufs, out, 0);
      wire := wire + flow[..sent];
      bufs, k := UpdateSent(files, bufs, out, sent);
      TakeDrop(old(wire), flow, sent);
      ok := true;
    }

    /** Adds a chain to what is to be sent. */
    method AddChain(chain: seq<Id>, memory: bool) returns (ok: bool, size: nat)
      requires Valid() && GoodChain(files, bufs, chain) && AllMatched(bufs, chain) && Distinct(out + chain)
      modifies this`out
      ensures ok ==> Valid() && Flow(files, bufs, out) == old(Flow(files, bufs, out)) + Flow(files, bufs, chain)
      ensures ok ==> forall id :: id in out ==> id in old(out) + chain
    {
      hide Flow, GoodChain, AllMatched, Distinct;
      ghost var out0 := out;
      size := 0;
      var i := 0;
      while i < |chain|
        invariant 0 <= i <= |chain|
        invariant out == out0 + Kept(bufs, chain, i)
      {
        InChain(files, bufs, chain, i);
        var b := bufs[chain[i]];
        if !(Size(b) == 0 && !Special(b)) {
          size := size + Size(b);
          if !memory { return false, size; }
          out := out + [chain[i]];
        }
        i := i + 1;
      }
      ok := true;
      Entered(files, bufs, out0, chain);
    }

    /** Adds a chain to what is to be sent and sends what the connection takes. Nothing is lost or reordered. */
    method Write(chain: seq<Id>, memory: bool, buffered: bool) returns (rc: Result)
      requires Valid() && GoodChain(files, bufs, chain) && AllMatched(bufs, chain) && Distinct(out + chain)
      modifies this
      ensures rc != Error ==> Valid()
      ensures rc != Error ==>
        wire + Flow(files, bufs, out) == old(wire) + old(Flow(files, bufs, out)) + old(Flow(files, bufs, chain))
      ensures rc == Ok ==> Flow(files, bufs, out) == []
    {
      hide Flow, GoodChain, AllMatched, OnlySent, Distinct;
      ghost var wire0, before, new_ := wire, Flow(files, bufs, out), Flow(files, bufs, chain);
      var ok, size := AddChain(chain, memory);
      if !ok { return Error; }
      Associative(wire0, before, new_);
      WholeTotal(files, bufs, out);
      size := size + Total(bufs, out, 0);
      if size == 0 && !buffered { return Ok; }
      var k: nat;
      ok, k := SendChain();
      if !ok { return Error; }
      ValidTail(files, bufs, out, k);
      out := out[k..];
      rc := if out == [] && !buffered then Ok else Again;
    }
  }

  lemma InChain(files: Files, t: Table, chain: seq<Id>, i: nat)
    requires GoodChain(files, t, chain) && i < |chain|
    ensures chain[i] in t && GoodBuf(files, t[chain[i]])
  {
  }

  /** All of the chain has been added. */
  lemma Entered(files: Files, t: Table, out: seq<Id>, chain: seq<Id>)
    requires GoodChain(files, t, out) && GoodChain(files, t, chain) && Distinct(out + chain)
    requires AllMatched(t, out) && AllMatched(t, chain)
    ensures var all := out + Kept(t, chain, |chain|);
      && GoodChain(files, t, all) && AllMatched(t, all) && Distinct(all)
      && Flow(files, t, all) == Flow(files, t, out) + Flow(files, t, chain)
      && forall id :: id in all ==> id in out + chain
  {
    var kept := Kept(t, chain, |chain|);
    assert chain[..|chain|] == chain;
    KeptFlow(files, t, chain, |chain|);
    KeptDistinct(t, out, chain, |chain|);
    FlowAppend(files, t, out, kept);
    forall k | 0 <= k < |kept| && kept[k] in t ensures Matched(t[kept[k]]) {
      assert kept[k] in kept;
      var j :| 0 <= j < |chain| && chain[j] == kept[k];
    }
  }

  lemma ValidTail(files: Files, t: Table, chain: seq<Id>, k: nat)
    requires k <= |chain| && GoodChain(files, t, chain) && Distinct(chain) && AllMatched(t, chain)
    ensures Distinct(chain[k..]) && AllMatched(t, chain[k..])
    ensures k == |chain| ==> GoodChain(files, t, []) && Flow(files, t, []) == []
  {
  }

  lemma TakeDrop(a: seq<Byte>, b: seq<Byte>, n: nat)
    requires n <= |b|
    ensures a + b[..n] + b[n..] == a + b
  {
    assert b[..n] + b[n..] == b;
    Associative(a, b[..n], b[n..]);
  }

  /** Buffers without data may be left out. */
  predicate Skipped(b: Buf) {
    Size(b) == 0 && !Special(b)
  }

  /** The chain without the buffers that hold neither data nor flags. */
  function Kept(t: Table, chain: seq<Id>, k: nat): (r: seq<Id>)
    requires k <= |chain|
    ensures forall id :: id in r ==> id in chain[..k]
  {
    if k == 0 then []
    else if chain[k - 1] in t && Skipped(t[chain[k - 1]]) then
      assert forall id :: id in chain[..k - 1] ==> id in chain[..k];
      Kept(t, chain, k - 1)
    else
      assert chain[..k] == chain[..k - 1] + [chain[k - 1]];
      Kept(t, chain, k - 1) + [chain[k - 1]]
  }

  lemma KeptStep(t: Table, chain: seq<Id>, k: nat)
    requires k <= |chain| && (k > 0 ==> chain[k - 1] in t)
    ensures Kept(t, chain, k) ==
            if k == 0 then [] else Kept(t, chain, k - 1) + if Skipped(t[chain[k - 1]]) then [] else [chain[k - 1]]
  {
  }

  lemma SkippedBytes(files: Files, b: Buf)
    requires GoodBuf(files, b) && Skipped(b)
    ensures Bytes(files, b) == []
  {
  }

  lemma {:induction false} KeptFlow(files: Files, t: Table, chain: seq<Id>, k: nat)
    requires GoodChain(files, t, chain) && k <= |chain|
    ensures GoodChain(files, t, Kept(t, chain, k)) && GoodChain(files, t, chain[..k])
    ensures Flow(files, t, Kept(t, chain, k)) == Flow(files, t, chain[..k])
  {
    hide Flow, GoodChain, GoodBuf, Bytes, Kept, Skipped, Special;
    if k == 0 {
      KeptStep(t, chain, k);
      NoChain(files, t);
      assert chain[..k] == [];
    } else {
      var id := chain[k - 1];
      InChain(files, t, chain, k - 1);
      KeptStep(t, chain, k);
      KeptFlow(files, t, chain, k - 1);
      assert chain[..k] == chain[..k - 1] + [id];
      FlowPush(files, t, chain[..k - 1], id);
      if Skipped(t[id]) {
        SkippedBytes(files, t[id]);
        assert Kept(t, chain, k) == Kept(t, chain, k - 1);
      } else {
        FlowPush(files, t, Kept(t, chain, k - 1), id);
      }
    }
  }

  lemma NoChain(files: Files, t: Table)
    ensures GoodChain(files, t, []) && Flow(files, t, []) == []
  {
  }

  lemma {:induction false} KeptDistinct(t: Table, a: seq<Id>, chain: seq<Id>, k: nat)
    requires k <= |chain| && Distinct(a + chain)
    ensures Distinct(a + Kept(t, chain, k))
  {
    if k > 0 {
      KeptDistinct(t, a, chain, k - 1);
      var r, id := Kept(t, chain, k - 1), chain[k - 1];
      if !(id in t && Skipped(t[id])) {
        forall i | 0 <= i < |a + r| ensures (a + r)[i] != id {
          if i < |a| {
            assert (a + chain)[i] == a[i] && (a + chain)[|a| + k - 1] == id;
          } else {
            assert r[i - |a|] in chain[..k - 1];
            var j :| 0 <= j < k - 1 && chain[..k - 1][j] == r[i - |a|];
            assert (a + chain)[|a| + j] == chain[j] && (a + chain)[|a| + k - 1] == id;
          }
        }
        assert a + Kept(t, chain, k) == (a + r) + [id];
      }
    } else {
      forall i, j | 0 <= i < j < |a| ensures a[i] != a[j] {
        assert (a + chain)[i] == a[i] && (a + chain)[j] == a[j];
      }
      assert a + Kept(t, chain, 0) == a;
    }
  }
}
