/** Shared memory zones: how a configuration declares them, and which segments are mapped while a new configuration
    takes over from the old one. */
module SharedZones {
  import opened Common

  datatype Zone = Zone(name: string, size: nat, tag: int, noreuse: bool, addr: int)

  /** No two zones have the same name. */
  ghost predicate Unique(zones: seq<Zone>) {
    forall i, j :: 0 <= i < j < |zones| ==> zones[i].name != zones[j].name
  }

  /** Which segment the new zone takes over: the one of the old zone with its name, when use and size agree. */
  predicate Reuses(z: Zone, old_: Zone) {
    z.name == old_.name && z.tag == old_.tag && z.size == old_.size && !z.noreuse
  }

  predicate Replaces(z: Zone, old_: Zone) {
    z.name == old_.name && !Reuses(z, old_)
  }

  /** The place of the zone with this name, or the number of zones. */
  ghost function PlaceOf(zones: seq<Zone>, name: string, i: nat): (p: nat)
    requires i <= |zones|
    ensures i <= p <= |zones| && (p < |zones| ==> zones[p].name == name)
    ensures forall q :: i <= q < p ==> zones[q].name != name
    decreases |zones| - i
  {
    if i == |zones| || zones[i].name == name then i else PlaceOf(zones, name, i + 1)
  }

  /** Does giving the new zone a segment free one that is not mapped? */
  ghost predicate Stray(was: seq<Zone>, z: Zone, segments: set<int>) {
    var p := PlaceOf(was, z.name, 0);
    z.size > 0 && p < |was| && !Reuses(z, was[p]) && was[p].addr !in segments
  }

  /** The segment of the new zone: the old one if name, use and size agree and it may be used again, and otherwise a
      new one, after the old one, if there is one, has been freed. */
  ghost predicate Settles(was: seq<Zone>, z: Zone, addr: int, before: set<int>, after: set<int>) {
    var p := PlaceOf(was, z.name, 0);
    if p < |was| && was[p].tag == z.tag && was[p].size == z.size && !z.noreuse then
      addr == was[p].addr && after == before
    else
      var left := before - if p < |was| then {was[p].addr} else {};
      addr !in left && after == left + {addr}
  }

  ghost predicate Replaced(was: seq<Zone>, p: nat, now: seq<Zone>, n: nat)
    requires p < |was| && n <= |now|
  {
    exists j: nat :: j < n && Replaces(now[j], was[p])
  }

  ghost predicate Named(was: seq<Zone>, p: nat, now: seq<Zone>)
    requires p < |was|
  {
    exists j: nat :: j < |now| && now[j].name == was[p].name
  }

  /** The segments of the old zones that are not replaced by the first `n` new ones. */
  ghost function Kept(was: seq<Zone>, now: seq<Zone>, n: nat): (s: set<int>)
    requires n <= |now|
  {
    set p: nat | p < |was| && !Replaced(was, p, now, n) :: was[p].addr
  }

  /** The segments of the first `n` zones. */
  ghost function Addrs(zones: seq<Zone>, n: nat): (s: set<int>)
    requires n <= |zones|
  {
    set j: nat | j < n :: zones[j].addr
  }

  ghost predicate Apart(zones: seq<Zone>, n: nat)
    requires n <= |zones|
  {
    forall i, j :: 0 <= i < j < n ==> zones[i].addr != zones[j].addr
  }

  /** The zones of a configuration in use: every one has a segment of its own. */
  ghost predicate Mapped(zones: seq<Zone>, segments: set<int>) {
    Unique(zones) && Apart(zones, |zones|) && segments == Addrs(zones, |zones|)
  }

  /** The first `n` zones of a new configuration have their segments, taken over or allocated. The address of a segment
      that was freed may come back. */
  ghost predicate Shared(was: seq<Zone>, decl: seq<Zone>, now: seq<Zone>, n: nat) {
    && |now| == |decl| && n <= |now| && Apart(now, n)
    && (forall j :: 0 <= j < |now| ==> now[j] == decl[j].(addr := now[j].addr))
    && (forall j: nat, p: nat :: j < n && p < |was| && Reuses(decl[j], was[p]) ==> now[j].addr == was[p].addr)
    && (forall j: nat, p: nat :: j < n && p < |was| && now[j].addr == was[p].addr ==>
          Reuses(decl[j], was[p]) || Replaced(was, p, decl, n))
  }

  /** What is mapped when the first `done` zones have their segments and the first `gone` ones have had theirs freed
      where the old one does not fit. */
  ghost predicate Sharing(was: seq<Zone>, decl: seq<Zone>, now: seq<Zone>, segments: set<int>, done: nat, gone: nat) {
    && Shared(was, decl, now, done) && done <= gone <= |decl| && gone <= done + 1
    && segments == Kept(was, decl, gone) + Addrs(now, done)
  }

  lemma SharingIs(was: seq<Zone>, decl: seq<Zone>, now: seq<Zone>, segments: set<int>, done: nat, gone: nat)
    requires Sharing(was, decl, now, segments, done, gone)
    ensures done <= gone <= |decl| == |now| && gone <= done + 1
    ensures forall j :: 0 <= j < |now| ==> now[j] == decl[j].(addr := now[j].addr)
  {
  }

  lemma NamedIs(was: seq<Zone>, p: nat, decl: seq<Zone>, n: nat)
    requires p < |was| && n <= |decl| && forall j :: 0 <= j < n ==> decl[j].name != was[p].name
    ensures n == |decl| ==> !Named(was, p, decl)
    ensures n < |decl| && decl[n].name == was[p].name ==> Named(was, p, decl)
  {
  }

  lemma SharingInit(was: seq<Zone>, decl: seq<Zone>, segments: set<int>)
    requires segments == Addrs(was, |was|)
    ensures Sharing(was, decl, decl, segments, 0, 0)
  {
    KeptNone(was, decl);
  }

  lemma AddrsStep(now: seq<Zone>, next: seq<Zone>, n: nat)
    requires n < |now| == |next| && forall j :: 0 <= j < n ==> next[j].addr == now[j].addr
    ensures Addrs(next, n + 1) == Addrs(now, n) + {next[n].addr}
  {
  }

  /** The segment of the old zone with the name of the next one is mapped, and no new zone has it. */
  lemma OldIsThere(was: seq<Zone>, decl: seq<Zone>, now: seq<Zone>, segments: set<int>, n: nat, p: nat)
    requires Unique(decl) && Sharing(was, decl, now, segments, n, n)
    requires n < |decl| && p < |was| && was[p].name == decl[n].name
    ensures was[p].addr in segments && was[p].addr !in Addrs(now, n)
  {
    Untouched(was, decl, n, p);
    forall j: nat | j < n ensures now[j].addr != was[p].addr {
      assert decl[j].name != decl[n].name;
    }
  }

  lemma SharingReuse(was: seq<Zone>, decl: seq<Zone>, now: seq<Zone>, segments: set<int>, n: nat, p: nat)
    requires Unique(was) && Apart(was, |was|) && Unique(decl) && Sharing(was, decl, now, segments, n, n)
    requires n < |decl| && p < |was| && Reuses(decl[n], was[p])
    ensures Sharing(was, decl, now[n := now[n].(addr := was[p].addr)], segments, n + 1, n + 1)
  {
    var next := now[n := now[n].(addr := was[p].addr)];
    OldIsThere(was, decl, now, segments, n, p);
    Untouched(was, decl, n, p);
    KeptStep(was, decl, n, p);
    AddrsStep(now, next, n);
    forall q: nat | q < |was| ensures Replaced(was, q, decl, n) ==> Replaced(was, q, decl, n + 1) {
      ReplacedStep(was, q, decl, n);
    }
    forall q: nat | q < |was| && q != p ensures was[q].addr != was[p].addr && was[q].name != was[p].name {}
    assert Apart(next, n + 1);
    assert Shared(was, decl, next, n + 1);
  }

  lemma SharingFree(was: seq<Zone>, decl: seq<Zone>, now: seq<Zone>, segments: set<int>, n: nat, p: nat)
    requires Unique(was) && Apart(was, |was|) && Unique(decl) && Sharing(was, decl, now, segments, n, n)
    requires n < |decl| && p < |was| && Replaces(decl[n], was[p])
    ensures Sharing(was, decl, now, segments - {was[p].addr}, n, n + 1)
    ensures forall q :: 0 <= q < |was| ==> !Reuses(decl[n], was[q])
  {
    OldIsThere(was, decl, now, segments, n, p);
    KeptStep(was, decl, n, p);
    forall q | 0 <= q < |was| ensures !Reuses(decl[n], was[q]) {
      if q != p { assert was[q].name != was[p].name; }
    }
  }

  lemma SharingOther(was: seq<Zone>, decl: seq<Zone>, now: seq<Zone>, segments: set<int>, n: nat)
    requires Sharing(was, decl, now, segments, n, n) && n < |decl|
    requires forall p :: 0 <= p < |was| ==> was[p].name != decl[n].name
    ensures Sharing(was, decl, now, segments, n, n + 1)
    ensures forall q :: 0 <= q < |was| ==> !Reuses(decl[n], was[q])
  {
    KeptOther(was, decl, n);
  }

  lemma SharingNew(was: seq<Zone>, decl: seq<Zone>, now: seq<Zone>, segments: set<int>, n: nat, addr: int)
    requires n < |decl| && Sharing(was, decl, now, segments, n, n + 1) && addr !in segments
    requires forall q :: 0 <= q < |was| ==> !Reuses(decl[n], was[q])
    ensures Sharing(was, decl, now[n := now[n].(addr := addr)], segments + {addr}, n + 1, n + 1)
  {
    var next := now[n := now[n].(addr := addr)];
    AddrsStep(now, next, n);
    forall j | 0 <= j < n ensures now[j].addr != addr { assert now[j].addr in Addrs(now, n); }
    forall q: nat | q < |was| ensures Replaced(was, q, decl, n) ==> Replaced(was, q, decl, n + 1) {
      ReplacedStep(was, q, decl, n);
    }
    forall q: nat | q < |was| && was[q].addr == addr ensures Replaced(was, q, decl, n + 1) {}
    assert Apart(next, n + 1);
    assert Shared(was, decl, next, n + 1);
  }

  lemma KeptNone(was: seq<Zone>, now: seq<Zone>)
    ensures Kept(was, now, 0) == Addrs(was, |was|)
  {
  }

  /** The names decide which old zone a new one concerns. */
  lemma KeptStep(was: seq<Zone>, now: seq<Zone>, n: nat, p: nat)
    requires Unique(was) && Apart(was, |was|) && n < |now| && p < |was| && was[p].name == now[n].name
    ensures Kept(was, now, n + 1) ==
      if Reuses(now[n], was[p]) then Kept(was, now, n) else Kept(was, now, n) - {was[p].addr}
  {
    forall q: nat | q < |was|
      ensures Replaced(was, q, now, n + 1) <==> Replaced(was, q, now, n) || (q == p && Replaces(now[n], was[p]))
    {
      if q != p { assert was[q].name != was[p].name; }
      ReplacedStep(was, q, now, n);
    }
  }

  lemma ReplacedStep(was: seq<Zone>, q: nat, now: seq<Zone>, n: nat)
    requires n < |now| && q < |was|
    ensures Replaced(was, q, now, n + 1) <==> Replaced(was, q, now, n) || Replaces(now[n], was[q])
  {
  }

  lemma KeptOther(was: seq<Zone>, now: seq<Zone>, n: nat)
    requires n < |now| && forall p :: 0 <= p < |was| ==> was[p].name != now[n].name
    ensures Kept(was, now, n + 1) == Kept(was, now, n)
  {
    forall q: nat | q < |was| ensures Replaced(was, q, now, n + 1) <==> Replaced(was, q, now, n) {
      ReplacedStep(was, q, now, n);
    }
  }

  /** The segment of an old zone with the name of the `n`-th new one has not been touched so far. */
  lemma Untouched(was: seq<Zone>, now: seq<Zone>, n: nat, p: nat)
    requires Unique(now) && n < |now| && p < |was| && was[p].name == now[n].name
    ensures !Replaced(was, p, now, n) && was[p].addr in Kept(was, now, n)
  {
  }

  /** The segments of the first `n` old zones whose name is gone. */
  ghost function Dropped(was: seq<Zone>, decl: seq<Zone>, n: nat): (s: set<int>)
    requires n <= |was|
  {
    set p: nat | p < n && !Named(was, p, decl) :: was[p].addr
  }

  lemma DroppedStep(was: seq<Zone>, decl: seq<Zone>, n: nat)
    requires Apart(was, |was|) && n < |was|
    ensures Dropped(was, decl, n + 1) == Dropped(was, decl, n) + if Named(was, n, decl) then {} else {was[n].addr}
    ensures was[n].addr !in Dropped(was, decl, n)
  {
  }

  /** The segment of an old zone whose name is gone is still mapped when all new zones have theirs. */
  lemma DroppedIsThere(was: seq<Zone>, decl: seq<Zone>, now: seq<Zone>, segments: set<int>, p: nat)
    requires Sharing(was, decl, now, segments, |decl|, |decl|) && p < |was| && !Named(was, p, decl)
    ensures was[p].addr in segments && was[p].addr !in Addrs(now, |now|)
  {
    assert !Replaced(was, p, decl, |decl|);
    assert was[p].addr in Kept(was, decl, |decl|);
    forall j: nat | j < |now| ensures now[j].addr != was[p].addr { assert decl[j].name != was[p].name; }
  }

  /** Once they are freed as well, the segments are those of the new configuration: every old one has been taken over
      or freed, once. */
  lemma SharingDone(was: seq<Zone>, decl: seq<Zone>, now: seq<Zone>, segments: set<int>)
    requires Unique(was) && Apart(was, |was|) && Unique(decl) && Sharing(was, decl, now, segments, |decl|, |decl|)
    ensures Mapped(now, segments - Dropped(was, decl, |was|))
  {
    var n := |decl|;
    forall p: nat | p < |was| && Named(was, p, decl) && !Replaced(was, p, decl, n)
      ensures was[p].addr in Addrs(now, n)
    {
      var j: nat :| j < n && decl[j].name == was[p].name;
      assert !Replaces(decl[j], was[p]);
      assert now[j].addr == was[p].addr;
    }
    forall p: nat | p < |was| && !Named(was, p, decl) ensures was[p].addr !in Addrs(now, n) {
      DroppedIsThere(was, decl, now, segments, p);
    }
    forall i, j | 0 <= i < j < |now| ensures now[i].name != now[j].name { assert decl[i].name != decl[j].name; }
  }

  /** Does the old zone still have its segment: is it mapped, and does no new zone have the address but one that took
      the segment over? */
  ghost predicate Owns(was: seq<Zone>, p: nat, decl: seq<Zone>, now: seq<Zone>, segments: set<int>, done: nat)
    requires p < |was| && done <= |now| && done <= |decl|
  {
    was[p].addr in segments && forall j: nat :: j < done && now[j].addr == was[p].addr ==> Reuses(decl[j], was[p])
  }

  /** When a reload fails, each old zone still has its segment exactly if no new zone met so far replaces it; and all
      segments that the new ones got are mapped. */
  lemma OwnedIff(was: seq<Zone>, decl: seq<Zone>, now: seq<Zone>, segments: set<int>, done: nat, gone: nat)
    requires Apart(was, |was|) && Unique(decl) && Sharing(was, decl, now, segments, done, gone)
    ensures Addrs(now, done) <= segments
    ensures forall p: nat :: p < |was| ==> (Owns(was, p, decl, now, segments, done) <==> !Replaced(was, p, decl, gone))
  {
    forall p: nat | p < |was|
      ensures Owns(was, p, decl, now, segments, done) <==> !Replaced(was, p, decl, gone)
    {
      if Replaced(was, p, decl, gone) {
        NotOwned(was, decl, now, segments, done, gone, p);
      } else {
        assert was[p].addr in Kept(was, decl, gone);
        forall j: nat | j < done && now[j].addr == was[p].addr ensures Reuses(decl[j], was[p]) {
          assert !Replaced(was, p, decl, done);
        }
      }
    }
  }

  lemma NotOwned(was: seq<Zone>, decl: seq<Zone>, now: seq<Zone>, segments: set<int>, done: nat, gone: nat, p: nat)
    requires Apart(was, |was|) && Unique(decl) && Sharing(was, decl, now, segments, done, gone)
    requires p < |was| && Replaced(was, p, decl, gone)
    ensures !Owns(was, p, decl, now, segments, done)
  {
    var i: nat :| i < gone && Replaces(decl[i], was[p]);
    forall q: nat | q < |was| && !Replaced(was, q, decl, gone) ensures was[q].addr != was[p].addr {
      assert q != p;
    }
    assert was[p].addr !in Kept(was, decl, gone);
    if was[p].addr in segments {
      var j: nat :| j < done && now[j].addr == was[p].addr;
      if j != i { assert decl[j].name != decl[i].name; }
      assert !Reuses(decl[j], was[p]);
    }
  }

  /** A reload in which the only zone has a new size, and no memory can be had: the old segment is gone, the old
      configuration stays in use, and the same reload once more frees a segment that is not mapped. */
  lemma FailedReload(small: Zone, large: Zone)
    requires small == Zone("zone", 8, 0, false, 100) && large == small.(size := 16, addr := NONE)
    ensures Mapped([small], {100}) && Sharing([small], [large], [large], {}, 0, 1)
    ensures !Mapped([small], {}) && small.addr !in Kept([small], [large], 1)
    ensures Stray([small], large, {})
  {
    assert Addrs([small], 1) == {100} by { assert [small][0].addr in Addrs([small], 1); }
    SharingInit([small], [large], {100});
    SharingFree([small], [large], [large], {100}, 0, 0);
    assert {100} - {small.addr} == {};
    assert small.addr in Addrs([small], 1);
    assert Replaces([large][0], [small][0]);
  }

  /** A declaration is refused, or is about the zone at a place. */
  datatype Added = Refused | At(place: nat)

  class Declarations {
    var zones: seq<Zone>

    constructor ()
      ensures zones == []
    {
      zones := [];
    }

    /** Declares a zone or refers to one; size 0 refers to one declared elsewhere. `memory` is whether the list can
        grow. */
    method SharedMemoryAdd(name: string, size: nat, tag: int, memory: bool) returns (r: Added)
      requires Unique(zones)
      modifies this
      ensures Unique(zones)
      ensures r.At? ==> r.place < |zones| && zones[r.place].name == name && zones[r.place].tag == tag
      ensures r.At? && size != 0 ==> zones[r.place].size == size
      ensures |zones| == |old(zones)| ||
        (r == At(|old(zones)|) && !Declared(old(zones), name) &&
         zones == old(zones) + [Zone(name, size, tag, false, NONE)])
      ensures |zones| == |old(zones)| ==> forall i :: 0 <= i < |zones| ==> (
        if zones[i].name == name && zones[i].tag == tag && old(zones[i].size) == 0
        then zones[i] == old(zones[i]).(size := size) else zones[i] == old(zones[i]))
      ensures r == Refused <==> (
        if Declared(old(zones), name)
        then !(exists i :: 0 <= i < |old(zones)| && Agrees(old(zones[i]), name, size, tag)) else !memory)
    {
      var i := 0;
      while i < |zones|
        invariant 0 <= i <= |zones| && zones == old(zones)
        invariant forall j :: 0 <= j < i ==> zones[j].name != name
      {
        if zones[i].name == name {
          if tag != zones[i].tag {
            return Refused;
          }
          if zones[i].size == 0 {
            zones := zones[i := zones[i].(size := size)];
          }
          if size != 0 && size != zones[i].size {
            return Refused;
          }
          assert Agrees(old(zones[i]), name, size, tag);
          return At(i);
        }
        i := i + 1;
      }
      if !memory {
        return Refused;
      }
      zones := zones + [Zone(name, size, tag, false, NONE)];
      return At(i);
    }
  }

  predicate Declared(zones: seq<Zone>, name: string) {
    exists i :: 0 <= i < |zones| && zones[i].name == name
  }

  /** Can a declaration be about this zone? */
  predicate Agrees(z: Zone, name: string, size: nat, tag: int) {
    z.name == name && z.tag == tag && (size == 0 || z.size == 0 || z.size == size)
  }
}
