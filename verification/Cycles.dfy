/** Reloading a configuration: the new cycle takes over listening sockets and shared memory from the old one; then the
    rest of the old one is closed, or, when something failed, what the new one opened. */
module Cycles {
  import opened Common
  import opened Sockaddrs
  import opened Handover
  import Z = SharedZones

  ghost predicate Below(s: set<int>, b: int) { forall x :: x in s ==> x < b }

  lemma {:induction false} Bounded(s: set<int>)
    ensures exists b: nat :: Below(s, b)
    decreases s
  {
    if x :| x in s {
      Bounded(s - {x});
      var b: nat :| Below(s - {x}, b);
      var c: nat := if b <= x then x + 1 else b;
      assert Below(s, c) by {
        forall y | y in s ensures y < c { assert y == x || y in s - {x}; }
      }
    } else {
      assert Below(s, 0);
    }
  }

  lemma UnusedExists(s: set<int>)
    ensures exists x :: 0 <= x && x !in s
  {
    Bounded(s);
    var b: nat :| Below(s, b);
    assert b !in s;
  }

  /** The listening sockets and shared segments that exist. Every answer of the system is possible. */
  class Kernel {
    var sockets: set<int>
    var segments: set<int>
    /** How often a segment was to be unmapped that was not mapped. */
    ghost var strays: nat

    constructor ()
      ensures sockets == {} && segments == {} && strays == 0
    {
      sockets, segments, strays := {}, {}, 0;
    }

    /** A new socket bound to its address, or a failure; `inUse` says that the address was taken. */
    method Listen() returns (fd: int, inUse: bool)
      modifies this`sockets
      ensures fd == NONE ==> sockets == old(sockets)
      ensures fd != NONE ==> 0 <= fd && fd !in old(sockets) && sockets == old(sockets) + {fd}
    {
      var fails: bool := *;
      fd, inUse := NONE, *;
      if !fails {
        UnusedExists(sockets);
        fd :| 0 <= fd && fd !in sockets;
        sockets := sockets + {fd};
      }
    }

    method Close(fd: int)
      requires fd in sockets
      modifies this`sockets
      ensures sockets == old(sockets) - {fd}
    {
      sockets := sockets - {fd};
    }

    method Map() returns (addr: int)
      modifies this`segments
      ensures addr == NONE ==> segments == old(segments)
      ensures addr != NONE ==> 0 <= addr && addr !in old(segments) && segments == old(segments) + {addr}
    {
      var fails: bool := *;
      addr := NONE;
      if !fails {
        UnusedExists(segments);
        addr :| 0 <= addr && addr !in segments;
        segments := segments + {addr};
      }
    }

    method Unmap(addr: int)
      modifies this`segments, this`strays
      ensures segments == old(segments) - {addr}
      ensures strays == old(strays) + if addr in old(segments) then 0 else 1
    {
      strays := strays + if addr in segments then 0 else 1;
      segments := segments - {addr};
    }
  }

  class Cycle {
    var listening: seq<Listening>
    var zones: seq<Z.Zone>

    constructor (listening: seq<Listening>, zones: seq<Z.Zone>)
      ensures this.listening == listening && this.zones == zones
    {
      this.listening, this.zones := listening, zones;
    }

    /** Gives the `n`-th zone its segment. `done` and `gone` say how far this has come. `sound` says whether all
        segments of the old configuration were mapped, which they need not be after a reload that failed. */
    method ShareZone(was: seq<Z.Zone>, k: Kernel, n: nat, ghost decl: seq<Z.Zone>, ghost sound: bool)
      returns (ok: bool, ghost done: nat, ghost gone: nat)
      requires n < |zones| == |decl|
      requires sound ==> Z.Unique(was) && Z.Apart(was, |was|) && Z.Unique(decl)
      requires sound ==> Z.Sharing(was, decl, zones, k.segments, n, n)
      modifies this`zones, k`segments, k`strays
      ensures |zones| == |old(zones)| && n <= done <= gone <= n + 1 && (ok ==> done == n + 1 && zones[n].size > 0)
      ensures sound ==> Z.Sharing(was, decl, zones, k.segments, done, gone) && k.strays == old(k.strays)
      ensures done == n + 1 ==> Z.Settles(was, old(zones[n]), zones[n].addr, old(k.segments), k.segments)
      ensures k.strays == old(k.strays) + if Z.Stray(was, old(zones[n]), old(k.segments)) then 1 else 0
    {
      hide Z.Sharing, Z.Unique, Z.Apart;
      done, gone := n, n;
      if sound { Z.SharingIs(was, decl, zones, k.segments, n, n); }
      if zones[n].size == 0 {
        return false, done, gone;
      }
      var p := 0;
      while p < |was| && was[p].name != zones[n].name
        invariant 0 <= p <= |was| && forall q :: 0 <= q < p ==> was[q].name != zones[n].name
      {
        p := p + 1;
      }
      ok := *;
      if p < |was| {
        if was[p].tag == zones[n].tag && was[p].size == zones[n].size && !zones[n].noreuse {
          if sound { Z.SharingReuse(was, decl, zones, k.segments, n, p); }
          zones := zones[n := zones[n].(addr := was[p].addr)];
          return ok, n + 1, n + 1;
        }
        if sound {
          Z.OldIsThere(was, decl, zones, k.segments, n, p);
          Z.SharingFree(was, decl, zones, k.segments, n, p);
        }
        k.Unmap(was[p].addr);
      } else if sound {
        Z.SharingOther(was, decl, zones, k.segments, n);
      }
      gone := n + 1;
      var addr := k.Map();
      if addr == NONE {
        return false, done, gone;
      }
      if sound {
        Z.SharingNew(was, decl, zones, k.segments - {addr}, n, addr);
        assert k.segments - {addr} + {addr} == k.segments;
      }
      zones := zones[n := zones[n].(addr := addr)];
      done := n + 1;
    }

    method ShareZones(was: seq<Z.Zone>, k: Kernel, ghost sound: bool)
      returns (ok: bool, ghost done: nat, ghost gone: nat)
      requires sound ==> Z.Mapped(was, k.segments) && Z.Unique(zones)
      modifies this`zones, k`segments, k`strays
      ensures |zones| == |old(zones)| && done <= gone <= done + 1 && gone <= |zones|
      ensures ok ==> done == gone == |zones|
      ensures sound ==> Z.Sharing(was, old(zones), zones, k.segments, done, gone) && k.strays == old(k.strays)
    {
      ghost var decl := zones;
      if sound { Z.SharingInit(was, decl, k.segments); }
      hide Z.Sharing, Z.Unique, Z.Apart;
      done, gone := 0, 0;
      var n := 0;
      while n < |zones|
        invariant |zones| == |decl| && 0 <= n <= |decl| && done == gone == n
        invariant sound ==> Z.Sharing(was, decl, zones, k.segments, n, n) && k.strays == old(k.strays)
      {
        ok, done, gone := ShareZone(was, k, n, decl, sound);
        if !ok { return; }
        n := n + 1;
      }
      ok := true;
    }

    /** Takes over a socket for the `n`-th one of the new configuration: the first of the old ones at the address that
        has not been taken. */
    method TakeOver(from: Cycle, n: nat, ghost was: seq<Listening>, ghost decl: seq<Listening>)
      requires from != this && n < |listening| && Matched(was, from.listening, decl, listening, n) && Fresh(decl[n])
      modifies this`listening, from`listening
      ensures Matched(was, from.listening, decl, listening, n + 1)
    {
      hide Heir, Taken, Identity;
      var i := 0;
      ghost var p := NONE;
      ghost var l0, o0 := listening, from.listening;
      while i < |from.listening|
        invariant 0 <= i <= |was| && p == NONE && listening == l0 && from.listening == o0
        invariant forall j: nat :: j < i && !was[j].ignore && Where(was[j]) == Where(decl[n]) ==> Taken(was, j, decl, n)
      {
        var l := from.listening[i];
        if !l.ignore && !l.remain && CmpSockaddr(listening[n].sockaddr, l.sockaddr, true) {
          var listen := listening[n].listen || l.backlog != listening[n].backlog;
          listening := listening[n := listening[n].(fd := l.fd, previous := i, listen := listen)];
          from.listening := from.listening[i := l.(remain := true)];
          p := i;
          break;
        }
        i := i + 1;
      }
      FirstFree(was, decl, n, i);
      MatchedStep(was, o0, decl, l0, n, p);
      if listening[n].fd == NONE {
        listening := listening[n := listening[n].(open := true)];
      }
      assert listening == l0[n := Inherit(was, decl[n], p)];
    }

    method TakeOverAll(from: Cycle)
      requires from != this && forall m :: 0 <= m < |listening| ==> Fresh(listening[m])
      modifies this`listening, from`listening
      ensures Matched(old(from.listening), from.listening, old(listening), listening, |listening|)
    {
      hide Matched;
      ghost var was, decl := from.listening, listening;
      if |from.listening| > 0 {
        from.listening := seq(|from.listening|, i requires 0 <= i < |from.listening| reads from =>
          from.listening[i].(remain := false));
        MatchedInit(was, from.listening, decl);
        var n := 0;
        while n < |listening|
          invariant 0 <= n <= |listening| == |decl| && Matched(was, from.listening, decl, listening, n)
        {
          MatchedSizes(was, from.listening, decl, listening, n);
          TakeOver(from, n, was, decl);
          MatchedSizes(was, from.listening, decl, listening, n + 1);
          n := n + 1;
        }
      } else {
        listening := seq(|listening|, i requires 0 <= i < |listening| reads this => listening[i].(open := true));
        MatchedNothing(decl, listening);
        assert was == [] && from.listening == [];
      }
    }

    /** Opens the sockets that have no descriptor; those whose address is in use are tried again, five times in all. */
    method OpenListeningSockets(k: Kernel) returns (ok: bool)
      modifies this`listening, k`sockets
      ensures Opened(old(listening), listening, old(k.sockets), k.sockets)
      ensures ok ==> forall n :: 0 <= n < |listening| && !listening[n].ignore ==> listening[n].fd != NONE
    {
      ghost var from, before := listening, k.sockets;
      OpenedInit(from, before);
      var tries := 5;
      var failed := true;
      while tries > 0
        invariant Opened(from, listening, before, k.sockets)
      {
        failed := false;
        var n := 0;
        while n < |listening|
          invariant 0 <= n <= |listening| && Opened(from, listening, before, k.sockets)
          invariant !failed ==> forall m :: 0 <= m < n && !listening[m].ignore ==> listening[m].fd != NONE
        {
          if !listening[n].ignore && listening[n].fd == NONE {
            ghost var s := k.sockets;
            var fd, inUse := k.Listen();
            if fd != NONE {
              OpenedStep(from, listening, before, s, n, fd);
              listening := listening[n := listening[n].(fd := fd, listen := true)];
            } else if inUse {
              failed := true;
            } else {
              return false;
            }
          }
          n := n + 1;
        }
        if !failed { break; }
        tries := tries - 1;
      }
      ok := !failed;
    }

    /** Frees the zones of the old configuration whose name is gone. */
    method FreeZones(was: seq<Z.Zone>, k: Kernel, ghost decl: seq<Z.Zone>, ghost sound: bool)
      requires sound ==> Z.Unique(was) && Z.Apart(was, |was|) && Z.Unique(decl)
      requires sound ==> Z.Sharing(was, decl, zones, k.segments, |decl|, |decl|)
      modifies k`segments, k`strays
      ensures sound ==> Z.Mapped(zones, k.segments) && k.strays == old(k.strays)
    {
      ghost var s := k.segments;
      if sound {
        Z.SharingDone(was, decl, zones, s);
        Z.SharingIs(was, decl, zones, s, |decl|, |decl|);
      }
      hide Z.Sharing, Z.Unique, Z.Apart, Z.Mapped, Z.Named;
      var i := 0;
      while i < |was|
        invariant 0 <= i <= |was|
        invariant sound ==> k.segments == s - Z.Dropped(was, decl, i) && k.strays == old(k.strays)
      {
        var n := 0;
        while n < |zones| && zones[n].name != was[i].name
          invariant 0 <= n <= |zones| && forall j :: 0 <= j < n ==> zones[j].name != was[i].name
        {
          n := n + 1;
        }
        if sound {
          Z.NamedIs(was, i, decl, n);
          Z.DroppedStep(was, decl, i);
          if n == |zones| { Z.DroppedIsThere(was, decl, zones, s, i); }
        }
        if n == |zones| {
          k.Unmap(was[i].addr);
        }
        i := i + 1;
      }
    }

    /** Closes the sockets that were not taken over. */
    method CloseUnwanted(k: Kernel)
      requires OneEach(listening) && Unwanted(listening, |listening|) <= k.sockets
      modifies k`sockets
      ensures k.sockets == old(k.sockets) - Unwanted(listening, |listening|)
    {
      var i := 0;
      while i < |listening|
        invariant 0 <= i <= |listening| && k.sockets == old(k.sockets) - Unwanted(listening, i)
      {
        UnwantedStep(listening, i);
        if !listening[i].remain && listening[i].fd != NONE {
          k.Close(listening[i].fd);
        }
        i := i + 1;
      }
    }

    /** Closes the sockets that were opened for this configuration. */
    method Rollback(k: Kernel)
      requires ToOpen(listening, |listening|) <= k.sockets
      requires OpenApart(listening)
      modifies k`sockets
      ensures k.sockets == old(k.sockets) - ToOpen(listening, |listening|)
    {
      var i := 0;
      while i < |listening|
        invariant 0 <= i <= |listening| && k.sockets == old(k.sockets) - ToOpen(listening, i)
      {
        ToOpenStep(listening, i);
        if listening[i].fd != NONE && listening[i].open {
          k.Close(listening[i].fd);
        }
        i := i + 1;
      }
    }

    /** Reloads: `was` is the configuration in use. The sockets are right whether it succeeds or fails; the segments are
        if they were before and it succeeds. When it fails, the old configuration has lost the segments that have been
        replaced, and those of the new one stay mapped. */
    method InitCycle(was: Cycle, k: Kernel) returns (ok: bool, ghost done: nat, ghost gone: nat)
      requires was != this && InUse(was.listening, k.sockets)
      requires Z.Unique(zones) && forall m :: 0 <= m < |listening| ==> Fresh(listening[m])
      modifies this, was`listening, k
      ensures if ok then InUse(listening, k.sockets) else k.sockets == old(k.sockets)
      ensures !ok ==> InUse(was.listening, k.sockets)
      ensures ok ==> forall n :: 0 <= n < |listening| && !listening[n].ignore ==> listening[n].fd != NONE
      ensures ok ==> Handed(old(was.listening), was.listening, old(listening), listening)
      ensures old(Z.Mapped(was.zones, k.segments)) ==> k.strays == old(k.strays)
      ensures old(Z.Mapped(was.zones, k.segments)) && ok ==>
        Z.Mapped(zones, k.segments) && Z.Shared(was.zones, old(zones), zones, |zones|)
      ensures old(Z.Mapped(was.zones, k.segments)) && !ok ==>
        && Z.Sharing(was.zones, old(zones), zones, k.segments, done, gone)
        && Z.Addrs(zones, done) <= k.segments
        && forall p: nat :: p < |was.zones| ==>
             (Z.Owns(was.zones, p, old(zones), zones, k.segments, done) <==>
                !Z.Replaced(was.zones, p, old(zones), gone))
    {
      ghost var l0, decl, z0, s0 := was.listening, listening, zones, k.sockets;
      ghost var sound := Z.Mapped(was.zones, k.segments);
      ok, done, gone := ShareZones(was.zones, k, sound);
      if ok {
        TakeOverAll(was);
        ghost var from := listening;
        ok := OpenListeningSockets(k);
        if ok {
          FreeZones(was.zones, k, z0, sound);
          Committed(l0, was.listening, decl, from, listening, s0, k.sockets);
          HandedOver(l0, was.listening, decl, from, listening, s0, k.sockets);
          was.CloseUnwanted(k);
          return;
        }
        RolledBack(l0, was.listening, decl, from, listening, s0, k.sockets);
      }
      if sound { Z.OwnedIff(was.zones, z0, zones, k.segments, done, gone); }
      Rollback(k);
    }
  }
}
