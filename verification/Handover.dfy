/** Which listening sockets a new configuration takes over from the old one. */
module Handover {
  import opened Common
  import opened Sockaddrs

  /** A listening socket; `previous` is the place in the old configuration of the socket it was taken from. */
  datatype Listening = Listening(sockaddr: Sockaddr, fd: int, backlog: int, ignore: bool, remain: bool, open: bool,
                                 listen: bool, previous: int)

  function Where(l: Listening): Endpoint { Identity(l.sockaddr, true) }

  /** How many sockets of the old configuration before `i` can be taken over at an address. */
  function Offered(was: seq<Listening>, i: nat, e: Endpoint): (k: nat)
    requires i <= |was|
  {
    if i == 0 then 0 else Offered(was, i - 1, e) + if !was[i - 1].ignore && Where(was[i - 1]) == e then 1 else 0
  }

  /** How many sockets of the new configuration before `n` are at an address. */
  function Wanted(now: seq<Listening>, n: nat, e: Endpoint): (k: nat)
    requires n <= |now|
  {
    if n == 0 then 0 else Wanted(now, n - 1, e) + if Where(now[n - 1]) == e then 1 else 0
  }

  /** Is `p` the socket that the `n`-th one takes over? At each address they pair up in order. */
  predicate Heir(was: seq<Listening>, now: seq<Listening>, n: nat, p: int)
    requires n < |now|
  {
    var e := Where(now[n]);
    if p == NONE then Offered(was, |was|, e) <= Wanted(now, n, e)
    else 0 <= p < |was| && !was[p].ignore && Where(was[p]) == e && Offered(was, p, e) == Wanted(now, n, e)
  }

  /** Is the `i`-th old socket taken over by one of the first `n` new ones? */
  predicate Taken(was: seq<Listening>, i: nat, now: seq<Listening>, n: nat)
    requires i < |was| && n <= |now|
  {
    !was[i].ignore && Offered(was, i, Where(was[i])) < Wanted(now, n, Where(was[i]))
  }

  lemma {:induction false} OfferedGrows(was: seq<Listening>, i: nat, j: nat, e: Endpoint)
    requires i <= j <= |was|
    ensures Offered(was, i, e) <= Offered(was, j, e)
    ensures i < j && !was[i].ignore && Where(was[i]) == e ==> Offered(was, i, e) < Offered(was, j, e)
  {
    if i < j { OfferedGrows(was, i, j - 1, e); }
  }

  lemma {:induction false} WantedGrows(now: seq<Listening>, m: nat, n: nat, e: Endpoint)
    requires m <= n <= |now|
    ensures Wanted(now, m, e) <= Wanted(now, n, e)
    ensures m < n && Where(now[m]) == e ==> Wanted(now, m, e) < Wanted(now, n, e)
  {
    if m < n { WantedGrows(now, m, n - 1, e); }
  }

  /** No socket is taken over twice, and none is left when it is wanted. */
  lemma HeirUnique(was: seq<Listening>, now: seq<Listening>, n: nat, m: nat, p: int, q: int)
    requires n < |now| && m < |now| && Heir(was, now, n, p) && Heir(was, now, m, q)
    ensures n == m ==> p == q
    ensures p == q != NONE ==> n == m
  {
    var e := Where(now[n]);
    if n == m {
      if p != NONE { OfferedGrows(was, p, |was|, e); }
      if q != NONE { OfferedGrows(was, q, |was|, e); }
      if NONE != p < q { OfferedGrows(was, p, q, e); }
      if NONE != q < p { OfferedGrows(was, q, p, e); }
    } else if p == q != NONE {
      if n < m { WantedGrows(now, n, m, e); } else { WantedGrows(now, m, n, e); }
    }
  }

  /** A socket is marked as taken exactly when one of the new ones takes it. */
  lemma {:induction false} TakenByOne(was: seq<Listening>, i: nat, now: seq<Listening>, n: nat)
    requires i < |was| && n <= |now|
    ensures Taken(was, i, now, n) <==> exists m: nat :: m < n && Heir(was, now, m, i)
  {
    var e := Where(was[i]);
    if n > 0 {
      TakenByOne(was, i, now, n - 1);
      WantedGrows(now, n - 1, n, e);
      if Taken(was, i, now, n) && !Taken(was, i, now, n - 1) {
        assert Heir(was, now, n - 1, i);
      }
      if Heir(was, now, n - 1, i) {
        assert Taken(was, i, now, n);
      }
    }
  }

  function Min(a: nat, b: nat): nat { if a <= b then a else b }

  /** How many of the sockets before `i` at an address are marked as taken over. */
  function Marked(was: seq<Listening>, i: nat, e: Endpoint): nat
    requires i <= |was|
  {
    if i == 0 then 0 else Marked(was, i - 1, e) + if was[i - 1].remain && Where(was[i - 1]) == e then 1 else 0
  }

  /** At each address as many sockets are taken over as both configurations have. */
  lemma {:induction false} MarkedCount(was: seq<Listening>, now: seq<Listening>, after: seq<Listening>, i: nat,
                                       e: Endpoint)
    requires i <= |was| == |after|
    requires forall j: nat :: j < |was| ==>
      after[j].remain == Taken(was, j, now, |now|) && after[j].sockaddr == was[j].sockaddr
    ensures Marked(after, i, e) == Min(Offered(was, i, e), Wanted(now, |now|, e))
  {
    hide Wanted, Identity, Taken;
    if i > 0 {
      MarkedCount(was, now, after, i - 1, e);
      MarkedStep(was, now, after[i - 1], i - 1, e);
    }
  }

  lemma MarkedStep(was: seq<Listening>, now: seq<Listening>, after: Listening, i: nat, e: Endpoint)
    requires i < |was| && after.remain == Taken(was, i, now, |now|) && after.sockaddr == was[i].sockaddr
    ensures var w := Wanted(now, |now|, e);
      Min(Offered(was, i + 1, e), w) == Min(Offered(was, i, e), w) + if after.remain && Where(after) == e then 1 else 0
  {
    hide Wanted, Identity;
  }

  /** The search for a socket to take over: the first one at the address that is not taken yet. */
  lemma FirstFree(was: seq<Listening>, now: seq<Listening>, n: nat, p: nat)
    requires n < |now| && p <= |was|
    requires forall j: nat :: j < p && !was[j].ignore && Where(was[j]) == Where(now[n]) ==> Taken(was, j, now, n)
    ensures p < |was| && !was[p].ignore && Where(was[p]) == Where(now[n]) && !Taken(was, p, now, n) ==>
      Heir(was, now, n, p)
    ensures p == |was| ==> Heir(was, now, n, NONE)
  {
    OfferedAllTaken(was, now, n, p, Where(now[n]));
  }

  lemma {:induction false} OfferedAllTaken(was: seq<Listening>, now: seq<Listening>, n: nat, p: nat, e: Endpoint)
    requires n <= |now| && p <= |was|
    requires forall j: nat :: j < p && !was[j].ignore && Where(was[j]) == e ==> Taken(was, j, now, n)
    ensures Offered(was, p, e) <= Wanted(now, n, e)
  {
    if p > 0 {
      OfferedAllTaken(was, now, n, p - 1, e);
    }
  }

  /** Taking over one socket marks this one and no other. */
  lemma TakenStep(was: seq<Listening>, i: nat, now: seq<Listening>, n: nat, p: int)
    requires i < |was| && n < |now| && Heir(was, now, n, p)
    ensures Taken(was, i, now, n + 1) <==> Taken(was, i, now, n) || i == p
  {
    if Heir(was, now, n, i) { HeirUnique(was, now, n, n, i, p); }
    if p == NONE { OfferedGrows(was, i, |was|, Where(was[i])); }
  }

  /** A new socket that takes over an old one, or none. */
  function Inherit(was: seq<Listening>, l: Listening, p: int): Listening
    requires p == NONE || 0 <= p < |was|
  {
    var fd := if p == NONE then l.fd else was[p].fd;
    l.(fd := fd, previous := p, listen := l.listen || (p != NONE && was[p].backlog != l.backlog), open := fd == NONE)
  }

  /** A socket as the configuration declares it. */
  predicate Fresh(l: Listening) { l.fd == NONE && l.previous == NONE && !l.open }

  /** The first `n` new sockets have taken over what they can. */
  ghost predicate Matched(was: seq<Listening>, old_: seq<Listening>, decl: seq<Listening>, now: seq<Listening>,
                          n: nat) {
    && |old_| == |was| && |now| == |decl| && n <= |decl|
    && (forall i :: 0 <= i < |was| ==> old_[i] == was[i].(remain := Taken(was, i, decl, n)))
    && (forall m :: 0 <= m < n ==>
          Heir(was, decl, m, now[m].previous) && now[m] == Inherit(was, decl[m], now[m].previous))
    && (forall m :: n <= m < |decl| ==> now[m] == decl[m])
  }

  lemma MatchedInit(was: seq<Listening>, old_: seq<Listening>, decl: seq<Listening>)
    requires |old_| == |was| && forall i :: 0 <= i < |was| ==> old_[i] == was[i].(remain := false)
    ensures Matched(was, old_, decl, decl, 0)
  {
  }

  lemma MatchedSizes(was: seq<Listening>, old_: seq<Listening>, decl: seq<Listening>, now: seq<Listening>, n: nat)
    requires Matched(was, old_, decl, now, n)
    ensures |old_| == |was| && |now| == |decl| && n <= |decl|
  {
  }

  lemma MatchedStep(was: seq<Listening>, old_: seq<Listening>, decl: seq<Listening>, now: seq<Listening>, n: nat,
                    p: int)
    requires n < |decl| && Matched(was, old_, decl, now, n) && Heir(was, decl, n, p)
    ensures Matched(was, if p == NONE then old_ else old_[p := old_[p].(remain := true)], decl,
                    now[n := Inherit(was, decl[n], p)], n + 1)
  {
    forall i | 0 <= i < |was| ensures Taken(was, i, decl, n + 1) <==> Taken(was, i, decl, n) || i == p {
      TakenStep(was, i, decl, n, p);
    }
  }

  /** With nothing to take over, all sockets are to be opened. */
  lemma MatchedNothing(decl: seq<Listening>, now: seq<Listening>)
    requires |now| == |decl| && forall m :: 0 <= m < |decl| ==> Fresh(decl[m]) && now[m] == decl[m].(open := true)
    ensures Matched([], [], decl, now, |decl|)
  {
  }

  /** The descriptors of the first `n` sockets. */
  ghost function Fds(l: seq<Listening>, n: nat): (s: set<int>)
    requires n <= |l|
  {
    set i: nat | i < n && l[i].fd != NONE :: l[i].fd
  }

  ghost predicate OneEach(l: seq<Listening>) {
    forall i, j :: 0 <= i < j < |l| && l[i].fd != NONE ==> l[i].fd != l[j].fd
  }

  /** The sockets of a configuration in use: every descriptor belongs to one, and there are no others. */
  ghost predicate InUse(l: seq<Listening>, sockets: set<int>) {
    OneEach(l) && sockets == Fds(l, |l|)
  }

  predicate NewOne(from: seq<Listening>, now: seq<Listening>, n: int)
    requires 0 <= n < |from| == |now|
  {
    from[n].fd == NONE != now[n].fd
  }

  ghost function NewFds(from: seq<Listening>, now: seq<Listening>): (s: set<int>)
    requires |from| == |now|
  {
    set n: nat | n < |from| && NewOne(from, now, n) :: now[n].fd
  }

  /** Some of the sockets that were to be opened have been, each with a descriptor of its own. */
  ghost predicate Opened(from: seq<Listening>, now: seq<Listening>, before: set<int>, sockets: set<int>) {
    && |now| == |from| && sockets == before + NewFds(from, now)
    && (forall n :: 0 <= n < |from| ==>
          now[n] == if NewOne(from, now, n) then from[n].(fd := now[n].fd, listen := true) else from[n])
    && (forall n :: 0 <= n < |from| && NewOne(from, now, n) ==> now[n].fd !in before)
    && (forall n, m :: 0 <= n < m < |from| && NewOne(from, now, n) && NewOne(from, now, m) ==> now[n].fd != now[m].fd)
  }

  lemma OpenedInit(from: seq<Listening>, sockets: set<int>)
    ensures Opened(from, from, sockets, sockets)
  {
  }

  lemma OpenedStep(from: seq<Listening>, now: seq<Listening>, before: set<int>, sockets: set<int>, n: nat, fd: int)
    requires Opened(from, now, before, sockets) && n < |now| && now[n].fd == NONE != fd && fd !in sockets
    ensures Opened(from, now[n := now[n].(fd := fd, listen := true)], before, sockets + {fd})
  {
    var next := now[n := now[n].(fd := fd, listen := true)];
    forall m | 0 <= m < |from| && m != n ensures NewOne(from, next, m) <==> NewOne(from, now, m) {}
    forall m: nat | m < |from| && NewOne(from, now, m) ensures now[m].fd in NewFds(from, now) {}
    assert NewOne(from, next, n);
    assert NewFds(from, next) == NewFds(from, now) + {fd};
  }

  /** The descriptors of the first `n` old sockets that are not taken over. */
  ghost function Unwanted(old_: seq<Listening>, n: nat): (s: set<int>)
    requires n <= |old_|
  {
    set i: nat | i < n && !old_[i].remain && old_[i].fd != NONE :: old_[i].fd
  }

  lemma UnwantedStep(old_: seq<Listening>, n: nat)
    requires OneEach(old_) && n < |old_|
    ensures Unwanted(old_, n + 1) ==
      Unwanted(old_, n) + if old_[n].remain || old_[n].fd == NONE then {} else {old_[n].fd}
    ensures old_[n].fd !in Unwanted(old_, n)
  {
  }

  /** The descriptors of the first `n` sockets that were to be opened. */
  ghost function ToOpen(l: seq<Listening>, n: nat): (s: set<int>)
    requires n <= |l|
  {
    set i: nat | i < n && l[i].open && l[i].fd != NONE :: l[i].fd
  }

  ghost predicate OpenApart(l: seq<Listening>) {
    forall i, j :: 0 <= i < j < |l| && l[i].open && l[j].open && l[i].fd != NONE ==> l[i].fd != l[j].fd
  }

  lemma ToOpenStep(l: seq<Listening>, n: nat)
    requires n < |l| && OpenApart(l)
    ensures ToOpen(l, n + 1) == ToOpen(l, n) + if l[n].open && l[n].fd != NONE then {l[n].fd} else {}
    ensures l[n].open && l[n].fd != NONE ==> l[n].fd !in ToOpen(l, n)
  {
  }

  /** Closing the unwanted ones leaves the sockets of the new configuration: every old socket has been taken over by
      one new socket, or closed. */
  lemma Committed(was: seq<Listening>, old_: seq<Listening>, decl: seq<Listening>, from: seq<Listening>,
                  now: seq<Listening>, before: set<int>, sockets: set<int>)
    requires InUse(was, before) && (forall m :: 0 <= m < |decl| ==> Fresh(decl[m]))
    requires Matched(was, old_, decl, from, |decl|) && Opened(from, now, before, sockets)
    ensures InUse(now, sockets - Unwanted(old_, |old_|))
  {
    FromOld(was, old_, decl, from);
    var left := sockets - Unwanted(old_, |old_|);
    forall i: nat | i < |was| && was[i].fd != NONE && old_[i].remain ensures was[i].fd in Fds(now, |now|) {
      TakenByOne(was, i, decl, |decl|);
      var m: nat :| m < |decl| && Heir(was, decl, m, i);
      HeirUnique(was, decl, m, m, i, from[m].previous);
      assert now[m].fd == was[i].fd;
    }
    forall n: nat | n < |now| && NewOne(from, now, n)
      ensures now[n].fd in Fds(now, |now|) && now[n].fd !in Unwanted(old_, |old_|)
    {
      forall i: nat | i < |was| && was[i].fd != NONE ensures was[i].fd in before {}
    }
    forall n: nat | n < |now| && now[n].fd != NONE ensures now[n].fd in left {
      if NewOne(from, now, n) {
        assert now[n].fd in NewFds(from, now);
      }
    }
    OneEachNow(was, old_, decl, from, now, before, sockets);
    assert left == Fds(now, |now|);
  }

  /** Every new socket that takes over an open one has its descriptor, and the old ones are marked accordingly. */
  ghost predicate Handed(was: seq<Listening>, old_: seq<Listening>, decl: seq<Listening>, now: seq<Listening>) {
    && |old_| == |was| && |now| == |decl|
    && (forall i :: 0 <= i < |was| ==> old_[i] == was[i].(remain := Taken(was, i, decl, |decl|)))
    && (forall n :: 0 <= n < |now| ==> Heir(was, decl, n, now[n].previous))
    && (forall n :: 0 <= n < |now| && now[n].previous != NONE && was[now[n].previous].fd != NONE ==>
          now[n].fd == was[now[n].previous].fd)
    && (forall n :: 0 <= n < |now| && now[n].previous != NONE ==> Follows(was[now[n].previous], decl[n], now[n]))
  }

  /** The old socket is at the same host and port, or the same path; with another backlog it is listened on again. */
  predicate Follows(old_: Listening, decl: Listening, now: Listening) {
    && SamePlace(old_.sockaddr, decl.sockaddr, true) && !old_.ignore && now.sockaddr == decl.sockaddr
    && (old_.backlog != decl.backlog || decl.listen ==> now.listen)
  }

  lemma HandedOver(was: seq<Listening>, old_: seq<Listening>, decl: seq<Listening>, from: seq<Listening>,
                   now: seq<Listening>, before: set<int>, sockets: set<int>)
    requires Matched(was, old_, decl, from, |decl|) && Opened(from, now, before, sockets)
    ensures Handed(was, old_, decl, now)
  {
    forall n | 0 <= n < |now| ensures Heir(was, decl, n, now[n].previous) {
      assert now[n].previous == from[n].previous;
    }
    forall n | 0 <= n < |now| && now[n].previous != NONE ensures Follows(was[now[n].previous], decl[n], now[n]) {
      var p := now[n].previous;
      assert p == from[n].previous && from[n] == Inherit(was, decl[n], p);
      IdentityIs(was[p].sockaddr, decl[n].sockaddr, true);
    }
  }

  /** What a new socket has before the opening is the descriptor of the old one it takes over. */
  lemma FromOld(was: seq<Listening>, old_: seq<Listening>, decl: seq<Listening>, from: seq<Listening>)
    requires OneEach(was) && Matched(was, old_, decl, from, |decl|) && (forall m :: 0 <= m < |decl| ==> Fresh(decl[m]))
    ensures forall m: nat :: m < |from| && from[m].fd != NONE ==>
      from[m].fd in Fds(was, |was|) && from[m].fd !in Unwanted(old_, |old_|) && !from[m].open
    ensures forall m :: 0 <= m < |from| && from[m].fd == NONE ==> from[m].open
    ensures OneEach(from)
  {
    hide Offered, Wanted, Identity, Taken;
    forall m: nat | m < |from| && from[m].fd != NONE
      ensures from[m].fd in Fds(was, |was|) && from[m].fd !in Unwanted(old_, |old_|)
    {
      var p := from[m].previous;
      TakenByOne(was, p, decl, |decl|);
      assert old_[p].remain;
    }
    forall m, n | 0 <= m < n < |from| && from[m].fd != NONE ensures from[m].fd != from[n].fd {
      var p, q := from[m].previous, from[n].previous;
      if p == q { HeirUnique(was, decl, m, n, p, q); }
    }
  }

  lemma OneEachNow(was: seq<Listening>, old_: seq<Listening>, decl: seq<Listening>, from: seq<Listening>,
                   now: seq<Listening>, before: set<int>, sockets: set<int>)
    requires InUse(was, before) && (forall m :: 0 <= m < |decl| ==> Fresh(decl[m]))
    requires Matched(was, old_, decl, from, |decl|) && Opened(from, now, before, sockets)
    ensures OneEach(now)
  {
    FromOld(was, old_, decl, from);
    forall m, n | 0 <= m < n < |now| && now[m].fd != NONE ensures now[m].fd != now[n].fd {
      assert NewOne(from, now, m) || now[m].fd == from[m].fd;
      assert NewOne(from, now, n) || now[n].fd == from[n].fd;
    }
  }

  /** Closing what was opened leaves the sockets of the old configuration. */
  lemma RolledBack(was: seq<Listening>, old_: seq<Listening>, decl: seq<Listening>, from: seq<Listening>,
                   now: seq<Listening>, before: set<int>, sockets: set<int>)
    requires InUse(was, before) && (forall m :: 0 <= m < |decl| ==> Fresh(decl[m]))
    requires Matched(was, old_, decl, from, |decl|) && Opened(from, now, before, sockets)
    ensures sockets - ToOpen(now, |now|) == before
    ensures OpenApart(now)
  {
    FromOld(was, old_, decl, from);
    OneEachNow(was, old_, decl, from, now, before, sockets);
    forall n | 0 <= n < |now| ensures NewOne(from, now, n) <==> now[n].open && now[n].fd != NONE {}
    assert ToOpen(now, |now|) == NewFds(from, now);
    assert ToOpen(now, |now|) !! before;
  }
}
