/** The connection pool: a list of free slots threaded through the slots themselves, and a queue of connections that
    can be closed when no slot is free. */
module ConnectionPool {
  import opened Common

  /** A slot; `next` is the field that holds the link while the slot is free. */
  datatype Slot = Slot(fd: int, next: int, reusable: bool, close: bool, instance: bool)

  /** Is `list` the chain of slots that starts at `head`? */
  predicate Threaded(slots: seq<Slot>, head: int, list: seq<int>)
    decreases |list|
  {
    if list == [] then head == NONE
    else head == list[0] && 0 <= head < |slots| && Threaded(slots, slots[head].next, list[1..])
  }

  lemma {:induction false} ThreadedSame(s: seq<Slot>, t: seq<Slot>, head: int, list: seq<int>)
    requires Threaded(s, head, list) && |s| == |t|
    requires forall i :: 0 <= i < |s| && i in list ==> t[i].next == s[i].next
    ensures Threaded(t, head, list)
    decreases |list|
  {
    if list != [] {
      assert list[0] in list;
      forall i | 0 <= i < |s| && i in list[1..] ensures t[i].next == s[i].next {
        assert i in list;
      }
      ThreadedSame(s, t, s[head].next, list[1..]);
    }
  }

  /** Every slot is free, or in use for a descriptor of its own. The descriptor table, when there is one, knows
      exactly those in use. */
  ghost predicate Split(slots: seq<Slot>, files: seq<int>, freeList: seq<int>) {
    && Distinct(freeList)
    && (forall i :: i in freeList ==> 0 <= i < |slots|)
    && (forall i :: 0 <= i < |slots| && i !in freeList ==> 0 <= slots[i].fd)
    && (forall i, j :: 0 <= i < j < |slots| && i !in freeList && j !in freeList ==> slots[i].fd != slots[j].fd)
    && (|files| > 0 ==> Known(slots, files, freeList))
  }

  ghost predicate Known(slots: seq<Slot>, files: seq<int>, freeList: seq<int>) {
    && (forall i :: 0 <= i < |slots| && i !in freeList ==> 0 <= slots[i].fd < |files| && files[slots[i].fd] == i)
    && (forall f :: 0 <= f < |files| && files[f] != NONE ==>
          0 <= files[f] < |slots| && files[f] !in freeList && slots[files[f]].fd == f)
  }

  /** The mark on a slot says whether it is in the queue, and only slots in use are. */
  ghost predicate Queued(slots: seq<Slot>, queue: seq<int>, freeList: seq<int>) {
    && Distinct(queue)
    && (forall i :: i in queue ==> 0 <= i < |slots| && slots[i].reusable && i !in freeList)
    && (forall i :: 0 <= i < |slots| && slots[i].reusable ==> i in queue)
  }

  /** The queue begins with the connection marked last; `since` are the times of the marks. */
  ghost predicate Descending(queue: seq<int>, since: map<int, nat>, clock: nat) {
    && (forall i :: 0 <= i < |queue| ==> queue[i] in since && since[queue[i]] < clock)
    && (forall i, j :: 0 <= i < j < |queue| && queue[i] in since && queue[j] in since ==>
          since[queue[i]] > since[queue[j]])
  }

  /** Every connection that has left the queue was marked before every one that stays. */
  ghost predicate OldestLeft(before: seq<int>, after: seq<int>, since: map<int, nat>) {
    forall x, y :: x in before && x !in after && y in after ==> x in since && y in since && since[x] < since[y]
  }

  predicate OutOfRange(files: seq<int>, s: int) { |files| > 0 && s >= |files| }

  /** Is the descriptor that of a slot in use? */
  predicate Open(slots: seq<Slot>, freeList: seq<int>, fd: int) {
    exists i :: 0 <= i < |slots| && i !in freeList && slots[i].fd == fd
  }

  function Last(q: seq<int>): int requires q != [] { q[|q| - 1] }

  function Front(q: seq<int>): seq<int> requires q != [] { q[..|q| - 1] }

  /** Nothing in the queue can be closed next. */
  predicate Quiet(q: seq<int>, closing: set<int>) { q == [] || Last(q) !in closing }

  /** How many of the oldest connections draining closes. */
  function DrainCount(q: seq<int>, closing: set<int>, max: nat): (k: nat)
    ensures k <= max && k <= |q|
    decreases max
  {
    if max == 0 || Quiet(q, closing) then 0 else 1 + DrainCount(Front(q), closing, max - 1)
  }

  /** One pass of draining asks 32 times. */
  function Drainable(q: seq<int>, closing: set<int>): (k: nat)
    ensures k <= |q|
  {
    DrainCount(q, closing, 32)
  }

  predicate Marks(slots: seq<Slot>, i: int) { 0 <= i < |slots| && slots[i].close }

  /** A slot whose connection was asked to close and did. */
  predicate Emptied(old_: Slot, new_: Slot) {
    new_.fd == NONE && !new_.reusable && new_.close && new_.instance == old_.instance
  }

  /** The `k` connections longest in the queue `q0` have been closed, the oldest first, and their slots are free;
      all other slots are as they were, but the next one may have been asked to close. */
  ghost predicate Drained(s0: seq<Slot>, q0: seq<int>, l0: seq<int>, s: seq<Slot>, q: seq<int>, l: seq<int>,
                          closed: seq<int>, k: nat) {
    && |s| == |s0| && k <= |q0| && q == q0[..|q0| - k] && l == q0[|q0| - k..] + l0
    && |closed| == k && (forall j :: 0 <= j < k ==> HasFd(s0, q0[|q0| - 1 - j], closed[j]))
    && Swept(s0, s, q, q0[|q0| - k..])
  }

  ghost predicate Swept(s0: seq<Slot>, s: seq<Slot>, q: seq<int>, done: seq<int>)
    requires |s| == |s0|
  {
    && (forall i :: i in done ==> 0 <= i < |s| && Emptied(s0[i], s[i]))
    && (forall i :: 0 <= i < |s| && i !in done ==>
          s[i] == s0[i] || (q != [] && i == Last(q) && s[i] == s0[i].(close := true)))
  }

  predicate HasFd(slots: seq<Slot>, i: int, fd: int) { 0 <= i < |slots| && slots[i].fd == fd }

  /** The connection longest in the queue, if any, is marked and nothing else. */
  predicate Asked(s: seq<Slot>, t: seq<Slot>, q: seq<int>) {
    |t| == |s| && if q == [] then t == s else 0 <= Last(q) < |s| && t == s[Last(q) := s[Last(q)].(close := true)]
  }

  /** The next connection in the queue, if any, has been asked to close and did not. */
  predicate Stuck(slots: seq<Slot>, q: seq<int>, closing: set<int>) {
    Quiet(q, closing) && (q == [] || Marks(slots, Last(q)))
  }

  /** One round of draining, as the queue sees it. */
  predicate Asks(q: seq<int>, slots: seq<Slot>, r: seq<int>, closing: set<int>) {
    if Quiet(q, closing) then r == q && Stuck(slots, r, closing) else r == Front(q)
  }

  /** After `k` connections were closed, with `max` rounds to go. */
  ghost predicate Draining(q0: seq<int>, slots: seq<Slot>, q: seq<int>, closing: set<int>, k: nat, max: int) {
    && 0 <= max <= 32 && k + DrainCount(q, closing, max) == Drainable(q0, closing)
    && (k + max < 32 ==> Stuck(slots, q, closing))
  }

  /** The queue after a connection has been marked. */
  function Marked(queue: seq<int>, c: int, was: bool, reusable: bool): seq<int> {
    (if reusable then [c] else []) + (if was then Without(queue, c) else queue)
  }

  class Pool {
    var slots: seq<Slot>
    /** How many descriptors the table has room for; 0 when there is no table. */
    const descriptors: nat
    /** The slot of each descriptor. */
    var files: seq<int>
    var free: int
    var freeCount: nat
    /** Most recently marked first. */
    var queue: seq<int>
    ghost var freeList: seq<int>
    /** How many marks there have been, and which of them was each connection's last. */
    ghost var clock: nat
    ghost var since: map<int, nat>

    ghost predicate Valid()
      reads this
    {
      && Threaded(slots, free, freeList) && freeCount == |freeList| && |files| == descriptors
      && Split(slots, files, freeList) && Queued(slots, queue, freeList) && Descending(queue, since, clock)
    }

    /** All slots are free and threaded in order. */
    constructor (n: nat, descriptors: nat)
      ensures Valid() && |slots| == n && this.descriptors == descriptors && freeCount == n && queue == []
    {
      slots := seq(n, i => Slot(NONE, if i + 1 < n then i + 1 else NONE, false, false, true));
      this.descriptors := descriptors;
      files := seq(descriptors, _ => NONE);
      free := if n > 0 then 0 else NONE;
      freeCount, queue := n, [];
      freeList, clock, since := seq(n, i => i), 0, map[];
      new;
      forall i | 0 <= i < n ensures i in freeList { assert freeList[i] == i; }
      ThreadedInit(slots, 0, freeList);
    }

    /** Marks a connection as reusable or not. */
    method Reusable(c: int, reusable: bool)
      requires Valid() && 0 <= c < |slots| && c !in freeList
      modifies this`slots, this`queue, this`clock, this`since
      ensures Valid() && slots == old(slots)[c := old(slots[c]).(reusable := reusable)]
      ensures queue == Marked(old(queue), c, old(slots[c].reusable), reusable)
      ensures clock == old(clock) + (if reusable then 1 else 0)
      ensures since == if reusable then old(since)[c := old(clock)] else old(since)
    {
      hide Split, Queued, Distinct, Without, Descending;
      MarkDescends(slots, queue, freeList, c, reusable, since, clock);
      MarkKeeps(slots, files, queue, freeList, c, reusable);
      ThreadedSame(slots, slots[c := slots[c].(reusable := reusable)], free, freeList);
      if slots[c].reusable {
        queue := Without(queue, c);
      }
      slots := slots[c := slots[c].(reusable := reusable)];
      if reusable {
        queue := [c] + queue;
      }
      if reusable {
        since, clock := since[c := clock], clock + 1;
      }
      assert queue == Marked(old(queue), c, old(slots[c].reusable), reusable);
    }

    /** Puts a slot back at the front of the free list; its descriptor is not in the table any more. */
    method FreeConnection(c: int)
      requires Valid() && 0 <= c < |slots| && c !in freeList && !slots[c].reusable
      modifies this
      ensures Valid() && freeList == [c] + old(freeList) && queue == old(queue)
      ensures since == old(since) && clock == old(clock)
      ensures slots == old(slots)[c := old(slots[c]).(next := old(free))]
      ensures files == if |old(files)| > 0 then old(files)[old(slots[c]).fd := NONE] else []
    {
      ghost var s := slots;
      FreeKeeps(slots, files, queue, free, freeList, c);
      hide Split, Queued, Distinct;
      slots := slots[c := slots[c].(next := free)];
      free, freeCount := c, freeCount + 1;
      freeList := [c] + freeList;
      if |files| > 0 {
        files := files[slots[c].fd := NONE];
      }
    }

    /** Closes a connection; closing it again does nothing. `closed` is the descriptor that is closed. */
    method Close(c: int) returns (closed: int)
      requires Valid() && 0 <= c < |slots| && (slots[c].fd == NONE || c !in freeList)
      modifies this
      ensures Valid() && |slots| == |old(slots)| && since == old(since) && clock == old(clock)
      ensures old(slots[c].fd) == NONE ==>
        closed == NONE && slots == old(slots) && queue == old(queue) && freeList == old(freeList) && files == old(files)
      ensures old(slots[c].fd) != NONE ==>
        && closed == old(slots[c].fd) && slots[c] == old(slots[c]).(fd := NONE, reusable := false, next := old(free))
        && freeList == [c] + old(freeList) && queue == Marked(old(queue), c, old(slots[c].reusable), false)
        && files == if |files| > 0 then old(files)[closed := NONE] else []
      ensures forall i :: 0 <= i < |slots| && i != c ==> slots[i] == old(slots)[i]
    {
      hide Split, Queued, Distinct, Marked;
      if slots[c].fd == NONE { return NONE; }
      UsedFd(slots, files, freeList, c);
      Reusable(c, false);
      FreeConnection(c);
      closed := slots[c].fd;
      ForgetKeeps(slots, files, queue, freeList, c);
      ThreadedSame(slots, slots[c := slots[c].(fd := NONE)], free, freeList);
      slots := slots[c := slots[c].(fd := NONE)];
    }

    /** One round of draining: the connection longest in the queue is asked to close. */
    method DrainOne(closing: set<int>) returns (ghost closed: seq<int>)
      requires Valid()
      modifies this
      ensures Valid() && |slots| == |old(slots)| && since == old(since) && clock == old(clock)
      ensures Quiet(old(queue), closing) ==>
        queue == old(queue) && freeList == old(freeList) && closed == [] && Asked(old(slots), slots, queue)
      ensures !Quiet(old(queue), closing) ==> var c := Last(old(queue));
        && queue == Front(old(queue)) && freeList == [c] + old(freeList)
        && 0 <= c < |slots| && closed == [old(slots)[c].fd]
        && Emptied(old(slots)[c], slots[c])
        && (forall i :: 0 <= i < |slots| && i != c ==> slots[i] == old(slots)[i])
    {
      hide Split, Queued, Distinct, Threaded;
      closed := [];
      if queue != [] {
        ghost var q := queue;
        var c := queue[|queue| - 1];
        QueueIs(slots, queue, freeList, c);
        UsedFd(slots, files, freeList, c);
        CloseMarkKeeps(slots, files, queue, freeList, c);
        ThreadedSame(slots, slots[c := slots[c].(close := true)], free, freeList);
        slots := slots[c := slots[c].(close := true)];
        if c in closing {
          var fd := Close(c);
          closed := [fd];
          assert queue == Front(q);
        }
      }
    }

    /** Draining asks at most 32 times. `closing` are the connections whose handler closes them when asked. */
    method Drain(closing: set<int>) returns (ghost closed: seq<int>)
      requires Valid()
      modifies this
      ensures Valid() && since == old(since) && clock == old(clock)
      ensures OldestLeft(old(queue), queue, since)
      ensures Drained(old(slots), old(queue), old(freeList), slots, queue, freeList, closed,
                      Drainable(old(queue), closing))
      ensures Drainable(old(queue), closing) < 32 ==> Stuck(slots, queue, closing)
    {
      hide *;
      QueueDistinct();
      closed := [];
      ghost var s0, q0, l0 := slots, queue, freeList;
      ghost var k := 0;
      DrainedNone(slots, queue, freeList);
      DrainingInit(slots, queue, closing);
      var left: nat := 32;
      while left > 0
        invariant Valid() && since == old(since) && clock == old(clock)
        invariant Drained(s0, q0, l0, slots, queue, freeList, closed, k)
        invariant Draining(q0, slots, queue, closing, k, left)
      {
        ghost var s, q, was := slots, queue, k;
        closed, k := DrainNext(closing, s0, q0, l0, closed, k);
        DrainingStep(q0, s, q, was, slots, queue, closing, k, left);
        left := left - 1;
      }
      DrainingDone(q0, slots, queue, closing, k);
      DrainedOldest(s0, q0, l0, slots, queue, freeList, closed, k, since, clock);
    }

    lemma QueueDistinct()
      requires Valid()
      ensures Distinct(queue) && Descending(queue, since, clock)
    {
    }

    /** One round of draining that follows others. */
    method DrainNext(closing: set<int>, ghost s0: seq<Slot>, ghost q0: seq<int>, ghost l0: seq<int>,
                     ghost before: seq<int>, ghost k: nat)
      returns (ghost closed: seq<int>, ghost next: nat)
      requires Valid() && Distinct(q0) && Drained(s0, q0, l0, slots, queue, freeList, before, k)
      modifies this
      ensures Valid() && since == old(since) && clock == old(clock)
      ensures next == (if Quiet(old(queue), closing) then k else k + 1)
      ensures Drained(s0, q0, l0, slots, queue, freeList, closed, next)
      ensures Asks(old(queue), slots, queue, closing)
    {
      hide *;
      closed, next := before, k;
      ghost var s, q, l := slots, queue, freeList;
      ghost var n := DrainOne(closing);
      NotQuiet(q, closing);
      AsksIs(s, q, slots, queue, closing);
      if Quiet(q, closing) {
        DrainedAsked(s0, q0, l0, s, q, l, before, k, slots);
      } else {
        DrainedOne(s0, q0, l0, s, q, l, before, k, slots);
        closed, next := before + n, k + 1;
      }
    }

    /** Takes a slot for a new descriptor, draining when there is no free one. */
    method GetConnection(s: int, closing: set<int>) returns (c: int, ghost closed: seq<int>, ghost drained: seq<Slot>)
      requires Valid() && 0 <= s && !Open(slots, freeList, s)
      modifies this
      ensures Valid() && since == old(since) && clock == old(clock)
      ensures OldestLeft(old(queue), queue, since)
      ensures c == NONE <==> OutOfRange(old(files), s) || (old(freeList) == [] && Quiet(old(queue), closing))
      ensures old(freeList) != [] || OutOfRange(files, s) ==> drained == old(slots)
      ensures Drained(old(slots), old(queue), old(freeList), drained, queue,
                      (if c == NONE then [] else [c]) + freeList, closed,
                      if old(freeList) != [] || OutOfRange(files, s) then 0 else Drainable(old(queue), closing))
      ensures c != NONE ==>
        0 <= c < |drained| && slots == drained[c := Slot(s, NONE, false, false, !drained[c].instance)]
      ensures c != NONE && |files| > 0 ==> files[s] == c
      ensures c == NONE ==> slots == drained
    {
      c, closed, drained := NONE, [], slots;
      ThreadedHead(slots, free, freeList);
      DrainedNone(slots, queue, freeList);
      hide Drained, Threaded, Split, Queued, Open, Descending, OldestLeft;
      NobodyLeft(queue, since);
      assert [] + freeList == freeList;
      if |files| > 0 && s >= |files| { return; }
      c := free;
      if c == NONE {
        closed := Drain(closing);
        drained := slots;
        QuietIff(old(queue), closing);
        c := free;
      }
      ghost var k := if old(freeList) != [] then 0 else Drainable(old(queue), closing);
      ThreadedHead(slots, free, freeList);
      DrainedHead(old(slots), old(queue), old(freeList), drained, queue, freeList, closed, k);
      if c == NONE { return; }
      OpenLess(old(slots), old(queue), old(freeList), drained, queue, freeList, closed, k, s);
      Take(s);
    }

    /** Takes the first free slot. */
    method Take(s: int)
      requires Valid() && 0 <= s && !OutOfRange(files, s) && !Open(slots, freeList, s) && freeList != []
      modifies this
      ensures Valid() && queue == old(queue) && since == old(since) && clock == old(clock)
      ensures old(free) != NONE && old(freeList) == [old(free)] + freeList && 0 <= old(free) < |old(slots)|
      ensures slots == old(slots)[old(free) := Slot(s, NONE, false, false, !old(slots)[old(free)].instance)]
      ensures |files| > 0 ==> files[s] == old(free)
    {
      hide Threaded, Split, Queued, Open;
      TakeKeeps(slots, files, queue, free, freeList, s);
      ThreadedHead(slots, free, freeList);
      var c := free;
      free, freeCount := slots[c].next, freeCount - 1;
      if |files| > 0 {
        files := files[s := c];
      }
      slots := slots[c := Slot(s, NONE, false, false, !slots[c].instance)];
      freeList := freeList[1..];
    }
  }

  lemma NobodyLeft(queue: seq<int>, since: map<int, nat>)
    ensures OldestLeft(queue, queue, since)
  {
  }

  lemma DrainedOldest(s0: seq<Slot>, q0: seq<int>, l0: seq<int>, s: seq<Slot>, q: seq<int>, l: seq<int>,
                      closed: seq<int>, k: nat, since: map<int, nat>, clock: nat)
    requires Drained(s0, q0, l0, s, q, l, closed, k) && Descending(q0, since, clock)
    ensures OldestLeft(q0, q, since)
  {
    hide Swept;
    forall x, y | x in q0 && x !in q && y in q ensures x in since && y in since && since[x] < since[y] {
      var i :| 0 <= i < |q0| && q0[i] == x;
      var j :| 0 <= j < |q| && q[j] == y;
      forall a | 0 <= a < |q| ensures q0[a] in q { assert q[a] == q0[a]; }
      assert q0[j] == y;
    }
  }

  lemma MarkDescends(slots: seq<Slot>, queue: seq<int>, freeList: seq<int>, c: int, reusable: bool,
                     since: map<int, nat>, clock: nat)
    requires Queued(slots, queue, freeList) && Descending(queue, since, clock) && 0 <= c < |slots|
    ensures Descending(Marked(queue, c, slots[c].reusable, reusable), if reusable then since[c := clock] else since,
                       clock + if reusable then 1 else 0)
  {
    assert slots[c].reusable <==> c in queue;
    var rest := if slots[c].reusable then Without(queue, c) else queue;
    WithoutIs(queue, c);
    WithoutDescends(queue, c, since, clock);
    if reusable {
      assert c !in rest;
      FirstDescends(rest, c, since, clock);
    } else {
      assert [] + rest == rest;
    }
  }

  lemma FirstDescends(queue: seq<int>, c: int, since: map<int, nat>, clock: nat)
    requires Descending(queue, since, clock) && c !in queue
    ensures Descending([c] + queue, since[c := clock], clock + 1)
  {
    var t, q := since[c := clock], [c] + queue;
    forall i | 0 <= i < |q| ensures q[i] in t && t[q[i]] <= clock && (i > 0 ==> q[i] == queue[i - 1] && t[q[i]] < clock)
    {
      if i > 0 { assert q[i] in queue; }
    }
  }

  lemma {:induction false} WithoutDescends(queue: seq<int>, c: int, since: map<int, nat>, clock: nat)
    requires Descending(queue, since, clock)
    ensures Descending(Without(queue, c), since, clock)
    decreases |queue|
  {
    if queue != [] {
      var p, e := queue[..|queue| - 1], queue[|queue| - 1];
      assert queue == p + [e];
      WithoutDescends(p, c, since, clock);
      WithoutSub(p, c);
      var w := Without(p, c);
      forall i | 0 <= i < |w| ensures w[i] in since && e in since && since[w[i]] > since[e] {
        var j :| 0 <= j < |p| && p[j] == w[i];
        assert queue[j] == w[i];
      }
    }
  }

  lemma DrainedNone(s: seq<Slot>, q: seq<int>, l: seq<int>)
    ensures Drained(s, q, l, s, q, l, [], 0)
  {
    assert q[..|q|] == q && q[|q|..] + l == l;
  }

  lemma DrainedAsked(s0: seq<Slot>, q0: seq<int>, l0: seq<int>, s: seq<Slot>, q: seq<int>, l: seq<int>,
                     closed: seq<int>, k: nat, t: seq<Slot>)
    requires Distinct(q0) && Drained(s0, q0, l0, s, q, l, closed, k) && Asked(s, t, q)
    ensures Drained(s0, q0, l0, t, q, l, closed, k)
  {
    if q != [] { NotLast(q0, k); }
  }

  lemma DrainedOne(s0: seq<Slot>, q0: seq<int>, l0: seq<int>, s: seq<Slot>, q: seq<int>, l: seq<int>,
                   closed: seq<int>, k: nat, t: seq<Slot>)
    requires Distinct(q0) && Drained(s0, q0, l0, s, q, l, closed, k) && |t| == |s|
    requires q != [] && 0 <= Last(q) < |s| && Emptied(s[Last(q)], t[Last(q)])
    requires forall i :: 0 <= i < |s| && i != Last(q) ==> t[i] == s[i]
    ensures Drained(s0, q0, l0, t, Front(q), [Last(q)] + l, closed + [s[Last(q)].fd], k + 1)
  {
    NotLast(q0, k);
    var c := Last(q);
    var old_, new_ := q0[|q0| - k..], q0[|q0| - (k + 1)..];
    assert new_ == [c] + old_;
    assert [c] + l == new_ + l0;
    assert Front(q) == q0[..|q0| - (k + 1)];
    assert forall i :: i in new_ <==> i == c || i in old_;
    forall i | i in new_ ensures 0 <= i < |t| && Emptied(s0[i], t[i]) {
      if i != c { assert i in old_; }
    }
  }

  lemma ThreadedHead(slots: seq<Slot>, head: int, list: seq<int>)
    requires Threaded(slots, head, list)
    ensures head == NONE <==> list == []
    ensures list != [] ==> head == list[0] && 0 <= head < |slots| && list == [head] + list[1..]
  {
  }

  lemma QuietIff(q: seq<int>, closing: set<int>)
    ensures Drainable(q, closing) == 0 <==> Quiet(q, closing)
  {
    DrainableIs(q, closing, 32);
    if !Quiet(q, closing) {
      DrainCountStep(q, closing, 32);
    }
  }

  lemma DrainableIs(q: seq<int>, closing: set<int>, max: nat)
    requires max == 32
    ensures Drainable(q, closing) == DrainCount(q, closing, max)
  {
  }

  lemma DrainedHead(s0: seq<Slot>, q0: seq<int>, l0: seq<int>, s: seq<Slot>, q: seq<int>, l: seq<int>,
                    closed: seq<int>, k: nat)
    requires Drained(s0, q0, l0, s, q, l, closed, k)
    ensures l == [] <==> l0 == [] && k == 0
  {
  }

  lemma OpenLess(s0: seq<Slot>, q0: seq<int>, l0: seq<int>, s: seq<Slot>, q: seq<int>, l: seq<int>, closed: seq<int>,
                 k: nat, fd: int)
    requires Drained(s0, q0, l0, s, q, l, closed, k) && !Open(s0, l0, fd)
    ensures !Open(s, l, fd)
  {
    forall i | 0 <= i < |s| && i !in l ensures s[i].fd != fd {
      assert i !in q0[|q0| - k..] && i !in l0;
    }
  }

  /** Taking the first free slot for a new descriptor. */
  lemma TakeKeeps(slots: seq<Slot>, files: seq<int>, queue: seq<int>, c: int, freeList: seq<int>, s: int)
    requires Threaded(slots, c, freeList) && Split(slots, files, freeList) && Queued(slots, queue, freeList)
    requires freeList != [] && 0 <= s && !OutOfRange(files, s) && !Open(slots, freeList, s)
    ensures 0 <= c < |slots|
    ensures var t, l := slots[c := Slot(s, NONE, false, false, !slots[c].instance)], freeList[1..];
      && Threaded(t, slots[c].next, l) && Queued(t, queue, l)
      && Split(t, if |files| > 0 then files[s := c] else [], l)
  {
    var t, l := slots[c := Slot(s, NONE, false, false, !slots[c].instance)], freeList[1..];
    assert c == freeList[0] && Threaded(slots, slots[c].next, l);
    FirstFree(slots, files, freeList);
    hide Threaded;
    TakeSplit(slots, files, freeList, s, t[c]);
    TakeQueued(slots, queue, freeList, t[c]);
    ThreadedSame(slots, t, slots[c].next, l);
  }

  lemma FirstFree(slots: seq<Slot>, files: seq<int>, freeList: seq<int>)
    requires Split(slots, files, freeList) && freeList != []
    ensures var c, l := freeList[0], freeList[1..];
      0 <= c < |slots| && c !in l && forall i :: i in freeList <==> i == c || i in l
  {
    var c, l := freeList[0], freeList[1..];
    assert c in freeList && freeList == [c] + l;
    forall k | 0 <= k < |l| ensures l[k] != c { assert l[k] == freeList[k + 1]; }
    forall i ensures i in [c] + l <==> i == c || i in l {}
  }

  lemma TakeQueued(slots: seq<Slot>, queue: seq<int>, freeList: seq<int>, slot: Slot)
    requires freeList != [] && Queued(slots, queue, freeList) && !slot.reusable
    ensures 0 <= freeList[0] < |slots| ==> Queued(slots[freeList[0] := slot], queue, freeList[1..])
  {
    var c, l := freeList[0], freeList[1..];
    assert c in freeList && forall i :: i in l ==> i in freeList;
  }

  lemma TakeSplit(slots: seq<Slot>, files: seq<int>, freeList: seq<int>, s: int, slot: Slot)
    requires Split(slots, files, freeList) && freeList != [] && 0 <= s == slot.fd
    requires !OutOfRange(files, s) && !Open(slots, freeList, s)
    ensures var c := freeList[0];
      && 0 <= c < |slots|
      && Split(slots[c := slot], if |files| > 0 then files[s := c] else [], freeList[1..])
  {
    FirstFree(slots, files, freeList);
    assert forall i :: 0 <= i < |slots| && i !in freeList ==> slots[i].fd != s;
  }

  lemma NotLast(q: seq<int>, k: nat)
    requires Distinct(q) && k < |q|
    ensures Last(q[..|q| - k]) == q[|q| - k - 1] && q[|q| - k - 1] !in q[|q| - k..]
  {
  }

  lemma DrainCountStep(q: seq<int>, closing: set<int>, max: nat)
    requires max > 0
    ensures q == [] ==> Quiet(q, closing)
    ensures DrainCount(q, closing, max) == if Quiet(q, closing) then 0 else 1 + DrainCount(Front(q), closing, max - 1)
    ensures Quiet(q, closing) ==> DrainCount(q, closing, max - 1) == 0
  {
  }

  lemma NotQuiet(q: seq<int>, closing: set<int>)
    ensures q == [] ==> Quiet(q, closing)
  {
  }

  lemma AsksIs(s: seq<Slot>, q: seq<int>, slots: seq<Slot>, r: seq<int>, closing: set<int>)
    requires if Quiet(q, closing) then r == q && Asked(s, slots, q) else q != [] && r == Front(q)
    ensures Asks(q, slots, r, closing)
  {
  }

  lemma DrainingInit(slots: seq<Slot>, q: seq<int>, closing: set<int>)
    ensures Draining(q, slots, q, closing, 0, 32)
  {
    DrainableIs(q, closing, 32);
  }

  lemma DrainingStep(q0: seq<int>, s: seq<Slot>, q: seq<int>, was: nat, slots: seq<Slot>, r: seq<int>,
                     closing: set<int>, k: nat, max: nat)
    requires max > 0 && Asks(q, slots, r, closing) && Draining(q0, s, q, closing, was, max)
    requires k == if Quiet(q, closing) then was else was + 1
    ensures Draining(q0, slots, r, closing, k, max - 1)
  {
    DrainCountStep(q, closing, max);
  }

  lemma DrainingDone(q0: seq<int>, slots: seq<Slot>, q: seq<int>, closing: set<int>, k: nat)
    requires Draining(q0, slots, q, closing, k, 0)
    ensures k == Drainable(q0, closing) && (k < 32 ==> Stuck(slots, q, closing))
  {
  }

  /** When every handler closes its connection, draining closes the oldest 32, or all when there are fewer. */
  lemma {:induction false} AllClosing(q: seq<int>, closing: set<int>, max: nat)
    requires forall i :: i in q ==> i in closing
    ensures DrainCount(q, closing, max) == if max <= |q| then max else |q|
    ensures Quiet(q, closing) <==> q == []
    decreases max
  {
    if max > 0 && q != [] {
      assert Last(q) in q;
      AllClosing(Front(q), closing, max - 1);
    }
  }

  lemma MarkKeeps(slots: seq<Slot>, files: seq<int>, queue: seq<int>, freeList: seq<int>, c: int, reusable: bool)
    requires Split(slots, files, freeList) && Queued(slots, queue, freeList) && 0 <= c < |slots| && c !in freeList
    ensures var t := slots[c := slots[c].(reusable := reusable)];
      Split(t, files, freeList) && Queued(t, Marked(queue, c, slots[c].reusable, reusable), freeList)
  {
    var t := slots[c := slots[c].(reusable := reusable)];
    MarkedIs(queue, c, slots[c].reusable, reusable);
    SameFds(slots, t, files, freeList);
    hide Distinct, Marked, Split;
  }

  lemma SameFds(slots: seq<Slot>, t: seq<Slot>, files: seq<int>, freeList: seq<int>)
    requires Split(slots, files, freeList) && |t| == |slots| && forall i :: 0 <= i < |t| ==> t[i].fd == slots[i].fd
    ensures Split(t, files, freeList)
  {
    if |files| > 0 {
      assert Known(slots, files, freeList);
      assert Known(t, files, freeList);
    }
  }

  /** Marking moves a connection to the front of the queue or takes it out; all others stay. */
  lemma MarkedIs(queue: seq<int>, c: int, was: bool, reusable: bool)
    requires Distinct(queue) && (was <==> c in queue)
    ensures var m := Marked(queue, c, was, reusable);
      && Distinct(m) && (reusable ==> m != [] && m[0] == c)
      && forall x :: x in m <==> (if x == c then reusable else x in queue)
  {
    WithoutIs(queue, c);
    var q := if was then Without(queue, c) else queue;
    assert Marked(queue, c, was, reusable) == if reusable then [c] + q else q;
    assert c !in q;
    assert Distinct(q);
  }

  lemma FreeKeeps(slots: seq<Slot>, files: seq<int>, queue: seq<int>, free: int, freeList: seq<int>, c: int)
    requires Threaded(slots, free, freeList) && Split(slots, files, freeList) && Queued(slots, queue, freeList)
    requires 0 <= c < |slots| && c !in freeList && !slots[c].reusable
    ensures |files| > 0 ==> 0 <= slots[c].fd < |files|
    ensures var t, l := slots[c := slots[c].(next := free)], [c] + freeList;
      && Threaded(t, c, l) && Queued(t, queue, l)
      && Split(t, if |files| > 0 then files[slots[c].fd := NONE] else [], l)
  {
    FreeSplit(slots, files, free, freeList, c);
    FreeQueued(slots, queue, free, freeList, c);
    hide Split, Queued;
    ThreadedSame(slots, slots[c := slots[c].(next := free)], free, freeList);
    assert ([c] + freeList)[1..] == freeList;
  }

  lemma FreeSplit(slots: seq<Slot>, files: seq<int>, free: int, freeList: seq<int>, c: int)
    requires Split(slots, files, freeList) && 0 <= c < |slots| && c !in freeList
    ensures |files| > 0 ==> 0 <= slots[c].fd < |files|
    ensures Split(slots[c := slots[c].(next := free)], if |files| > 0 then files[slots[c].fd := NONE] else [],
                  [c] + freeList)
  {
    assert forall i :: i in [c] + freeList <==> i == c || i in freeList;
  }

  lemma FreeQueued(slots: seq<Slot>, queue: seq<int>, free: int, freeList: seq<int>, c: int)
    requires Queued(slots, queue, freeList) && 0 <= c < |slots| && !slots[c].reusable
    ensures Queued(slots[c := slots[c].(next := free)], queue, [c] + freeList)
  {
  }

  /** The descriptor of a free slot does not matter. */
  lemma ForgetKeeps(slots: seq<Slot>, files: seq<int>, queue: seq<int>, freeList: seq<int>, c: int)
    requires Split(slots, files, freeList) && Queued(slots, queue, freeList) && 0 <= c < |slots| && c in freeList
    ensures var t := slots[c := slots[c].(fd := NONE)]; Split(t, files, freeList) && Queued(t, queue, freeList)
  {
  }

  lemma CloseMarkKeeps(slots: seq<Slot>, files: seq<int>, queue: seq<int>, freeList: seq<int>, c: int)
    requires Split(slots, files, freeList) && Queued(slots, queue, freeList) && 0 <= c < |slots|
    ensures var t := slots[c := slots[c].(close := true)]; Split(t, files, freeList) && Queued(t, queue, freeList)
  {
  }

  lemma UsedFd(slots: seq<Slot>, files: seq<int>, freeList: seq<int>, c: int)
    requires Split(slots, files, freeList) && 0 <= c < |slots| && c !in freeList
    ensures 0 <= slots[c].fd && (|files| > 0 ==> slots[c].fd < |files|)
  {
  }

  lemma QueueIs(slots: seq<Slot>, queue: seq<int>, freeList: seq<int>, c: int)
    requires Queued(slots, queue, freeList) && c in queue
    ensures 0 <= c < |slots| && c !in freeList && slots[c].reusable
  {
  }

  lemma {:induction false} ThreadedInit(slots: seq<Slot>, k: nat, list: seq<int>)
    requires k <= |slots| && |list| == |slots| - k
    requires forall i :: 0 <= i < |list| ==> list[i] == k + i
    requires forall i :: 0 <= i < |slots| ==> slots[i].next == if i + 1 < |slots| then i + 1 else NONE
    ensures Threaded(slots, if k < |slots| then k else NONE, list)
    decreases |slots| - k
  {
    if k < |slots| {
      ThreadedInit(slots, k + 1, list[1..]);
    }
  }
}
