/** The open-file cache as a state, and the small changes its operations are made of.
    A node is named by a number; descriptors are numbers, and -1 is no descriptor. */
module FileCacheState {
  import opened Common

  type Id = int

  datatype Node = Node(name: string, created: int, accessed: int, fd: int, uniq: nat, meta: nat, err: nat,
                       uses: nat, count: nat, close: bool, isDir: bool)

  /** `open` says for each open descriptor which node it belongs to; `users` are the cleanup handlers not yet run. */
  datatype State = State(nodes: map<Id, Node>, tree: map<string, Id>, queue: seq<Id>,
                         open: map<int, int>, users: multiset<Id>)

  predicate IsFile(n: Node) {
    n.err == 0 && !n.isDir
  }

  predicate Attached(s: State, id: int) {
    id in s.nodes && s.nodes[id].name in s.tree && s.tree[s.nodes[id].name] == id
  }

  /** The tree finds nodes by their own names, so no name occurs twice. */
  ghost predicate Indexed(s: State) {
    forall name :: name in s.tree ==> s.tree[name] in s.nodes && s.nodes[s.tree[name]].name == name
  }

  /** The queue holds the nodes of the tree, each once, except the one in hand. */
  ghost predicate Listed(s: State, hand: int) {
    Distinct(s.queue) && forall id :: id in s.queue <==> Attached(s, id) && id != hand
  }

  /** A node outside the tree lives on for its users, marked to be closed by the last one. */
  predicate Settled(s: State, id: Id)
    requires id in s.nodes
  {
    var n := s.nodes[id];
    if Attached(s, id) then n.err == 0 ==> !n.close else n.close && n.count > 0
  }

  ghost predicate Held(s: State, loose: int) {
    forall id :: id in s.nodes && id != loose ==> Settled(s, id)
  }

  predicate SoundNode(n: Node) {
    n.fd >= NONE && (n.count > 0 ==> n.fd >= 0) && (n.fd >= 0 ==> IsFile(n))
  }

  /** A node in use is a file with a descriptor; only files have descriptors. */
  ghost predicate Sound(s: State) {
    forall id :: id in s.nodes ==> id >= 0 && SoundNode(s.nodes[id])
  }

  /** Every descriptor of a node is open and belongs to it alone; every open descriptor belongs to a node,
      except the one that has just been opened. */
  ghost predicate Owned(s: State, flying: int) {
    && (forall id :: id in s.nodes && s.nodes[id].fd >= 0 ==> s.nodes[id].fd in s.open && s.open[s.nodes[id].fd] == id)
    && (forall fd :: fd in s.open ==>
          fd >= 0 && if fd == flying then s.open[fd] == NONE
                     else s.open[fd] in s.nodes && s.nodes[s.open[fd]].fd == fd)
    && (flying >= 0 ==> flying in s.open)
  }

  /** A node's count is the number of its handlers. */
  ghost predicate Counted(s: State) {
    && (forall id :: id in s.nodes ==> s.users[id] == s.nodes[id].count)
    && (forall id :: id in s.users ==> id in s.nodes)
  }

  /** The invariant, with a node in hand (in the tree, not in the queue), a loose one (perhaps neither in the tree
      nor in use) and a descriptor in flight. */
  ghost predicate Inv(s: State, hand: int, loose: int, flying: int) {
    Indexed(s) && Listed(s, hand) && Held(s, loose) && Sound(s) && Owned(s, flying) && Counted(s)
  }

  /** Most recently used first, nothing later than `now`. */
  ghost predicate Ordered(s: State, now: int) {
    && (forall k :: 0 <= k < |s.queue| ==> s.queue[k] in s.nodes && s.nodes[s.queue[k]].accessed <= now)
    && (forall i, j :: 0 <= i < j < |s.queue| && s.queue[i] in s.nodes && s.queue[j] in s.nodes
          ==> s.nodes[s.queue[i]].accessed >= s.nodes[s.queue[j]].accessed)
  }

  // The small changes.

  function Put(s: State, id: Id, n: Node): State {
    s.(nodes := s.nodes[id := n])
  }

  function Unlist(s: State, id: Id): State {
    s.(queue := Without(s.queue, id))
  }

  function ListFirst(s: State, id: Id): State {
    s.(queue := [id] + s.queue)
  }

  function Unlink(s: State, id: Id): State
    requires id in s.nodes
  {
    s.(tree := s.tree - {s.nodes[id].name})
  }

  /** Closes the node's descriptor. */
  function CloseFd(s: State, id: Id): State
    requires id in s.nodes
  {
    s.(nodes := s.nodes[id := s.nodes[id].(fd := NONE)], open := s.open - {s.nodes[id].fd})
  }

  function Free(s: State, id: Id): State {
    s.(nodes := s.nodes - {id})
  }

  /** A node that keeps its name keeps its place. */
  lemma PutShape(s: State, id: Id, n: Node, hand: int)
    requires Indexed(s) && Listed(s, hand) && id in s.nodes && n.name == s.nodes[id].name
    ensures var t := Put(s, id, n);
      Indexed(t) && Listed(t, hand) && forall x :: Attached(t, x) <==> Attached(s, x)
  {
    var t := Put(s, id, n);
    assert forall x :: Attached(t, x) <==> Attached(s, x);
  }

  lemma PutHeld(s: State, id: Id, n: Node, loose: int, loose': int)
    requires Held(s, loose) && id in s.nodes && n.name == s.nodes[id].name
    requires loose == loose' || loose == id
    requires id != loose' ==> if Attached(s, id) then n.err == 0 ==> !n.close else n.close && n.count > 0
    ensures Held(Put(s, id, n), loose')
  {
    var t := Put(s, id, n);
    assert forall x :: Attached(t, x) <==> Attached(s, x);
    assert forall x :: x in t.nodes && x != id ==> (Settled(t, x) <==> Settled(s, x));
    assert id != loose' ==> Settled(t, id);
  }

  lemma PutSound(s: State, id: Id, n: Node)
    requires Sound(s) && id in s.nodes && SoundNode(n)
    ensures Sound(Put(s, id, n))
  {
  }

  lemma PutOwned(s: State, id: Id, n: Node, flying: int)
    requires Owned(s, flying) && id in s.nodes && n.fd == s.nodes[id].fd
    ensures Owned(Put(s, id, n), flying)
  {
    var t := Put(s, id, n);
    assert forall x :: x in t.nodes ==> t.nodes[x].fd == s.nodes[x].fd;
  }

  lemma PutCounted(s: State, id: Id, n: Node)
    requires Counted(s) && id in s.nodes && n.count == s.nodes[id].count
    ensures Counted(Put(s, id, n))
  {
  }

  /** Changes of the fields that the invariant does not look at. */
  lemma Touch(s: State, id: Id, n: Node, hand: int, loose: int, flying: int)
    requires Inv(s, hand, loose, flying) && id in s.nodes
    requires n == s.nodes[id].(created := n.created, accessed := n.accessed, uses := n.uses, uniq := n.uniq,
                               meta := n.meta)
    ensures Inv(Put(s, id, n), hand, loose, flying)
  {
    assert id != loose ==> Settled(s, id);
    assert SoundNode(s.nodes[id]);
    hide Indexed, Listed, Held, Sound, Owned, Counted;
    PutShape(s, id, n, hand);
    PutHeld(s, id, n, loose, loose);
    PutSound(s, id, n);
    PutOwned(s, id, n, flying);
    PutCounted(s, id, n);
  }

  lemma UnlistKeeps(s: State, id: Id, flying: int)
    requires Inv(s, NONE, NONE, flying) && Attached(s, id)
    ensures Inv(Unlist(s, id), id, NONE, flying)
  {
    WithoutIs(s.queue, id);
    var t := Unlist(s, id);
    assert forall x :: Attached(t, x) <==> Attached(s, x);
    assert forall x :: x in t.nodes ==> (Settled(t, x) <==> Settled(s, x));
  }

  lemma ListFirstKeeps(s: State, id: Id, flying: int)
    requires Inv(s, id, NONE, flying) && Attached(s, id)
    ensures Inv(ListFirst(s, id), NONE, NONE, flying)
  {
    var t := ListFirst(s, id);
    assert forall x :: Attached(t, x) <==> Attached(s, x);
    assert forall x :: x in t.nodes ==> (Settled(t, x) <==> Settled(s, x));
    assert forall x :: x in t.queue <==> x == id || x in s.queue;
  }

  /** Takes the node in hand out of the tree. */
  lemma UnlinkKeeps(s: State, id: Id, flying: int)
    requires Inv(s, id, NONE, flying) && Attached(s, id)
    ensures var t := Unlink(s, id); Inv(t, NONE, id, flying) && !Attached(t, id) && |t.tree| == |s.tree| - 1
  {
    var t := Unlink(s, id);
    assert forall x :: Attached(t, x) <==> Attached(s, x) && x != id;
    assert forall x :: x in t.nodes && x != id ==> (Settled(t, x) <==> Settled(s, x));
    assert t.tree.Keys == s.tree.Keys - {s.nodes[id].name};
    assert |t.tree.Keys| == |s.tree.Keys| - 1;
  }

  /** A loose node that has users is settled when it is marked. */
  lemma MarkKeeps(s: State, id: Id, flying: int)
    requires Inv(s, NONE, id, flying) && id in s.nodes && !Attached(s, id)
    ensures var t := Put(s, id, s.nodes[id].(close := true));
      Inv(t, NONE, if s.nodes[id].count > 0 then NONE else id, flying) && !Attached(t, id)
  {
    var n := s.nodes[id].(close := true);
    assert SoundNode(s.nodes[id]);
    hide Indexed, Listed, Held, Sound, Owned, Counted;
    PutShape(s, id, n, NONE);
    PutHeld(s, id, n, id, if n.count > 0 then NONE else id);
    PutSound(s, id, n);
    PutOwned(s, id, n, flying);
    PutCounted(s, id, n);
  }

  lemma CloseFdKeeps(s: State, id: Id, hand: int, loose: int, flying: int)
    requires Inv(s, hand, loose, flying) && id in s.nodes && s.nodes[id].fd >= 0 && s.nodes[id].count == 0
    ensures s.nodes[id].fd in s.open && Inv(CloseFd(s, id), hand, loose, flying)
  {
    var n := s.nodes[id].(fd := NONE);
    assert id != loose ==> Settled(s, id);
    assert SoundNode(s.nodes[id]);
    var t := Put(s, id, n);
    assert CloseFd(s, id) == t.(open := s.open - {s.nodes[id].fd});
    CloseFdOwned(s, id, flying);
    hide Owned, Sound;
    PutShape(s, id, n, hand);
    PutHeld(s, id, n, loose, loose);
    PutSound(s, id, n);
    PutCounted(s, id, n);
    OpenElsewhere(t, CloseFd(s, id), hand, loose);
  }

  lemma CloseFdOwned(s: State, id: Id, flying: int)
    requires Owned(s, flying) && id in s.nodes && id >= 0 && s.nodes[id].fd >= 0
    ensures s.nodes[id].fd in s.open && Owned(CloseFd(s, id), flying)
  {
    var t := CloseFd(s, id);
    assert forall x :: x in t.nodes && x != id ==> t.nodes[x] == s.nodes[x];
  }

  /** Only Owned looks at the open descriptors. */
  lemma OpenElsewhere(s: State, t: State, hand: int, loose: int)
    requires t == s.(open := t.open)
    requires Indexed(s) && Listed(s, hand) && Held(s, loose) && Sound(s) && Counted(s)
    ensures Indexed(t) && Listed(t, hand) && Held(t, loose) && Sound(t) && Counted(t)
  {
    assert forall x :: Attached(t, x) <==> Attached(s, x);
    assert forall x :: x in t.nodes ==> (Settled(t, x) <==> Settled(s, x));
  }

  lemma FreeKeeps(s: State, id: Id, flying: int)
    requires Inv(s, NONE, id, flying) && id in s.nodes && !Attached(s, id)
    requires s.nodes[id].fd == NONE
    ensures Inv(Free(s, id), NONE, NONE, flying)
  {
    var t := Free(s, id);
    assert forall x :: Attached(t, x) <==> Attached(s, x);
    assert forall x :: x in t.nodes ==> (Settled(t, x) <==> Settled(s, x));
    assert s.users[id] == 0;
  }

  /** Gives the node a descriptor, its own one or the one in flight; without one it only loses its own. */
  function Adopt(s: State, id: Id, n: Node): State {
    s.(nodes := s.nodes[id := n], open := if n.fd >= 0 then s.open[n.fd := id] else s.open)
  }

  /** A descriptor gets lost exactly when the node still has another one. */
  lemma {:induction false} AdoptExact(s: State, id: Id, n: Node, flying: int)
    requires Owned(s, flying) && Sound(s) && id in s.nodes
    requires if flying >= 0 then n.fd == flying else n.fd == NONE || n.fd == s.nodes[id].fd
    ensures Owned(Adopt(s, id, n), NONE) <==> s.nodes[id].fd == NONE || s.nodes[id].fd == n.fd
  {
    var t, had := Adopt(s, id, n), s.nodes[id].fd;
    if had == NONE || had == n.fd {
      AdoptOwned(s, id, n, flying);
    } else {
      assert SoundNode(s.nodes[id]) && had in s.open && s.open[had] == id;
      assert had in t.open && t.open[had] == id && t.nodes[id].fd != had;
    }
  }

  lemma AdoptOwned(s: State, id: Id, n: Node, flying: int)
    requires Owned(s, flying) && Sound(s) && id in s.nodes && n.fd >= NONE
    requires if flying >= 0 then n.fd == flying else n.fd == NONE || n.fd == s.nodes[id].fd
    requires s.nodes[id].fd == NONE || s.nodes[id].fd == n.fd
    ensures Owned(Adopt(s, id, n), NONE)
  {
    var t := Adopt(s, id, n);
    assert forall x :: x in t.nodes && x != id ==> t.nodes[x] == s.nodes[x];
  }

  /** Puts a new node into the tree; it is in hand and not yet filled in. */
  function Insert(s: State, id: Id, n: Node): State {
    s.(nodes := s.nodes[id := n], tree := s.tree[n.name := id])
  }

  predicate Insertable(s: State, id: Id, n: Node) {
    id !in s.nodes && id >= 0 && n.name !in s.tree && n.fd == NONE && n.count == 0
  }

  lemma InsertListed(s: State, id: Id, n: Node)
    requires Insertable(s, id, n) && Sound(s) && Indexed(s) && Listed(s, NONE) && Held(s, NONE)
    ensures var t := Insert(s, id, n);
      Indexed(t) && Listed(t, id) && Held(t, id) && Attached(t, id) && |t.tree| == |s.tree| + 1
  {
    var t := Insert(s, id, n);
    assert forall x :: Attached(t, x) <==> Attached(s, x) || x == id;
    assert forall x :: x in t.nodes && x != id ==> (Settled(t, x) <==> Settled(s, x));
    assert t.tree.Keys == s.tree.Keys + {n.name};
    assert |t.tree.Keys| == |s.tree.Keys| + 1;
  }

  lemma InsertOwned(s: State, id: Id, n: Node, flying: int)
    requires Insertable(s, id, n) && Sound(s) && Owned(s, flying) && Counted(s)
    ensures var t := Insert(s, id, n); Sound(t) && Owned(t, flying) && Counted(t)
  {
    var t := Insert(s, id, n);
    assert forall x :: x in t.nodes && x != id ==> t.nodes[x] == s.nodes[x];
  }

  lemma InsertKeeps(s: State, id: Id, n: Node, flying: int)
    requires Inv(s, NONE, NONE, flying) && Insertable(s, id, n)
    ensures var t := Insert(s, id, n);
      Inv(t, id, id, flying) && Attached(t, id) && |t.tree| == |s.tree| + 1
  {
    hide Indexed, Listed, Held, Sound, Owned, Counted;
    InsertListed(s, id, n);
    InsertOwned(s, id, n, flying);
  }

  /** What the users of the cache rely on: a node in use keeps its descriptor. */
  ghost predicate Kept(s: State, t: State) {
    forall id :: id in s.nodes && s.nodes[id].count > 0 ==>
      id in t.nodes && t.nodes[id].count > 0 && t.nodes[id].fd == s.nodes[id].fd
  }

  lemma KeptTrans(s: State, t: State, u: State)
    requires Kept(s, t) && Kept(t, u)
    ensures Kept(s, u)
  {
  }

  lemma NodeFacts(s: State, id: Id, hand: int, loose: int, flying: int)
    requires Inv(s, hand, loose, flying) && id in s.nodes
    ensures id >= 0 && SoundNode(s.nodes[id]) && s.users[id] == s.nodes[id].count
    ensures id != loose ==> Settled(s, id)
    ensures s.nodes[id].fd >= 0 ==> s.nodes[id].fd in s.open && s.nodes[id].fd != flying
  {
  }

  lemma QueueFacts(s: State, id: Id, hand: int, loose: int, flying: int)
    requires Inv(s, hand, loose, flying) && id in s.queue
    ensures Attached(s, id) && id != hand
  {
  }

  lemma TreeFacts(s: State, name: string, hand: int, loose: int, flying: int)
    requires Inv(s, hand, loose, flying) && name in s.tree
    ensures Attached(s, s.tree[name]) && s.nodes[s.tree[name]].name == name
    ensures s.tree[name] in s.queue || s.tree[name] == hand
  {
  }

  /** One user less. */
  function Release(s: State, id: Id): State
    requires id in s.nodes && s.nodes[id].count > 0
  {
    s.(nodes := s.nodes[id := s.nodes[id].(count := s.nodes[id].count - 1)], users := s.users - multiset{id})
  }

  lemma ReleaseKeeps(s: State, id: Id)
    requires Inv(s, NONE, NONE, NONE) && id in s.users
    ensures id in s.nodes && s.nodes[id].count > 0
    ensures Inv(Release(s, id), NONE, if Attached(s, id) || s.nodes[id].count > 1 then NONE else id, NONE)
  {
    assert SoundNode(s.nodes[id]) && Settled(s, id);
    var n := s.nodes[id].(count := s.nodes[id].count - 1);
    var t := Put(s, id, n);
    var loose := if Attached(s, id) || s.nodes[id].count > 1 then NONE else id;
    ReleaseCounted(s, id);
    hide Sound, Owned, Indexed, Listed, Held, Counted;
    LoosenHeld(s, id);
    PutShape(s, id, n, NONE);
    PutHeld(s, id, n, loose, loose);
    PutSound(s, id, n);
    PutOwned(s, id, n, NONE);
    UsersElsewhere(t, Release(s, id), NONE, loose, NONE);
  }

  lemma ReleaseCounted(s: State, id: Id)
    requires Counted(s) && id in s.users
    ensures id in s.nodes && s.nodes[id].count > 0 && Counted(Release(s, id))
  {
  }

  lemma LoosenHeld(s: State, id: Id)
    requires Held(s, NONE) && Sound(s)
    ensures Held(s, id)
  {
  }

  /** Only Counted looks at the users. */
  lemma UsersElsewhere(s: State, t: State, hand: int, loose: int, flying: int)
    requires t == s.(users := t.users)
    requires Indexed(s) && Listed(s, hand) && Held(s, loose) && Sound(s) && Owned(s, flying)
    ensures Indexed(t) && Listed(t, hand) && Held(t, loose) && Sound(t) && Owned(t, flying)
  {
    assert forall x :: Attached(t, x) <==> Attached(s, x);
    assert forall x :: x in t.nodes ==> (Settled(t, x) <==> Settled(s, x));
  }

  // Order.

  lemma OrderedLater(s: State, now: int, later: int)
    requires Ordered(s, now) && now <= later
    ensures Ordered(s, later)
  {
  }

  /** Removing from the queue keeps its order. */
  lemma {:induction false} OrderedWithout(s: State, id: Id, now: int)
    requires Ordered(s, now)
    ensures Ordered(Unlist(s, id), now)
    decreases |s.queue|
  {
    if s.queue != [] {
      var p, last := s.(queue := s.queue[..|s.queue| - 1]), s.queue[|s.queue| - 1];
      OrderedLast(s, now);
      if last != id {
        WithoutSub(p.queue, id);
        OrderedWithout(p, id, now);
        OrderedPush(Unlist(p, id), last, now);
        assert Unlist(s, id) == s.(queue := Unlist(p, id).queue + [last]);
      }
    }
  }

  lemma OrderedLast(s: State, now: int)
    requires Ordered(s, now) && s.queue != []
    ensures var p, last := s.queue[..|s.queue| - 1], s.queue[|s.queue| - 1];
      && Ordered(s.(queue := p), now) && last in s.nodes && s.nodes[last].accessed <= now
      && forall x :: x in p ==> x in s.nodes && s.nodes[x].accessed >= s.nodes[last].accessed
  {
    var p := s.queue[..|s.queue| - 1];
    forall k | 0 <= k < |p| ensures p[k] == s.queue[k] {}
  }

  lemma OrderedPush(s: State, id: Id, now: int)
    requires Ordered(s, now) && id in s.nodes && s.nodes[id].accessed <= now
    requires forall k :: 0 <= k < |s.queue| && s.queue[k] in s.nodes ==>
      s.nodes[s.queue[k]].accessed >= s.nodes[id].accessed
    ensures Ordered(s.(queue := s.queue + [id]), now)
  {
  }

  lemma OrderedFirst(s: State, id: Id, now: int)
    requires Ordered(s, now) && id in s.nodes && s.nodes[id].accessed == now
    ensures Ordered(ListFirst(s, id), now)
  {
  }

  /** Nodes that are not in the queue do not matter to its order. */
  lemma OrderedSame(s: State, t: State, now: int)
    requires Ordered(s, now) && t.queue == s.queue
    requires forall k :: 0 <= k < |s.queue| && s.queue[k] in s.nodes ==>
      s.queue[k] in t.nodes && t.nodes[s.queue[k]].accessed == s.nodes[s.queue[k]].accessed
    ensures Ordered(t, now)
  {
  }

  /** Closing the descriptor in flight. */
  lemma LandKeeps(s: State, hand: int, loose: int, flying: int)
    requires Inv(s, hand, loose, flying) && flying >= 0
    ensures Inv(s.(open := s.open - {flying}), hand, loose, NONE)
  {
    var t := s.(open := s.open - {flying});
    assert forall x :: Attached(t, x) <==> Attached(s, x);
    assert forall x :: x in t.nodes ==> (Settled(t, x) <==> Settled(s, x));
  }

  /** A descriptor that nobody holds takes off. */
  lemma TakeOffKeeps(s: State, hand: int, loose: int, flying: int)
    requires Inv(s, hand, loose, NONE) && flying >= 0 && flying !in s.open
    ensures Inv(s.(open := s.open[flying := NONE]), hand, loose, flying)
  {
    var t := s.(open := s.open[flying := NONE]);
    assert forall x :: Attached(t, x) <==> Attached(s, x);
    assert forall x :: x in t.nodes ==> (Settled(t, x) <==> Settled(s, x));
  }
}
