/** The operations of the open-file cache. What the operating system answers is a parameter. */
module FileCache {
  import opened Common
  import opened FileCacheState

  datatype Info = Info(uniq: nat, isDir: bool, meta: nat)

  /** What the system answers to a stat of the name, an open of it, and a stat of the new descriptor. */
  datatype Answers = Answers(stat: Option<Info>, statErr: nat, fd: int, openErr: nat, fstat: Option<Info>)

  /** The record the caller passes in and gets back. */
  datatype FileInfo = FileInfo(fd: int, uniq: nat, err: nat, isDir: bool, meta: nat, testDir: bool)

  /** What the caller asks for; `errors` says whether errors are cached. */
  datatype Request = Request(uniq: nat, valid: int, minUses: nat, errors: bool, testDir: bool)

  function Copied(of: FileInfo, info: Info): FileInfo {
    of.(uniq := info.uniq, isDir := info.isDir, meta := info.meta)
  }

  function OpenAnew(of: FileInfo, a: Answers): (bool, FileInfo, int) {
    if a.fd == NONE then (false, of.(fd := NONE, err := a.openErr), NONE)
    else if a.fstat.None? then (false, of.(fd := NONE), NONE)
    else if a.fstat.value.isDir then (true, Copied(of.(fd := NONE), a.fstat.value), NONE)
    else (true, Copied(of.(fd := a.fd), a.fstat.value), a.fd)
  }

  /** Success, the record, and the descriptor that is now open and belongs to nobody yet. */
  function OpenAndStatSpec(of: FileInfo, a: Answers): (bool, FileInfo, int) {
    if of.fd != NONE || of.testDir then
      if a.stat.None? then (false, of.(fd := NONE, err := a.statErr), NONE)
      else if of.fd != NONE && of.uniq == a.stat.value.uniq then (true, Copied(of, a.stat.value), NONE)
      else if of.fd == NONE && a.stat.value.isDir then (true, Copied(of, a.stat.value), NONE)
      else OpenAnew(of, a)
    else OpenAnew(of, a)
  }

  /** The system's side of the bargain: a new descriptor is not in use. */
  predicate Honest(open: map<int, int>, a: Answers) {
    a.fd >= NONE && a.fd !in open
  }

  /** Is the name renamed away before the stat and back before the open? Then the new descriptor shows the old file. */
  predicate Race(n: Node, a: Answers) {
    && n.fd != NONE && a.stat.Some? && a.stat.value.uniq != n.uniq
    && a.fd != NONE && a.fstat.Some? && !a.fstat.value.isDir && a.fstat.value.uniq == n.uniq
  }

  /** Does the name show a directory that has the inode number of the open file? Inode numbers are unique only within
      one device, and the device is not compared. */
  predicate Clash(n: Node, a: Answers) {
    n.fd != NONE && a.stat.Some? && a.stat.value.uniq == n.uniq && a.stat.value.isDir
  }

  /** A new node before it is filled in; what the source leaves unset is whatever the memory held. */
  function Blank(name: string, junk: Node): Node {
    junk.(name := name, fd := NONE, uses := 1, count := 0)
  }

  /** The node after it has taken over what the system says. */
  function Renewed(n: Node, of: FileInfo, now: int): Node {
    var m := n.(fd := of.fd, err := of.err, created := now, accessed := now);
    if of.err != 0 then m
    else m.(uniq := of.uniq, meta := of.meta, close := false, isDir := of.isDir,
            count := if of.isDir then n.count else n.count + 1)
  }

  /** Nodes that stay in the cache stay as they are, and nodes in use keep their descriptors. */
  ghost predicate Shrunk(s: State, t: State) {
    && t.queue <= s.queue && t.users == s.users && Kept(s, t)
    && (forall k :: 0 <= k < |t.queue| ==>
          t.queue[k] in s.nodes && t.queue[k] in t.nodes && t.nodes[t.queue[k]] == s.nodes[t.queue[k]])
    && t.tree.Keys <= s.tree.Keys && t.open.Keys <= s.open.Keys && t.nodes.Keys <= s.nodes.Keys
  }

  lemma ShrunkTrans(s: State, t: State, u: State)
    requires Shrunk(s, t) && Shrunk(t, u)
    ensures Shrunk(s, u)
  {
    assert forall k :: 0 <= k < |u.queue| ==> u.queue[k] == t.queue[k];
  }

  lemma ShrunkOrdered(s: State, t: State, now: int)
    requires Shrunk(s, t) && Ordered(s, now)
    ensures Ordered(t, now)
  {
    assert forall k :: 0 <= k < |t.queue| ==> t.queue[k] == s.queue[k];
  }

  /** Does every one of the users still have its node, with its descriptor? */
  ghost predicate KeptBy(users: multiset<Id>, s: State, t: State) {
    forall id :: id in users ==> id in s.nodes && id in t.nodes && t.nodes[id].fd == s.nodes[id].fd
  }

  /** Every node's number has been given out. */
  ghost predicate Numbered(nodes: map<Id, Node>, next: Id) {
    next >= 0 && forall id :: id in nodes ==> id < next
  }

  /** Was the node's file closed while it stayed in the cache? */
  predicate Unopened(n: Node) {
    n.fd == NONE && IsFile(n)
  }

  /** What the cache answers from its own memory. */
  function Remembered(n: Node, req: Request): FileInfo {
    if n.err == 0 then FileInfo(n.fd, n.uniq, 0, n.isDir, n.meta, req.testDir)
    else FileInfo(NONE, req.uniq, n.err, false, 0, req.testDir)
  }

  predicate Known(s: State, name: string) {
    name in s.tree && s.tree[name] in s.nodes
  }

  function NodeOf(s: State, name: string): Node
    requires Known(s, name)
  {
    s.nodes[s.tree[name]]
  }

  /** May the cache answer from its memory? */
  predicate Current(n: Node, req: Request, now: int) {
    (req.uniq == 0 || req.uniq == n.uniq) && now - n.created < req.valid
  }

  /** Is a descriptor lost, or shared? The system is asked about a file, and the answers race or clash. */
  predicate Loses(n: Node, req: Request, a: Answers, now: int) {
    !Unopened(n) && !Current(n, req, now) && (Race(n, a) || Clash(n, a))
  }

  /** What a caller is told by a node: what the system says now, or what it said less than `valid` ago. */
  function ExpectedOf(n: Node, req: Request, a: Answers, now: int): FileInfo {
    if Unopened(n) then OpenAndStatSpec(Plain(req), a).1
    else if Current(n, req, now) then Remembered(n, req)
    else OpenAndStatSpec(Asked(n, req), a).1
  }

  function Expected(s: State, name: string, req: Request, a: Answers, now: int): FileInfo {
    if Known(s, name) then ExpectedOf(NodeOf(s, name), req, a, now) else OpenAndStatSpec(Plain(req), a).1
  }

  /** What the caller's record looks like when a node is tested. */
  function Asked(n: Node, req: Request): FileInfo {
    FileInfo(n.fd, n.uniq, 0, false, 0, req.testDir || n.isDir)
  }

  function Plain(req: Request): FileInfo {
    FileInfo(NONE, req.uniq, 0, false, 0, req.testDir)
  }

  /** Does the record say what the node says? */
  predicate Shows(n: Node, of: FileInfo) {
    n.err == 0 && n.fd == of.fd && n.uniq == of.uniq && n.isDir == of.isDir && n.meta == of.meta
  }

  /** A caller that succeeds gets what the most recently used node says, and is its user if it is a file. */
  ghost predicate Served(s: State, t: State, name: string, ok: bool, of: FileInfo, user: Id) {
    && (ok ==> name in t.tree && t.queue != [] && t.queue[0] == t.tree[name] && t.tree[name] in t.nodes
               && Shows(t.nodes[t.tree[name]], of))
    && (if ok && !of.isDir
        then name in t.tree && user == t.tree[name] && of.fd >= 0 && t.users == s.users + multiset{user}
        else user == NONE && t.users == s.users)
  }

  // ----- what a call answers, in terms of what the system says

  predicate Tells(of: FileInfo, info: Info) {
    of.uniq == info.uniq && of.isDir == info.isDir && of.meta == info.meta
  }

  /** Does the stat of the name settle it? It does for a file that is still the one held open, and for a directory. */
  predicate ByName(held: int, uniq: nat, test: bool, a: Answers) {
    (held != NONE || test) && a.stat.Some? && if held != NONE then a.stat.value.uniq == uniq else a.stat.value.isDir
  }

  /** The record tells what the stat that settles it says, or which call has failed. */
  predicate Truth(held: int, uniq: nat, test: bool, a: Answers, good: bool, of: FileInfo) {
    if (held != NONE || test) && a.stat.None? then !good && of.fd == NONE && of.err == a.statErr
    else if ByName(held, uniq, test, a) then good && of.fd == held && of.err == 0 && Tells(of, a.stat.value)
    else if a.fd == NONE then !good && of.fd == NONE && of.err == a.openErr
    else if a.fstat.None? then !good && of.fd == NONE && of.err == 0
    else
      && good && of.err == 0 && Tells(of, a.fstat.value)
      && of.fd == if a.fstat.value.isDir then NONE else a.fd
  }

  lemma SpecTells(of: FileInfo, a: Answers)
    requires of.err == 0
    ensures var (good, of', _) := OpenAndStatSpec(of, a); Truth(of.fd, of.uniq, of.testDir, a, good, of')
  {
  }

  /** Is the system asked? Not if the node is recent, no other file is asked for, and its file has not been closed. */
  predicate SystemAsked(s: State, name: string, req: Request, now: int) {
    name in s.tree && s.tree[name] in s.nodes ==>
      var n := s.nodes[s.tree[name]];
      || (n.fd == NONE && n.err == 0 && !n.isDir)
      || (req.uniq != 0 && req.uniq != n.uniq)
      || now - n.created >= req.valid
  }

  /** The answer of a call that asks the system; without memory for a node a good answer can be lost. */
  predicate Told(s: State, name: string, req: Request, a: Answers, memory: bool, ok: bool, of: FileInfo) {
    var known := name in s.tree && s.tree[name] in s.nodes;
    var held := if known then s.nodes[s.tree[name]].fd else NONE;
    var uniq := if known then s.nodes[s.tree[name]].uniq else 0;
    var test := req.testDir || (known && s.nodes[s.tree[name]].isDir);
    if ok then Truth(held, uniq, test, a, true, of)
    else Truth(held, uniq, test, a, false, of) || (!memory && Truth(held, uniq, test, a, true, of))
  }

  /** The answer of a call that does not. */
  predicate Recalled(s: State, name: string, ok: bool, of: FileInfo) {
    name in s.tree && s.tree[name] in s.nodes &&
    var n := s.nodes[s.tree[name]];
    && (ok <==> n.err == 0) && of.err == n.err
    && (ok ==> of.fd == n.fd && of.uniq == n.uniq && of.isDir == n.isDir && of.meta == n.meta)
    && (!ok ==> of.fd == NONE && !of.isDir)
  }

  /** The name's node has the answer and the time of the call. */
  predicate Recorded(t: State, name: string, of: FileInfo, now: int) {
    name in t.tree && t.tree[name] in t.nodes &&
    var n := t.nodes[t.tree[name]];
    && n.created == n.accessed == now && n.err == of.err && n.fd == of.fd
    && (of.err == 0 ==> n.uniq == of.uniq && n.isDir == of.isDir && n.meta == of.meta)
  }

  /** A good answer is recorded, and an error if errors are to be cached; any other failure takes the name out. */
  predicate Noted(t: State, name: string, req: Request, now: int, memory: bool, ok: bool, of: FileInfo) {
    && (Recorded(t, name, of, now) || name !in t.tree)
    && (ok || (memory && of.err != 0 && req.errors) ==> Recorded(t, name, of, now))
    && (!ok && (of.err == 0 || !req.errors) ==> name !in t.tree)
  }

  /** The node keeps what it says and since when. */
  predicate StaysAs(n: Node, m: Node, now: int) {
    m == n.(accessed := now, uses := m.uses, count := m.count)
  }

  /** The calls for a name are counted by its node. */
  predicate UsesAre(t: State, name: string, id: int, uses: nat) {
    name in t.tree && t.tree[name] in t.nodes ==> t.nodes[t.tree[name]].uses == if t.tree[name] == id then uses else 1
  }

  lemma RenewNotes(t: State, name: string, id: Id, n: Node, of: FileInfo, now: int)
    requires name in t.tree && t.tree[name] == id && id in t.nodes && t.nodes[id] == Renewed(n, of, now)
    ensures Recorded(t, name, of, now) && t.nodes[id].uses == n.uses
  {
  }

  /** A second call for the name, less than `valid` after one whose answer was recorded, and not asking for another
      file, answers what that one answered, whatever the system would say. */
  lemma SecondCall(t: State, name: string, of: FileInfo, earlier: int, req: Request, now: int, ok': bool, of': FileInfo)
    requires Recorded(t, name, of, earlier) && now - earlier < req.valid
    requires req.uniq == 0 || (of.err == 0 && req.uniq == of.uniq)
    requires of.err == 0 && !of.isDir ==> of.fd != NONE
    ensures !SystemAsked(t, name, req, now)
    ensures Recalled(t, name, ok', of') ==>
      && (ok' <==> of.err == 0) && of'.err == of.err
      && (ok' ==> of'.fd == of.fd && of'.uniq == of.uniq && of'.isDir == of.isDir && of'.meta == of.meta)
  {
  }

  /** At `valid`, or when another file is asked for, the system is asked again. */
  lemma LateCall(t: State, name: string, of: FileInfo, earlier: int, req: Request, now: int)
    requires Recorded(t, name, of, earlier)
    requires now - earlier >= req.valid || (of.err == 0 && req.uniq != 0 && req.uniq != of.uniq)
    ensures SystemAsked(t, name, req, now)
  {
  }

  /** Is the record one that the node can take over? */
  predicate Fits(n: Node, of: FileInfo, flying: int) {
    && of.fd >= NONE && (of.fd >= 0 <==> of.err == 0 && !of.isDir)
    && (n.count > 0 ==> of.fd >= 0)
    && (if flying >= 0 then of.fd == flying else of.fd == NONE || of.fd == n.fd)
  }

  /** Is the record one of a new descriptor, or of none? */
  predicate Landed(of: FileInfo, flying: int) {
    of.fd == flying && flying >= NONE && (flying >= 0 <==> of.err == 0 && !of.isDir)
  }

  /** Does the record say that a directory has a descriptor? */
  predicate Stray(of: FileInfo, flying: int) {
    flying == NONE && of.fd >= 0 && of.err == 0 && of.isDir
  }

  ghost predicate InUse(s: State, id: Id, fd: int) {
    id in s.nodes && s.nodes[id].count > 0 && s.nodes[id].fd == fd
  }

  function Adopted(open: map<int, int>, fd: int, id: Id): map<int, int> {
    if fd in open then open[fd := id] else open
  }

  function Joined(users: multiset<Id>, of: FileInfo, id: Id): multiset<Id> {
    users + if of.err == 0 && !of.isDir then multiset{id} else multiset{}
  }

  /** Is the node filled in again, and not replaced? */
  predicate Updates(n: Node, of: FileInfo) {
    n.isDir || n.err != 0 || (of.err == 0 && !of.isDir && of.uniq == n.uniq)
  }

  lemma NotServed(s: State, t: State, name: string, of: FileInfo)
    requires t.users == s.users
    ensures Served(s, t, name, false, of, NONE)
  {
  }

  lemma ReplaceServed(s: State, t: State, name: string, id: Id, of: FileInfo, ok: bool)
    requires ok ==> of.err == 0 && (!of.isDir ==> of.fd >= 0)
    requires !ok ==> t.users == s.users
    requires ok ==>
      id in t.nodes && name in t.tree && t.tree[name] == id && t.queue != [] && t.queue[0] == id &&
      t.users == Joined(s.users, of, id) && Shows(t.nodes[id], of)
    ensures Served(s, t, name, ok, of, if ok && !of.isDir then id else NONE)
  {
  }

  lemma RenewServed(s: State, t: State, name: string, id: Id, n: Node, of: FileInfo, now: int, ok: bool)
    requires ok <==> of.err == 0
    requires ok && !of.isDir ==> of.fd >= 0
    requires name in t.tree && t.tree[name] == id && t.queue != [] && t.queue[0] == id
    requires t.users == Joined(s.users, of, id) && id in t.nodes && t.nodes[id] == Renewed(n, of, now)
    ensures Served(s, t, name, ok, of, if ok && !of.isDir then id else NONE)
  {
  }

  /** The state after `Renew`. */
  function RenewedState(s: State, id: Id, of: FileInfo, n: Node): State {
    State(s.nodes[id := n], s.tree, [id] + s.queue, Adopted(s.open, n.fd, id), Joined(s.users, of, id))
  }

  /** The state after `Hit`. */
  function HitState(s: State, id: Id, n: Node, of: FileInfo): State {
    State(s.nodes[id := n], s.tree, [id] + s.queue, s.open, Joined(s.users, of, id))
  }

  /** Has the node not been used for longer than `inactive`? */
  predicate Idle(nodes: map<Id, Node>, id: Id, now: int, inactive: int) {
    id in nodes && now - nodes[id].accessed > inactive
  }

  /** A cache with one file, open as descriptor 3, that is in hand while descriptor 4 has just been opened. */
  function OneFile(n: Node, open: map<int, int>, users: multiset<Id>): State {
    State(map[0 := n], map[n.name := 0], [], open, users)
  }

  /** How the node in hand has served the caller. */
  predicate Replied(n: Node, id: Id, t: State, name: string, req: Request, a: Answers, now: int, memory: bool, ok: bool,
                    of: FileInfo) {
    && UsesAre(t, name, id, n.uses)
    && if Unopened(n) then
         ok == OpenAndStatSpec(Plain(req), a).0 && Noted(t, name, req, now, true, ok, of)
       else if Current(n, req, now) then
         name in t.tree && t.tree[name] == id && id in t.nodes && StaysAs(n, t.nodes[id], now) && ok == (of.err == 0)
       else
         && (ok ==> OpenAndStatSpec(Asked(n, req), a).0) && (OpenAndStatSpec(Asked(n, req), a).0 && memory ==> ok)
         && Noted(t, name, req, now, memory, ok, of)
  }

  class FileCache {
    var nodes: map<Id, Node>
    var tree: map<string, Id>
    /** Most recently used first. */
    var queue: seq<Id>
    var current: nat
    const max: nat
    const inactive: int
    var open: map<int, int>
    var users: multiset<Id>
    var nextId: Id

    constructor (max: nat, inactive: int)
      ensures Valid() && this.max == max && this.inactive == inactive && tree == map[] && users == multiset{}
    {
      nodes, tree, queue, current := map[], map[], [], 0;
      this.max, this.inactive := max, inactive;
      open, users, nextId := map[], multiset{}, 0;
    }

    ghost function S(): State
      reads this
    {
      State(nodes, tree, queue, open, users)
    }

    /** The invariant inside an operation, with the counter that goes with it. */
    ghost predicate Good(hand: int, loose: int, flying: int)
      reads this
    {
      && Inv(S(), hand, loose, flying)
      && current == |tree|
      && Numbered(nodes, nextId)
    }

    /** How many nodes the tree may hold. */
    function Limit(): nat {
      if max == 0 then 1 else max
    }

    /** The invariant between operations. */
    ghost predicate Valid()
      reads this
    {
      Good(NONE, NONE, NONE) && current <= Limit()
    }

    /** Releases a node that is neither in the tree nor in the queue, unless it has users. */
    method CloseDetached(id: Id, ghost flying: int)
      requires Good(NONE, if id in nodes && nodes[id].count > 0 then NONE else id, flying)
      requires id in nodes && nodes[id].close && !Attached(S(), id)
      modifies this`nodes, this`open
      ensures Good(NONE, NONE, flying)
      ensures open.Keys <= old(open.Keys) && (old(nodes[id].count) > 0 ==> open == old(open))
      ensures nodes == if old(nodes[id].count) > 0 then old(nodes) else old(nodes) - {id}
    {
      hide Inv, Attached;
      if nodes[id].count > 0 { return; }
      NodeFacts(S(), id, NONE, id, flying);
      ghost var s := S();
      if nodes[id].fd != NONE {
        CloseFdKeeps(S(), id, NONE, id, flying);
        open := open - {nodes[id].fd};
        nodes := nodes[id := nodes[id].(fd := NONE)];
        assert S() == CloseFd(s, id);
      }
      FreeKeeps(S(), id, flying) by { assert Attached(S(), id) == Attached(s, id) by { SameShape(s, S(), id); } }
      nodes := nodes - {id};
    }

    /** Takes the least recently used node out of the cache. */
    method ExpireLast(ghost flying: int)
      requires Good(NONE, NONE, flying) && queue != []
      modifies this`nodes, this`open, this`tree, this`queue, this`current
      ensures Good(NONE, NONE, flying) && current == old(current) - 1
      ensures queue == old(queue)[..|old(queue)| - 1] && Shrunk(old(S()), S())
    {
      hide Inv, Attached, Shrunk;
      ghost var s := S();
      var id := queue[|queue| - 1];
      QueueFacts(s, id, NONE, NONE, flying);
      NodeFacts(s, id, NONE, NONE, flying) by { AttachedIsNode(s, id); }
      AttachedIsNode(s, id);
      UnlistKeeps(s, id, flying);
      queue := queue[..|queue| - 1];
      assert S() == Unlist(s, id);
      SameShape(s, S(), id);
      TakeOut(id, flying, 0);
      Discard(id, flying);
      ShrunkBy(s, S(), id, flying);
    }

    /** The node has left the queue and the tree. */
    method Discard(id: Id, ghost flying: int)
      requires Good(NONE, id, flying) && id in nodes && !Attached(S(), id)
      requires !IsFile(nodes[id]) ==> nodes[id].fd == NONE && nodes[id].count == 0
      modifies this`nodes, this`open
      ensures Good(NONE, NONE, flying) && open.Keys <= old(open.Keys)
      ensures nodes - {id} == old(nodes) - {id} && nodes.Keys <= old(nodes.Keys)
      ensures old(nodes[id].count) > 0 ==>
        id in nodes && nodes[id].fd == old(nodes[id].fd) && nodes[id].count == old(nodes[id].count)
    {
      hide Inv, Attached;
      if nodes[id].err == 0 && !nodes[id].isDir {
        MarkKeeps(S(), id, flying);
        nodes := nodes[id := nodes[id].(close := true)];
        CloseDetached(id, flying);
      } else {
        FreeKeeps(S(), id, flying);
        nodes := nodes - {id};
      }
    }

    /** With n == 1 drops one or two inactive nodes, with n == 0 the least recently used one by force as well. */
    method Expire(n0: nat, now: int, ghost flying: int)
      requires n0 <= 1 && Good(NONE, NONE, flying)
      modifies this`nodes, this`open, this`tree, this`queue, this`current
      ensures Good(NONE, NONE, flying) && current <= old(current) && Shrunk(old(S()), S())
      ensures |old(queue)| - |queue| <= 3 - n0
      ensures n0 == 0 && old(queue) != [] ==> current < old(current)
      ensures forall k :: |queue| <= k < |old(queue)| - (1 - n0) ==> Idle(old(nodes), old(queue)[k], now, inactive)
      ensures |old(queue)| - |queue| < 3 - n0 && queue != [] ==> !Idle(old(nodes), queue[|queue| - 1], now, inactive)
    {
      hide Inv, Attached, Shrunk;
      var n := n0;
      ghost var s := S();
      ShrunkSelf(s, flying);
      while n < 3
        invariant n0 <= n <= 3 && Good(NONE, NONE, flying) && Shrunk(s, S())
        invariant |old(queue)| - |queue| == n - n0 && current == old(current) - (n - n0)
        invariant forall k :: |queue| <= k < |old(queue)| - (1 - n0) ==> Idle(s.nodes, s.queue[k], now, inactive)
      {
        if queue == [] { return; }
        var id := queue[|queue| - 1];
        ShrunkNode(s, S(), |queue| - 1);
        n := n + 1;
        if n != 1 && now - nodes[id].accessed <= inactive { return; }
        ghost var t := S();
        ExpireLast(flying);
        ShrunkTrans(s, t, S());
      }
    }

    /** Marks the node as used now and puts it at the front of the queue. */
    method MoveToFront(id: Id, now: int)
      requires Good(NONE, NONE, NONE) && id in nodes && Attached(S(), id)
      modifies this`nodes, this`queue
      ensures Good(NONE, NONE, NONE) && queue == [id] + Without(old(queue), id)
      ensures nodes == old(nodes)[id := old(nodes[id]).(accessed := now)]
      ensures old(Ordered(S(), now)) ==> Ordered(S(), now)
    {
      hide Inv, Attached, Ordered;
      ghost var s := S();
      UnlistKeeps(s, id, NONE);
      queue := Without(queue, id);
      ghost var t := S();
      assert t == Unlist(s, id);
      NotListed(t, id, NONE, NONE);
      ghost var n := nodes[id].(accessed := now);
      Touch(t, id, n, id, NONE, NONE);
      if Ordered(s, now) {
        OrderedWithout(s, id, now);
        OrderedPut(t, id, n, now);
      }
      nodes := nodes[id := nodes[id].(accessed := now)];
      ghost var u := S();
      assert u == Put(t, id, n);
      SameShape(s, u, id);
      ListFirstKeeps(u, id, NONE);
      if Ordered(u, now) { OrderedFirst(u, id, now); }
      queue := [id] + queue;
    }

    /** Closes the descriptor of a node that nobody uses. */
    method DropFd(id: Id, ghost hand: int, ghost loose: int, ghost flying: int, ghost now: int)
      requires Good(hand, loose, flying) && id in nodes && nodes[id].count == 0
      modifies this`nodes, this`open
      ensures Good(hand, loose, flying) && nodes == old(nodes)[id := old(nodes[id]).(fd := NONE)]
      ensures open.Keys <= old(open.Keys)
      ensures old(Ordered(S(), now)) ==> Ordered(S(), now)
    {
      hide Inv, Attached, Ordered;
      ghost var s := S();
      NodeFacts(s, id, hand, loose, flying);
      if nodes[id].fd != NONE {
        CloseFdKeeps(s, id, hand, loose, flying);
        open := open - {nodes[id].fd};
        nodes := nodes[id := nodes[id].(fd := NONE)];
        assert S() == CloseFd(s, id);
        if Ordered(s, now) { OrderedSame(s, S(), now); }
      } else {
        assert nodes == nodes[id := nodes[id].(fd := NONE)];
      }
    }

    /** A user has left: the node goes to the front of the queue, and an idle descriptor may be closed. */
    method CloseCachedFile(id: Id, minUses: nat, now: int)
      requires id in nodes && (nodes[id].close <==> !Attached(S(), id))
      requires Good(NONE, if nodes[id].close && nodes[id].count == 0 then id else NONE, NONE)
      modifies this`nodes, this`open, this`queue
      ensures Good(NONE, NONE, NONE) && Kept(old(S()), S())
      ensures queue == if old(nodes[id].close) then old(queue) else [id] + Without(old(queue), id)
      ensures nodes - {id} == old(nodes) - {id}
      ensures id in nodes <==> !old(nodes[id].close) || old(nodes[id].count) > 0
      ensures id in nodes ==>
        nodes[id] == old(nodes[id]).(accessed := if old(nodes[id].close) then old(nodes[id].accessed) else now,
                                     fd := if !old(nodes[id].close) && old(nodes[id].count) == 0
                                              && old(nodes[id].uses) < minUses
                                           then NONE else old(nodes[id].fd))
      ensures old(Ordered(S(), now)) ==> Ordered(S(), now)
    {
      hide Inv, Attached, Ordered, Kept;
      ghost var s := S();
      if nodes[id].close {
        CloseDetached(id, NONE);
        if Ordered(s, now) { DetachedOrdered(s, S(), id, if s.nodes[id].count == 0 then id else NONE, now); }
      } else {
        Requeue(id, minUses, now);
      }
      KeptExcept(s, S(), id);
    }

    /** The node is in the tree. */
    method Requeue(id: Id, minUses: nat, now: int)
      requires id in nodes && Attached(S(), id) && Good(NONE, NONE, NONE)
      modifies this`nodes, this`open, this`queue
      ensures Good(NONE, NONE, NONE) && queue == [id] + Without(old(queue), id)
      ensures nodes == old(nodes)[id := old(nodes[id]).(accessed := now,
                         fd := if old(nodes[id].count) == 0 && old(nodes[id].uses) < minUses then NONE
                               else old(nodes[id].fd))]
      ensures old(Ordered(S(), now)) ==> Ordered(S(), now)
    {
      hide Inv, Attached, Ordered;
      MoveToFront(id, now);
      if nodes[id].uses < minUses && nodes[id].count == 0 {
        DropFd(id, NONE, NONE, NONE, now);
      }
    }

    /** The handler that the user's pool runs when the user is done. */
    method Cleanup(id: Id, minUses: nat, now: int)
      requires Valid() && id in users
      modifies this`nodes, this`open, this`tree, this`queue, this`current, this`users
      ensures Valid() && users == old(users) - multiset{id}
      ensures KeptBy(users, old(S()), S())
      ensures forall before :: before <= now && old(Ordered(S(), before)) ==> Ordered(S(), now)
    {
      hide Inv, Attached, Shrunk, Ordered;
      ghost var s := S();
      forall before | before <= now && Ordered(s, before) ensures Ordered(s, now) { OrderedLater(s, before, now); }
      ReleaseKeeps(s, id);
      NodeFacts(s, id, NONE, NONE, NONE);
      users := users - multiset{id};
      nodes := nodes[id := nodes[id].(count := nodes[id].count - 1)];
      assert S() == Release(s, id);
      ghost var t := S();
      UserShape(s, id);
      if Ordered(s, now) { ReleasedOrdered(s, id, now); }
      CloseCachedFile(id, minUses, now);
      ghost var u := S();
      Expire(1, now, NONE);
      ShrunkKept(u, S());
      KeptTrans(t, u, S());
      ReleasedKept(s, id, S());
      if Ordered(u, now) { ShrunkOrdered(u, S(), now); }
    }

    /** Asks the system about the file, reopening it if it is another one by now. */
    method OpenAndStat(of: FileInfo, a: Answers) returns (ok: bool, of': FileInfo, flying: int)
      requires a.fd >= NONE && a.fd !in open
      modifies this`open
      ensures (ok, of', flying) == OpenAndStatSpec(of, a)
      ensures open == if flying == NONE then old(open) else old(open)[flying := NONE]
    {
      of', flying := of, NONE;
      if of.fd != NONE {
        if a.stat.None? { return false, of.(fd := NONE, err := a.statErr), NONE; }
        if of.uniq == a.stat.value.uniq { return true, Copied(of, a.stat.value), NONE; }
      } else if of.testDir {
        if a.stat.None? { return false, of.(fd := NONE, err := a.statErr), NONE; }
        if a.stat.value.isDir { return true, Copied(of, a.stat.value), NONE; }
      }
      if a.fd == NONE { return false, of.(fd := NONE, err := a.openErr), NONE; }
      open := open[a.fd := NONE];
      if a.fstat.None? || a.fstat.value.isDir {
        open := open - {a.fd};
        assert open == old(open);
        of' := of'.(fd := NONE);
        if a.fstat.None? { return false, of', NONE; }
      } else {
        of', flying := of'.(fd := a.fd), a.fd;
      }
      return true, Copied(of', a.fstat.value), flying;
    }

    /** Takes the node in hand out of the tree. */
    method TakeOut(id: Id, ghost flying: int, ghost now: int)
      requires Good(id, NONE, flying) && id in nodes && Attached(S(), id)
      modifies this`tree, this`current
      ensures Good(NONE, id, flying) && !Attached(S(), id) && id !in queue
      ensures current == old(current) - 1 && tree == old(tree) - {nodes[id].name}
      ensures old(Ordered(S(), now)) ==> Ordered(S(), now)
    {
      hide Inv, Attached, Ordered;
      ghost var s := S();
      NotListed(s, id, NONE, flying);
      UnlinkKeeps(s, id, flying);
      tree := tree - {nodes[id].name};
      assert S() == Unlink(s, id);
      current := current - 1;
      if Ordered(s, now) { OrderedSame(s, S(), now); }
    }

    /** Marks a node that is out of the tree and still in use. */
    method Mark(id: Id, ghost flying: int, ghost now: int)
      requires Good(NONE, id, flying) && id in nodes && !Attached(S(), id) && nodes[id].count > 0
      modifies this`nodes
      ensures Good(NONE, NONE, flying) && nodes == old(nodes)[id := old(nodes[id]).(close := true)]
      ensures old(Ordered(S(), now)) ==> Ordered(S(), now)
    {
      hide Inv, Attached, Ordered;
      ghost var s := S();
      MarkKeeps(s, id, flying);
      nodes := nodes[id := nodes[id].(close := true)];
      if Ordered(s, now) { OrderedSame(s, S(), now); }
    }

    /** Gives the node in hand up. */
    method Abandon(id: Id, ghost flying: int, ghost now: int)
      requires Good(id, NONE, flying) && id in nodes && Attached(S(), id)
      modifies this`nodes, this`open, this`tree, this`current
      ensures Good(NONE, NONE, flying) && current == old(current) - 1 && Kept(old(S()), S())
      ensures tree == old(tree) - {old(nodes[id].name)} && nodes - {id} == old(nodes) - {id}
      ensures open.Keys <= old(open.Keys)
      ensures old(Ordered(S(), now)) ==> Ordered(S(), now)
    {
      hide Inv, Attached, Ordered, Kept;
      ghost var s := S();
      TakeOut(id, flying, now);
      ghost var t := S();
      if nodes[id].count == 0 {
        DropFd(id, NONE, id, flying, now);
        SameShape(t, S(), id);
        FreeKeeps(S(), id, flying);
        ghost var u := S();
        nodes := nodes - {id};
        if Ordered(u, now) { FreeOrdered(u, S(), id, now); }
      } else {
        Mark(id, flying, now);
      }
      KeptExcept(s, S(), id);
    }

    /** Copies the record into a node. */
    static method Fill(node: Node, of: FileInfo, now: int) returns (n: Node)
      ensures n == Renewed(node, of, now) && n.accessed == now && n.fd == of.fd
    {
      n := node.(fd := of.fd, err := of.err);
      if of.err == 0 {
        n := n.(uniq := of.uniq, meta := of.meta, close := false, isDir := of.isDir);
        if !of.isDir {
          n := n.(count := n.count + 1);
        }
      }
      n := n.(created := now, accessed := now);
    }

    /** Fills the node in hand with what the system said and lists it. It keeps track of every descriptor
        exactly when the node does not still have another one, and the record is not a stray one. */
    method Renew(id: Id, of: FileInfo, now: int, ghost loose: int, ghost flying: int)
      requires Good(id, loose, flying) && (loose == NONE || loose == id)
      requires id in nodes && Attached(S(), id) && (Fits(nodes[id], of, flying) || Stray(of, flying))
      modifies this`nodes, this`open, this`queue, this`users
      ensures nodes == old(nodes)[id := Renewed(old(nodes[id]), of, now)] && queue == [id] + old(queue)
      ensures users == Joined(old(users), of, id)
      ensures Good(NONE, NONE, NONE) <==>
        !Stray(of, flying) && (old(nodes[id].fd) == NONE || old(nodes[id].fd) == of.fd)
      ensures old(Ordered(S(), now)) ==> Ordered(S(), now)
    {
      hide Inv, Attached, Ordered;
      ghost var s := S();
      var n := Fill(nodes[id], of, now);
      if Stray(of, flying) { StrayInv(s, id, of, n, now); } else { RenewInv(s, id, of, n, now, loose, flying); }
      hide Renewed, Fits, Stray;
      NotListed(s, id, loose, flying);
      if Ordered(s, now) { RenewOrdered(s, id, of, n, now); }
      hide Adopted, Joined;
      nodes := nodes[id := n];
      open := Adopted(open, of.fd, id);
      queue := [id] + queue;
      users := Joined(users, of, id);
      assert S() == RenewedState(s, id, of, n);
    }

    /** Makes room for a node if the tree is full. */
    method MakeRoom(now: int, ghost flying: int)
      requires Good(NONE, NONE, flying) && current <= Limit()
      modifies this`nodes, this`open, this`tree, this`queue, this`current
      ensures Good(NONE, NONE, flying) && Shrunk(old(S()), S()) && current < Limit()
    {
      hide Inv, Attached, Shrunk;
      ghost var s := S();
      ShrunkSelf(s, flying);
      if current >= max {
        if current > 0 { TreeIsListed(s, flying); }
        Expire(0, now, flying);
      }
    }

    /** Enters a new node into the tree. */
    method Enter(n: Node, ghost flying: int, ghost now: int) returns (id: Id)
      requires Good(NONE, NONE, flying) && n.name !in tree && n.fd == NONE && n.count == 0
      modifies this`nodes, this`tree, this`current, this`nextId
      ensures Good(id, id, flying) && id >= 0 && id in nodes && Attached(S(), id)
      ensures id !in old(nodes) && nodes == old(nodes)[id := n] && tree == old(tree)[n.name := id]
      ensures current == old(current) + 1
      ensures old(Ordered(S(), now)) ==> Ordered(S(), now)
    {
      hide Inv, Attached, Ordered;
      ghost var s := S();
      id := nextId;
      InsertKeeps(s, id, n, flying);
      if Ordered(s, now) { InsertOrdered(s, id, n, now); }
      nodes, tree := nodes[id := n], tree[n.name := id];
      current, nextId := current + 1, nextId + 1;
      assert S() == Insert(s, id, n);
    }

    /** Enters a new node and fills it in. */
    method EnterFilled(name: string, of: FileInfo, now: int, junk: Node, ghost flying: int) returns (id: Id)
      requires Good(NONE, NONE, flying) && current < Limit() && name !in tree
      requires Landed(of, flying) || Stray(of, flying)
      modifies this
      ensures (Valid() <==> !Stray(of, flying)) && Kept(old(S()), S())
      ensures id >= 0 && id in nodes && name in tree && tree[name] == id && queue == [id] + old(queue)
      ensures nodes[id] == Renewed(Blank(name, junk), of, now)
      ensures users == Joined(old(users), of, id)
      ensures old(Ordered(S(), now)) ==> Ordered(S(), now)
    {
      hide Inv, Attached, Ordered, Kept, Renewed, Joined;
      ghost var s := S();
      id := Enter(Blank(name, junk), flying, now);
      assert Landed(of, flying) ==> Fits(nodes[id], of, flying);
      hide Fits, Blank, Landed, Stray;
      Renew(id, of, now, id, flying);
      EnteredKept(s, S(), id);
    }

    /** Closes the descriptor in flight, or one that node `holder` still has. */
    method CloseFlying(fd: int, ghost flying: int, ghost now: int, ghost holder: Id)
      requires Good(NONE, NONE, flying) && fd >= NONE
      requires fd == flying || (fd >= 0 && holder in nodes && nodes[holder].fd == fd)
      modifies this`open
      ensures (Good(NONE, NONE, NONE) <==> fd == flying) && Kept(old(S()), S())
      ensures old(Ordered(S(), now)) ==> Ordered(S(), now)
    {
      hide Inv, Attached, Ordered, Kept, Numbered;
      ghost var s := S();
      if fd != NONE {
        if fd == flying { LandKeeps(s, NONE, NONE, flying); } else { NotOwned(s.(open := s.open - {fd}), holder); }
        open := open - {fd};
      }
      SameNodes(s, S(), now);
    }

    /** Makes room, if it must, and enters a new node. `junk` is what the fresh memory happens to hold. */
    method Create(name: string, of: FileInfo, now: int, memory: bool, junk: Node, ghost flying: int, ghost holder: Id)
      returns (id: Id)
      requires Good(NONE, NONE, flying) && current <= Limit() && name !in tree
      requires Landed(of, flying) || (Stray(of, flying) && InUse(S(), holder, of.fd))
      modifies this
      ensures (Valid() <==> !Stray(of, flying)) && Kept(old(S()), S())
      ensures !memory ==> id == NONE && users == old(users) && name !in tree
      ensures memory ==>
        && id >= 0 && id in nodes && name in tree && tree[name] == id && queue != [] && queue[0] == id
        && nodes[id] == Renewed(Blank(name, junk), of, now)
        && users == Joined(old(users), of, id)
      ensures old(Ordered(S(), now)) ==> Ordered(S(), now)
    {
      hide Inv, Attached, Ordered, Shrunk, Kept, Renewed, Blank;
      ghost var s := S();
      MakeRoom(now, flying);
      ghost var t := S();
      ShrunkKept(s, t);
      ShrunkTree(s, t);
      if Ordered(s, now) { ShrunkOrdered(s, t, now); }
      if memory {
        id := EnterFilled(name, of, now, junk, flying);
      } else {
        if Stray(of, flying) { StillInUse(s, t, holder, of.fd); }
        CloseFlying(of.fd, flying, now, holder);
        id := NONE;
      }
      KeptTrans(s, t, S());
    }

    /** The name is not in the cache. */
    method OpenNew(name: string, req: Request, a: Answers, now: int, memory: bool, junk: Node)
      returns (ok: bool, of: FileInfo, user: Id)
      requires Valid() && name !in tree && Honest(open, a)
      modifies this
      ensures Valid() && Kept(old(S()), S()) && Served(old(S()), S(), name, ok, of, user)
      ensures of == OpenAndStatSpec(Plain(req), a).1
      ensures (ok ==> OpenAndStatSpec(Plain(req), a).0) && (OpenAndStatSpec(Plain(req), a).0 && memory ==> ok)
      ensures Noted(S(), name, req, now, memory, ok, of) && UsesAre(S(), name, NONE, 1)
      ensures old(Ordered(S(), now)) ==> Ordered(S(), now)
    {
      hide Inv, Attached, Ordered, Kept, OpenAndStatSpec, Recorded;
      ghost var s := S();
      of, user := Plain(req), NONE;
      var flying: int;
      AnswerFacts(of, a);
      ok, of, flying := OpenAndStat(of, a);
      if flying != NONE { TakeOffKeeps(s, NONE, NONE, flying); }
      SameNodes(s, S(), now);
      if !ok && (of.err == 0 || !req.errors) { return; }
      ghost var t := S();
      var id := Create(name, of, now, memory, junk, flying, NONE);
      if memory { RenewNotes(S(), name, id, Blank(name, junk), of, now); }
      KeptTrans(s, t, S());
      ok := ok && memory;
      user := if ok && !of.isDir then id else NONE;
    }

    /** Counts the use and takes the node off the queue. */
    method TakeInHand(id: Id, ghost now: int)
      requires Valid() && id in nodes && Attached(S(), id)
      modifies this`nodes, this`queue
      ensures Good(id, NONE, NONE) && Attached(S(), id)
      ensures nodes == old(nodes)[id := old(nodes[id]).(uses := old(nodes[id]).uses + 1)]
      ensures old(Ordered(S(), now)) ==> Ordered(S(), now)
    {
      hide Inv, Attached, Ordered;
      ghost var s := S();
      ghost var n := nodes[id].(uses := nodes[id].uses + 1);
      Touch(s, id, n, NONE, NONE, NONE);
      if Ordered(s, now) { OrderedPut(s, id, n, now); }
      nodes := nodes[id := nodes[id].(uses := nodes[id].uses + 1)];
      ghost var t := S();
      assert t == Put(s, id, n);
      SameShape(s, t, id);
      UnlistKeeps(t, id, NONE);
      if Ordered(t, now) { OrderedWithout(t, id, now); }
      queue := Without(queue, id);
      assert S() == Unlist(t, id);
      SameShape(t, S(), id);
    }

    /** The file of the node in hand was closed because it was not used often enough: open it again. */
    method Reopen(id: Id, name: string, req: Request, a: Answers, now: int)
      returns (ok: bool, of: FileInfo, user: Id)
      requires Good(id, NONE, NONE) && id in nodes && Attached(S(), id) && nodes[id].name == name
      requires Unopened(nodes[id]) && Honest(open, a)
      modifies this
      ensures Good(NONE, NONE, NONE) && current <= old(current) && Kept(old(S()), S())
      ensures Served(old(S()), S(), name, ok, of, user)
      ensures of == OpenAndStatSpec(Plain(req), a).1 && ok == OpenAndStatSpec(Plain(req), a).0
      ensures Noted(S(), name, req, now, true, ok, of) && UsesAre(S(), name, id, old(nodes[id].uses))
      ensures old(Ordered(S(), now)) ==> Ordered(S(), now)
    {
      hide Inv, Attached, Ordered, Kept, OpenAndStatSpec, Recorded;
      ghost var s := S();
      NodeFacts(s, id, id, NONE, NONE);
      of, user := Plain(req), NONE;
      var flying: int;
      AnswerFacts(of, a);
      ok, of, flying := OpenAndStat(of, a);
      if flying != NONE { TakeOffKeeps(s, id, NONE, flying); }
      SameNodes(s, S(), now);
      SameShape(s, S(), id);
      ghost var t := S();
      AttachedName(t, id);
      if !ok && (of.err == 0 || !req.errors) {
        Abandon(id, NONE, now);
        KeptTrans(s, t, S());
        return;
      }
      Renew(id, of, now, NONE, flying);
      RenewNotes(S(), name, id, t.nodes[id], of, now);
      PutKept(t, S(), id);
      KeptTrans(s, t, S());
      user := if ok && !of.isDir then id else NONE;
    }

    /** Serves the caller from the node in hand without asking the system. */
    method Hit(id: Id, name: string, req: Request, now: int) returns (ok: bool, of: FileInfo, user: Id)
      requires Good(id, NONE, NONE) && id in nodes && Attached(S(), id) && nodes[id].name == name
      requires !Unopened(nodes[id])
      modifies this`nodes, this`queue, this`users
      ensures Good(NONE, NONE, NONE) && Kept(old(S()), S()) && Served(old(S()), S(), name, ok, of, user)
      ensures of == Remembered(old(nodes[id]), req) && ok == (of.err == 0)
      ensures id in nodes && StaysAs(old(nodes[id]), nodes[id], now) && nodes[id].uses == old(nodes[id].uses)
      ensures old(Ordered(S(), now)) ==> Ordered(S(), now)
    {
      hide Inv, Attached, Ordered, Kept, Served;
      ghost var s := S();
      AttachedName(s, id);
      NodeFacts(s, id, id, NONE, NONE);
      of, user := Plain(req), NONE;
      var n := nodes[id];
      if n.err == 0 {
        of := of.(fd := n.fd, uniq := n.uniq, meta := n.meta, isDir := n.isDir);
        if !n.isDir {
          n := n.(count := n.count + 1);
        }
      } else {
        of := of.(err := n.err);
      }
      n := n.(accessed := now);
      HitInv(s, id, n, of, now);
      if Ordered(s, now) { HitOrdered(s, id, n, of, now); }
      nodes := nodes[id := n];
      queue := [id] + queue;
      users := Joined(users, of, id);
      assert S() == HitState(s, id, n, of);
      PutKept(s, S(), id);
      ok := of.err == 0;
      user := if ok && !of.isDir then id else NONE;
      ReplaceServed(s, S(), name, id, of, ok);
    }

    /** The name shows another file now: the node is reused if nobody uses it, and replaced otherwise. */
    method Replace(id: Id, name: string, of: FileInfo, now: int, memory: bool, junk: Node, ghost flying: int)
      returns (id': Id)
      requires Good(id, NONE, flying) && id in nodes && Attached(S(), id) && nodes[id].name == name
      requires current <= Limit() && (Landed(of, flying) || (Stray(of, flying) && nodes[id].fd == of.fd))
      modifies this
      ensures (Valid() <==> !Stray(of, flying)) && Kept(old(S()), S())
      ensures id' == NONE ==> users == old(users) && name !in tree && !memory
      ensures id' != NONE ==>
        && id' in nodes && name in tree && tree[name] == id' && queue != [] && queue[0] == id'
        && users == Joined(old(users), of, id')
        && (of.err == 0 ==> Shows(nodes[id'], of))
        && Recorded(S(), name, of, now) && nodes[id'].uses == (if id' == id then old(nodes[id].uses) else 1)
      ensures old(nodes[id].count) == 0 ==> id' == id
      ensures old(Ordered(S(), now)) ==> Ordered(S(), now)
    {
      hide Inv, Attached, Ordered, Kept, Joined;
      ghost var s := S();
      AttachedName(s, id);
      NodeFacts(s, id, id, NONE, flying);
      if nodes[id].count == 0 {
        DropFd(id, id, NONE, flying, now);
        ghost var t := S();
        SameShape(s, t, id);
        PutKept(s, t, id);
        Renew(id, of, now, NONE, flying);
        RenewNotes(S(), name, id, t.nodes[id], of, now);
        PutKept(t, S(), id);
        KeptTrans(s, t, S());
        id' := id;
      } else {
        TakeOut(id, flying, now);
        Mark(id, flying, now);
        ghost var t := S();
        PutKept(s, t, id);
        id' := Create(name, of, now, memory, junk, flying, id);
        if memory { RenewNotes(S(), name, id', Blank(name, junk), of, now); }
        KeptTrans(s, t, S());
      }
    }

    /** Asks the system whether the node in hand is still right. */
    method Retest(id: Id, name: string, req: Request, a: Answers, now: int, memory: bool, junk: Node)
      returns (ok: bool, of: FileInfo, user: Id)
      requires Good(id, NONE, NONE) && id in nodes && Attached(S(), id) && nodes[id].name == name
      requires current <= Limit() && !Unopened(nodes[id]) && Honest(open, a)
      modifies this
      ensures Valid() <==> !Race(old(nodes[id]), a) && !Clash(old(nodes[id]), a)
      ensures Valid() ==> Kept(old(S()), S())
      ensures Served(old(S()), S(), name, ok, of, user)
      ensures of == OpenAndStatSpec(Asked(old(nodes[id]), req), a).1
      ensures ok ==> OpenAndStatSpec(Asked(old(nodes[id]), req), a).0
      ensures OpenAndStatSpec(Asked(old(nodes[id]), req), a).0 && memory ==> ok
      ensures Noted(S(), name, req, now, memory, ok, of) && UsesAre(S(), name, id, old(nodes[id].uses))
      ensures old(Ordered(S(), now)) ==> Ordered(S(), now)
    {
      hide Inv, Attached, Ordered, Kept, OpenAndStatSpec, Served, Recorded;
      ghost var s := S();
      NodeFacts(s, id, id, NONE, NONE);
      AttachedName(s, id);
      var n := nodes[id];
      user := NONE;
      var flying: int;
      if Clash(n, a) { ClashFacts(n, req, a); } else { AskedFacts(n, req, open, a); }
      ok, of, flying := OpenAndStat(Asked(n, req), a);
      if flying != NONE { TakeOffKeeps(s, id, NONE, flying); }
      SameNodes(s, S(), now);
      SameShape(s, S(), id);
      ghost var t := S();
      if !ok && (of.err == 0 || !req.errors) {
        Abandon(id, NONE, now);
        KeptTrans(s, t, S());
        NotServed(s, S(), name, of);
        return;
      }
      hide Race, Clash, Honest, Asked, Stray, Landed;
      if Updates(n, of) {
        Renew(id, of, now, NONE, flying);
        RenewNotes(S(), name, id, n, of, now);
        if !Race(n, a) {
          PutKept(t, S(), id);
          KeptTrans(s, t, S());
        }
        user := if ok && !of.isDir then id else NONE;
        RenewServed(s, S(), name, id, n, of, now, ok);
      } else {
        var id' := Replace(id, name, of, now, memory, junk, flying);
        KeptTrans(s, t, S());
        ok := ok && id' != NONE;
        user := if ok && !of.isDir then id' else NONE;
        ReplaceServed(s, S(), name, id', of, ok);
      }
    }

    /** Serves the caller with the node in hand. */
    method Serve(id: Id, name: string, req: Request, a: Answers, now: int, memory: bool, junk: Node)
      returns (ok: bool, of: FileInfo, user: Id)
      requires Good(id, NONE, NONE) && id in nodes && Attached(S(), id) && nodes[id].name == name && current <= Limit()
      requires Honest(open, a)
      modifies this
      ensures Valid() <==> !Loses(old(nodes[id]), req, a, now)
      ensures Valid() ==> Kept(old(S()), S())
      ensures Served(old(S()), S(), name, ok, of, user)
      ensures of == ExpectedOf(old(nodes[id]), req, a, now)
      ensures Replied(old(nodes[id]), id, S(), name, req, a, now, memory, ok, of)
      ensures old(Ordered(S(), now)) ==> Ordered(S(), now)
    {
      hide Inv, Attached, Ordered, Kept, OpenAndStatSpec, Race, Clash, Served, Remembered, Asked, Noted, StaysAs;
      AttachedName(S(), id);
      var n := nodes[id];
      if n.fd == NONE && n.err == 0 && !n.isDir {
        ok, of, user := Reopen(id, name, req, a, now);
      } else if (req.uniq == 0 || req.uniq == n.uniq) && now - n.created < req.valid {
        ok, of, user := Hit(id, name, req, now);
      } else {
        ok, of, user := Retest(id, name, req, a, now, memory, junk);
      }
    }

    /** Opens a file through the cache. The invariant is lost exactly in a race or a clash, and otherwise everybody who
        was using the cache keeps the descriptor he has. */
    method OpenCachedFile(name: string, req: Request, a: Answers, now: int, poolMemory: bool, memory: bool, junk: Node)
      returns (ok: bool, of: FileInfo, user: Id)
      requires Valid() && Honest(open, a)
      modifies this
      ensures Valid() <==> !(poolMemory && Known(old(S()), name) && Loses(NodeOf(old(S()), name), req, a, now))
      ensures Valid() ==> Kept(old(S()), S())
      ensures Served(old(S()), S(), name, ok, of, user)
      ensures of == if poolMemory then Expected(old(S()), name, req, a, now) else Plain(req)
      ensures poolMemory && SystemAsked(old(S()), name, req, now) ==>
        Told(old(S()), name, req, a, memory, ok, of) && Noted(S(), name, req, now, memory, ok, of)
      ensures poolMemory && !SystemAsked(old(S()), name, req, now) ==>
        && Recalled(old(S()), name, ok, of)
        && name in tree && tree[name] == old(tree[name]) && tree[name] in nodes
        && StaysAs(old(nodes[tree[name]]), nodes[tree[name]], now)
      ensures poolMemory ==>
        if old(name in tree && tree[name] in nodes)
        then UsesAre(S(), name, old(tree[name]), old(nodes[tree[name]].uses) + 1) else UsesAre(S(), name, NONE, 1)
      ensures forall before :: before <= now && old(Ordered(S(), before)) ==> Ordered(S(), now)
    {
      hide Inv, Attached, Ordered, Kept, OpenAndStatSpec, Loses, ExpectedOf;
      ghost var s := S();
      forall before | before <= now && Ordered(s, before) ensures Ordered(s, now) { OrderedLater(s, before, now); }
      ok, of, user := false, Plain(req), NONE;
      if !poolMemory {
        SameNodes(s, S(), now);
        return;
      }
      if name !in tree {
        ok, of, user := OpenNew(name, req, a, now, memory, junk);
        NewIs(s, name, req, a, memory, ok, of);
        return;
      }
      var id := tree[name];
      TreeFacts(s, name, NONE, NONE, NONE);
      AttachedName(s, id);
      TakeInHand(id, now);
      ghost var t := S();
      PutKept(s, t, id);
      OneMoreUse(s.nodes[id], nodes[id], req, a, now);
      ghost var n := nodes[id];
      ok, of, user := Serve(id, name, req, a, now, memory, junk);
      ReplyIs(s, n, id, S(), name, req, a, now, memory, ok, of);
      if Valid() { KeptTrans(s, t, S()); }
    }
  }

  lemma NewIs(s: State, name: string, req: Request, a: Answers, memory: bool, ok: bool, of: FileInfo)
    requires name !in s.tree && of == OpenAndStatSpec(Plain(req), a).1
    requires (ok ==> OpenAndStatSpec(Plain(req), a).0) && (OpenAndStatSpec(Plain(req), a).0 && memory ==> ok)
    ensures Told(s, name, req, a, memory, ok, of)
  {
    SpecTells(Plain(req), a);
  }

  lemma ReplyIs(s: State, n: Node, id: Id, t: State, name: string, req: Request, a: Answers, now: int, memory: bool,
                ok: bool, of: FileInfo)
    requires name in s.tree && s.tree[name] == id && id in s.nodes && n == s.nodes[id].(uses := s.nodes[id].uses + 1)
    requires Replied(n, id, t, name, req, a, now, memory, ok, of) && of == ExpectedOf(n, req, a, now)
    ensures SystemAsked(s, name, req, now) ==>
      Told(s, name, req, a, memory, ok, of) && Noted(t, name, req, now, memory, ok, of)
    ensures !SystemAsked(s, name, req, now) ==>
      && Recalled(s, name, ok, of)
      && name in t.tree && t.tree[name] == id && id in t.nodes && StaysAs(s.nodes[id], t.nodes[id], now)
    ensures UsesAre(t, name, id, s.nodes[id].uses + 1)
  {
    SpecTells(Plain(req), a);
    SpecTells(Asked(n, req), a);
    hide OpenAndStatSpec, Noted;
  }

  lemma UserShape(s: State, id: Id)
    requires Inv(s, NONE, NONE, NONE) && id in s.users
    ensures id in s.nodes && s.nodes[id].count > 0
    ensures var t := Release(s, id); id in t.nodes && (t.nodes[id].close <==> !Attached(t, id))
  {
    assert SoundNode(s.nodes[id]) && Settled(s, id);
    SameShape(s, Release(s, id), id);
  }

  lemma ReleasedKept(s: State, id: Id, u: State)
    requires Inv(s, NONE, NONE, NONE) && id in s.users && id in s.nodes && s.nodes[id].count > 0
    requires Kept(Release(s, id), u)
    ensures KeptBy(s.users - multiset{id}, s, u)
  {
    var t := Release(s, id);
    forall x | x in t.users ensures x in s.nodes && t.nodes[x].count > 0 && t.nodes[x].fd == s.nodes[x].fd {
      assert x in s.users && x in s.nodes && s.users[x] == s.nodes[x].count;
    }
  }

  lemma ReleasedOrdered(s: State, id: Id, now: int)
    requires Ordered(s, now) && id in s.nodes && s.nodes[id].count > 0
    ensures Ordered(Release(s, id), now)
  {
    OrderedSame(s, Release(s, id), now);
  }

  lemma OneMoreUse(m: Node, n: Node, req: Request, a: Answers, now: int)
    requires n == m.(uses := n.uses)
    ensures Loses(m, req, a, now) == Loses(n, req, a, now) && ExpectedOf(m, req, a, now) == ExpectedOf(n, req, a, now)
  {
  }

  /** What the answers can lead to. */
  lemma AnswerFacts(of: FileInfo, a: Answers)
    requires of.err == 0 && !of.isDir && of.fd >= NONE && a.fd >= NONE
    ensures var (ok, of', flying) := OpenAndStatSpec(of, a);
      && of'.fd >= NONE && flying >= NONE
      && (ok ==> of'.err == 0) && (!ok ==> of'.fd == NONE && flying == NONE && !of'.isDir)
      && (flying >= 0 ==> ok && of'.fd == flying == a.fd && !of'.isDir)
      && (ok && flying == NONE ==>
            (of'.isDir && of'.fd == NONE)
            || (of.fd >= 0 && of'.fd == of.fd && a.stat.Some? && a.stat.value.uniq == of.uniq == of'.uniq
                && of'.isDir == a.stat.value.isDir))
  {
  }

  lemma StillInUse(s: State, t: State, id: Id, fd: int)
    requires Kept(s, t) && InUse(s, id, fd)
    ensures InUse(t, id, fd)
  {
  }

  /** A node whose descriptor is closed. */
  lemma NotOwned(s: State, id: Id)
    requires id in s.nodes && s.nodes[id].fd >= 0 && s.nodes[id].fd !in s.open
    ensures !Inv(s, NONE, NONE, NONE)
  {
  }

  /** What the answers about a node in the cache can lead to. */
  lemma AskedFacts(n: Node, req: Request, open: map<int, int>, a: Answers)
    requires SoundNode(n) && !Unopened(n) && Honest(open, a) && (n.fd >= 0 ==> n.fd in open) && !Clash(n, a)
    ensures var (ok, of, flying) := OpenAndStatSpec(Asked(n, req), a);
      && of.fd >= NONE && flying >= NONE && !Stray(of, flying)
      && (ok ==> of.err == 0) && (!ok ==> of.fd == NONE && flying == NONE && !of.isDir && !Race(n, a))
      && (of.fd >= 0 <==> ok && !of.isDir)
      && (flying >= 0 ==> of.fd == flying && flying !in open)
      && if Updates(n, of) && ok then Fits(n, of, flying) && (Race(n, a) <==> n.fd != NONE && n.fd != of.fd)
         else if Updates(n, of) then of.err != 0 ==> n.fd == NONE && Fits(n, of, flying)
         else Landed(of, flying) && n.fd != NONE && !Race(n, a)
  {
  }

  /** In a clash the record is that of a directory and has the descriptor of the file. */
  lemma ClashFacts(n: Node, req: Request, a: Answers)
    requires SoundNode(n) && Clash(n, a)
    ensures var (ok, of, flying) := OpenAndStatSpec(Asked(n, req), a);
      ok && Stray(of, flying) && of.fd == n.fd && !Updates(n, of) && !Race(n, a)
  {
  }

  lemma RenewInv(s: State, id: Id, of: FileInfo, n: Node, now: int, loose: int, flying: int)
    requires Inv(s, id, loose, flying) && (loose == NONE || loose == id)
    requires id in s.nodes && Attached(s, id) && Fits(s.nodes[id], of, flying)
    requires n == Renewed(s.nodes[id], of, now)
    ensures Inv(RenewedState(s, id, of, n), NONE, NONE, NONE)
       <==> s.nodes[id].fd == NONE || s.nodes[id].fd == of.fd
  {
    var t := RenewedState(s, id, of, n);
    NodeFacts(s, id, id, loose, flying);
    assert flying >= 0 ==> flying in s.open;
    assert n.fd >= 0 ==> n.fd in s.open;
    assert n.fd < 0 ==> n.fd !in s.open;
    AdoptExact(s, id, n, flying);
    RenewCounted(s, id, of, n, now);
    hide Owned, Counted, Sound;
    PutShape(s, id, n, id);
    PutHeld(s, id, n, loose, NONE);
    PutSound(s, id, n);
    var p := Put(s, id, n);
    RenewListed(p, t, id);
    OwnedOnly(Adopt(s, id, n), t, NONE);
  }

  lemma StrayInv(s: State, id: Id, of: FileInfo, n: Node, now: int)
    requires id in s.nodes && Stray(of, NONE) && n == Renewed(s.nodes[id], of, now)
    ensures !Inv(RenewedState(s, id, of, n), NONE, NONE, NONE)
  {
    assert !SoundNode(n);
    assert RenewedState(s, id, of, n).nodes[id] == n;
  }

  lemma RenewOrdered(s: State, id: Id, of: FileInfo, n: Node, now: int)
    requires Ordered(s, now) && id !in s.queue && n.accessed == now
    ensures Ordered(RenewedState(s, id, of, n), now)
  {
    OrderedPut(s, id, n, now);
    var p := Put(s, id, n);
    OrderedFirst(p, id, now);
    OrderedSame(ListFirst(p, id), RenewedState(s, id, of, n), now);
  }

  lemma HitInv(s: State, id: Id, n: Node, of: FileInfo, now: int)
    requires Inv(s, id, NONE, NONE) && id in s.nodes && Attached(s, id) && !Unopened(s.nodes[id])
    requires of.err == s.nodes[id].err && (of.err == 0 ==> of.isDir == s.nodes[id].isDir)
    requires n == s.nodes[id].(accessed := now,
                               count := if IsFile(s.nodes[id]) then s.nodes[id].count + 1 else s.nodes[id].count)
    ensures Inv(HitState(s, id, n, of), NONE, NONE, NONE)
  {
    var t := HitState(s, id, n, of);
    NodeFacts(s, id, id, NONE, NONE);
    HitCounted(s, id, n, of, now);
    hide Owned, Counted, Sound;
    PutShape(s, id, n, id);
    PutHeld(s, id, n, NONE, NONE);
    PutSound(s, id, n);
    PutOwned(s, id, n, NONE);
    var p := Put(s, id, n);
    RenewListed(p, t, id);
    OwnedOnly(p, t, NONE);
  }

  lemma HitCounted(s: State, id: Id, n: Node, of: FileInfo, now: int)
    requires Counted(s) && id in s.nodes
    requires of.err == s.nodes[id].err && (of.err == 0 ==> of.isDir == s.nodes[id].isDir)
    requires n == s.nodes[id].(accessed := now,
                               count := if IsFile(s.nodes[id]) then s.nodes[id].count + 1 else s.nodes[id].count)
    ensures Counted(HitState(s, id, n, of))
  {
  }

  lemma HitOrdered(s: State, id: Id, n: Node, of: FileInfo, now: int)
    requires Inv(s, id, NONE, NONE) && Ordered(s, now) && n.accessed == now
    ensures Ordered(HitState(s, id, n, of), now)
  {
    NotListed(s, id, NONE, NONE);
    OrderedPut(s, id, n, now);
    var p := Put(s, id, n);
    OrderedFirst(p, id, now);
    OrderedSame(ListFirst(p, id), HitState(s, id, n, of), now);
  }

  lemma RenewCounted(s: State, id: Id, of: FileInfo, n: Node, now: int)
    requires Counted(s) && id in s.nodes && n == Renewed(s.nodes[id], of, now)
    ensures Counted(RenewedState(s, id, of, n))
  {
  }

  lemma RenewListed(p: State, t: State, id: Id)
    requires Indexed(p) && Listed(p, id) && Held(p, NONE) && Sound(p) && Attached(p, id)
    requires t.nodes == p.nodes && t.tree == p.tree && t.queue == [id] + p.queue
    ensures Indexed(t) && Listed(t, NONE) && Held(t, NONE) && Sound(t)
  {
    assert forall x :: Attached(t, x) <==> Attached(p, x);
    assert forall x :: x in t.nodes ==> (Settled(t, x) <==> Settled(p, x));
    assert forall x :: x in t.queue <==> x == id || x in p.queue;
  }

  lemma OwnedOnly(s: State, t: State, flying: int)
    requires s.nodes == t.nodes && s.open == t.open
    ensures Owned(s, flying) <==> Owned(t, flying)
  {
  }

  lemma TreeIsListed(s: State, flying: int)
    requires Inv(s, NONE, NONE, flying) && |s.tree| > 0
    ensures s.queue != []
  {
    var name :| name in s.tree;
    TreeFacts(s, name, NONE, NONE, flying);
    NodeFacts(s, s.tree[name], NONE, NONE, flying);
  }

  lemma ShrunkTree(s: State, t: State)
    requires Shrunk(s, t)
    ensures forall name :: name in t.tree ==> name in s.tree
    ensures t.users == s.users
  {
    assert forall name :: name in t.tree ==> name in t.tree.Keys;
  }

  lemma SameNodes(s: State, t: State, now: int)
    requires s.nodes == t.nodes && s.queue == t.queue
    ensures Kept(s, t) && (Ordered(s, now) ==> Ordered(t, now))
  {
  }

  lemma InsertOrdered(s: State, id: Id, n: Node, now: int)
    requires Ordered(s, now) && id !in s.nodes
    ensures Ordered(Insert(s, id, n), now)
  {
    OrderedSame(s, Insert(s, id, n), now);
  }

  lemma FreeOrdered(s: State, t: State, id: Id, now: int)
    requires Ordered(s, now) && id !in s.queue && t.queue == s.queue && t.nodes == s.nodes - {id}
    ensures Ordered(t, now)
  {
    forall k | 0 <= k < |s.queue| ensures s.queue[k] != id {
      assert s.queue[k] in s.queue;
    }
    OrderedSame(s, t, now);
  }

  lemma KeptExcept(s: State, t: State, id: Id)
    requires t.nodes - {id} == s.nodes - {id}
    requires id in s.nodes && s.nodes[id].count > 0 ==>
      id in t.nodes && t.nodes[id].fd == s.nodes[id].fd && t.nodes[id].count == s.nodes[id].count
    ensures Kept(s, t)
  {
    forall x | x in s.nodes && x != id ensures x in t.nodes && t.nodes[x] == s.nodes[x] {
      assert x in s.nodes - {id};
    }
  }

  lemma EnteredKept(s: State, t: State, id: Id)
    requires id !in s.nodes && id in t.nodes && t.nodes == s.nodes[id := t.nodes[id]]
    ensures Kept(s, t)
  {
  }

  lemma AttachedName(s: State, id: Id)
    requires Attached(s, id)
    ensures id in s.nodes && s.nodes[id].name in s.tree && s.tree[s.nodes[id].name] == id
  {
  }

  lemma PutKept(s: State, t: State, id: Id)
    requires id in t.nodes && t.nodes == s.nodes[id := t.nodes[id]]
    requires id in s.nodes && s.nodes[id].count > 0 ==> t.nodes[id].count > 0 && t.nodes[id].fd == s.nodes[id].fd
    ensures Kept(s, t)
  {
  }

  lemma NotListed(s: State, id: Id, loose: int, flying: int)
    requires Inv(s, id, loose, flying)
    ensures id !in s.queue
  {
  }

  lemma DetachedOrdered(s: State, t: State, id: Id, loose: int, now: int)
    requires Ordered(s, now) && t.queue == s.queue && t.nodes - {id} == s.nodes - {id}
    requires id in t.nodes ==> t.nodes == s.nodes
    requires !Attached(s, id) && Inv(s, NONE, loose, NONE)
    ensures Ordered(t, now)
  {
    forall k | 0 <= k < |s.queue| && s.queue[k] in s.nodes
      ensures s.queue[k] in t.nodes && t.nodes[s.queue[k]] == s.nodes[s.queue[k]]
    {
      assert s.queue[k] in s.queue;
      assert s.queue[k] != id;
      assert s.queue[k] in s.nodes - {id};
    }
    OrderedSame(s, t, now);
  }

  lemma OrderedPut(s: State, id: Id, n: Node, now: int)
    requires Ordered(s, now) && (id !in s.queue || (id in s.nodes && n.accessed == s.nodes[id].accessed))
    ensures Ordered(Put(s, id, n), now)
  {
    forall k | 0 <= k < |s.queue| && s.queue[k] == id ensures id in s.queue {
    }
    OrderedSame(s, Put(s, id, n), now);
  }

  lemma ShrunkKept(s: State, t: State)
    requires Shrunk(s, t)
    ensures Kept(s, t)
  {
  }

  lemma ShrunkSelf(s: State, flying: int)
    requires Inv(s, NONE, NONE, flying)
    ensures Shrunk(s, s)
  {
    forall k | 0 <= k < |s.queue| ensures s.queue[k] in s.nodes {
      assert s.queue[k] in s.queue;
      assert Attached(s, s.queue[k]);
    }
  }

  /** One node is gone from the end of the queue, and from the nodes unless it has users. */
  lemma ShrunkBy(s: State, t: State, id: Id, flying: int)
    requires Inv(s, NONE, NONE, flying) && s.queue != [] && s.queue[|s.queue| - 1] == id
    requires t.queue == s.queue[..|s.queue| - 1] && t.users == s.users && id in s.nodes
    requires t.nodes - {id} == s.nodes - {id} && t.nodes.Keys <= s.nodes.Keys
    requires s.nodes[id].count > 0 ==>
      id in t.nodes && t.nodes[id].fd == s.nodes[id].fd && t.nodes[id].count == s.nodes[id].count
    requires t.tree.Keys <= s.tree.Keys && t.open.Keys <= s.open.Keys
    ensures Shrunk(s, t)
  {
    forall x | x in s.nodes && x != id ensures x in t.nodes && t.nodes[x] == s.nodes[x] {
      assert x in s.nodes - {id};
    }
    forall k | 0 <= k < |t.queue| ensures t.queue[k] in s.nodes && t.queue[k] != id {
      assert t.queue[k] == s.queue[k] && s.queue[k] in s.queue;
      assert Attached(s, s.queue[k]);
    }
  }

  lemma ShrunkNode(s: State, t: State, k: nat)
    requires Shrunk(s, t) && k < |t.queue|
    ensures t.queue[k] == s.queue[k] && t.queue[k] in t.nodes && t.queue[k] in s.nodes
    ensures t.nodes[t.queue[k]] == s.nodes[t.queue[k]]
  {
  }

  lemma AttachedIsNode(s: State, id: Id)
    requires Attached(s, id)
    ensures id in s.nodes
  {
  }

  lemma SameShape(s: State, t: State, id: Id)
    requires s.tree == t.tree && id in s.nodes && id in t.nodes && s.nodes[id].name == t.nodes[id].name
    ensures Attached(s, id) == Attached(t, id)
  {
  }

  /** Honest answers that race: descriptor 3 shows inode 7, the name shows inode 8 when it is looked at, and inode 7
      again when it is opened as descriptor 4. Afterwards descriptor 3 is open, and no node has it. */
  lemma RaceHappens(n: Node, now: int)
    requires n.fd == 3 && n.uniq == 7 && IsFile(n) && n.count == 0 && !n.close
    ensures var a := Answers(Some(Info(8, false, 0)), 0, 4, 0, Some(Info(7, false, 0)));
      var of := FileInfo(4, 7, 0, false, 0, false);
      var before := OneFile(n, map[3 := 0, 4 := NONE], multiset{});
      var after := RenewedState(before, 0, of, Renewed(n, of, now));
      && Honest(map[3 := 0], a) && Race(n, a)
      && OpenAndStatSpec(FileInfo(3, 7, 0, false, 0, false), a) == (true, of, 4)
      && Inv(before, 0, NONE, 4) && !Inv(after, NONE, NONE, NONE)
      && 3 in after.open && forall id :: id in after.nodes ==> after.nodes[id].fd != 3
  {
    OneFileInv(n, 4);
    var of := FileInfo(4, 7, 0, false, 0, false);
    var before := OneFile(n, map[3 := 0, 4 := NONE], multiset{});
    var after := RenewedState(before, 0, of, Renewed(n, of, now));
    assert after.open[3] == 0 && after.nodes[0].fd == 4;
  }

  lemma OneFileInv(n: Node, flying: int)
    requires n.fd == 3 && IsFile(n) && n.count == 0 && !n.close && (flying == NONE || flying == 4)
    ensures Inv(OneFile(n, if flying == 4 then map[3 := 0, 4 := NONE] else map[3 := 0], multiset{}), 0, NONE, flying)
  {
    var s := OneFile(n, if flying == 4 then map[3 := 0, 4 := NONE] else map[3 := 0], multiset{});
    assert forall id :: Attached(s, id) <==> id == 0;
    assert Settled(s, 0) && SoundNode(n);
  }

  /** Honest answers that clash: descriptor 3 shows inode 7 of one device, and the name has become a directory, which is
      inode 7 of another device. Descriptor 3 is closed, and then the node has it again, as a directory. */
  lemma ClashHappens(n: Node, now: int)
    requires n.fd == 3 && n.uniq == 7 && IsFile(n) && n.count == 0 && !n.close
    ensures var a := Answers(Some(Info(7, true, 0)), 0, NONE, 0, None);
      var of := FileInfo(3, 7, 0, true, 0, false);
      var before := OneFile(n, map[3 := 0], multiset{});
      var closed := CloseFd(before, 0);
      var after := RenewedState(closed, 0, of, Renewed(closed.nodes[0], of, now));
      && Honest(map[3 := 0], a) && Clash(n, a) && !Race(n, a)
      && OpenAndStatSpec(FileInfo(3, 7, 0, false, 0, false), a) == (true, of, NONE)
      && Inv(before, 0, NONE, NONE) && !Inv(after, NONE, NONE, NONE)
      && 3 !in after.open && after.nodes[0].fd == 3
  {
    OneFileInv(n, NONE);
    var of := FileInfo(3, 7, 0, true, 0, false);
    var closed := CloseFd(OneFile(n, map[3 := 0], multiset{}), 0);
    StrayInv(closed, 0, of, Renewed(closed.nodes[0], of, now), now);
  }
}
