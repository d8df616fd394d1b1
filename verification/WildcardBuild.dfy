/** ngx_hash_wildcard_init: the recursive construction of the wildcard index. */
module WildcardBuild {
  import opened Common
  import opened Text
  import opened HashLayout
  import opened Wildcards
  import opened WildcardKeys

  /** Collects the keys of one group, cut behind their first label. */
  method TakeGroup(names: seq<WKey>, n: nat, len: nat, dot: bool, full: nat) returns (i: nat, next: seq<WKey>)
    requires KeysOk(names) && n < |names| && Cut(names[n].name, len, dot, full)
    ensures n < i <= |names|
    ensures GroupSoFar(names, n, i, len)
    ensures i < |names| ==> Head(names[i].name) != Head(names[n].name)
    ensures next == Below(names, n, i)
  {
    hide KeysOk, SameGroup, GroupSoFar, Below, Head;
    var a := names[n].name;
    next := if |a| != full then [WKey(a[full..], names[n].value)] else [];
    i := n + 1;
    FirstRest(names, n, len, dot, full);
    while i < |names| && SameGroup(a, names[i].name, full, dot)
      invariant n < i <= |names| && GroupSoFar(names, n, i, len)
      invariant next == Below(names, n, i)
    {
      NextRest(names, n, i, len, dot, full);
      GroupGrows(names, n, i, len);
      var r := WKey(names[i].name[len + 1..], names[i].value);
      next, i := next + [r], i + 1;
    }
    if i < |names| { InGroup(names, n, i, len, dot, full); }
  }

  // ----- memory

  /** The pool: tables are zeroed and handed out at growing 16-aligned addresses. */
  class Pool {
    var tables: map<Word, WTable>
    var brk: Word

    ghost predicate Valid()
      reads this
    {
      Aligned(brk) && forall a :: a in tables ==> a < brk
    }

    constructor ()
      ensures Valid() && tables == map[]
    {
      tables, brk := map[], 16;
    }

    method Alloc(t: Table) returns (addr: Word)
      requires Valid()
      modifies this
      ensures Valid() && addr == old(brk) && brk > addr && tables == old(tables)[addr := WTable(t, NULL)]
    {
      addr := brk;
      tables, brk := tables[addr := WTable(t, NULL)], brk + 16;
    }

    method SetValue(addr: Word, v: Word)
      requires Valid() && addr in tables
      modifies this`tables
      ensures Valid() && tables == old(tables)[addr := old(tables)[addr].(value := v)]
    {
      tables := tables[addr := tables[addr].(value := v)];
    }
  }

  /** Everything below `brk` is as before. */
  ghost predicate Kept(old_: map<Word, WTable>, new_: map<Word, WTable>, brk: Word) {
    forall a :: a in old_ && a < brk ==> a in new_ && new_[a] == old_[a]
  }

  lemma {:induction false} IndexesKept(old_: map<Word, WTable>, new_: map<Word, WTable>, addr: Word, pats: seq<Pat>)
    requires Proper(pats) && Indexes(old_, addr, pats) && Kept(old_, new_, addr)
    requires addr in new_ && new_[addr].hash == old_[addr].hash
    ensures Indexes(new_, addr, pats)
    decreases addr, 1
  {
    forall l: string ensures EntryOk(new_, addr, Lookup(new_[addr].hash, HashOf(l), l), pats, l) {
      assert EntryOk(old_, addr, Lookup(old_[addr].hash, HashOf(l), l), pats, l);
      EntryKept(old_, new_, addr, addr, Lookup(old_[addr].hash, HashOf(l), l), pats, l);
    }
  }

  lemma {:induction false} EntryKept(old_: map<Word, WTable>, new_: map<Word, WTable>, addr: Word, addr': Word,
                                     w: Word, pats: seq<Pat>, l: string)
    requires Proper(pats) && EntryOk(old_, addr, w, pats, l) && Kept(old_, new_, addr) && addr <= addr'
    ensures EntryOk(new_, addr', w, pats, l)
    decreases addr, 0
  {
    SubProper(pats, l);
    if Sub(pats, l) != [] { IndexesKept(old_, new_, Untag(w), Sub(pats, l)); }
  }

  // ----- ngx_hash_wildcard_init

  /** A sufficient condition for success: every name fits a bucket with room to
      spare, and all names together stay below the u_short limit. */
  ghost predicate Roomy(names: seq<WKey>, bucketSize: nat, cacheline: nat) {
    (forall k :: k in names ==> |k.name| + 26 <= bucketSize) && Weight(names, |names|) + PTR + cacheline <= USHORT
  }

  ghost function Weight(names: seq<WKey>, n: nat): nat
    requires n <= |names|
  {
    if n == 0 then 0 else Weight(names, n - 1) + |names[n - 1].name| + 18
  }

  lemma {:induction false} WeightConcat(a: seq<WKey>, b: seq<WKey>, n: nat)
    requires n <= |b|
    ensures Weight(a + b, |a| + n) == Weight(a, |a|) + Weight(b, n)
    decreases |a| + n
  {
    if n > 0 {
      WeightConcat(a, b, n - 1);
    } else if |a| > 0 {
      WeightSame(a + b, a, |a|);
    }
  }

  lemma {:induction false} WeightSame(a: seq<WKey>, b: seq<WKey>, n: nat)
    requires n <= |a| && n <= |b| && forall i :: 0 <= i < n ==> a[i] == b[i]
    ensures Weight(a, n) == Weight(b, n)
  {
    if n > 0 { WeightSame(a, b, n - 1); }
  }

  lemma {:induction false} WeightMono(names: seq<WKey>, m: nat, n: nat)
    requires m <= n <= |names|
    ensures Weight(names, m) <= Weight(names, n)
    ensures m < n ==> Weight(names, m) + |names[m].name| + 18 <= Weight(names, n)
  {
    if m < n { WeightMono(names, m, n - 1); }
  }

  lemma {:induction false} RestsWeight(names: seq<WKey>, l: string, lo: nat, hi: nat)
    requires lo <= hi <= |names|
    ensures Weight(names, lo) + Weight(Rests(names, l, lo, hi), |Rests(names, l, lo, hi)|) <= Weight(names, hi)
  {
    if lo < hi {
      RestsWeight(names, l, lo, hi - 1);
      var s, t := Rests(names, l, lo, hi - 1), RestOf(names[hi - 1], l);
      WeightConcat(s, t, |t|);
      if t != [] { assert Weight(t, 1) == Weight(t, 0) + |t[0].name| + 18; }
    }
  }

  lemma NextRoomy(names: seq<WKey>, n: nat, i: nat, bucketSize: nat, cacheline: nat)
    requires n < i <= |names| && Roomy(names, bucketSize, cacheline)
    ensures Roomy(Below(names, n, i), bucketSize, cacheline)
  {
    var l := Head(names[n].name);
    RestsWeight(names, l, n, i);
    WeightMono(names, i, |names|);
    forall k | k in Below(names, n, i) ensures |k.name| + 26 <= bucketSize {
      var j := RestsMember(names, l, n, i, k);
      RestIs(names[j], l, k);
      assert names[j] in names;
    }
  }

  /** The bytes of all entries. */
  ghost function TotalElt(curr: seq<HashKey>, n: nat): nat
    requires n <= |curr|
  {
    if n == 0 then 0 else TotalElt(curr, n - 1) + EltSize(|curr[n - 1].name|)
  }

  lemma {:induction false} TotalSame(a: seq<HashKey>, b: seq<HashKey>, n: nat)
    requires n <= |a| && n <= |b| && forall i :: 0 <= i < n ==> a[i] == b[i]
    ensures TotalElt(a, n) == TotalElt(b, n)
  {
    if n > 0 { TotalSame(a, b, n - 1); }
  }

  lemma {:induction false} LoadBelowTotal(curr: seq<HashKey>, size: nat, b: nat, n: nat)
    requires size > 0 && n <= |curr|
    ensures Load(curr, size, b, n) <= TotalElt(curr, n)
  {
    if n > 0 { LoadBelowTotal(curr, size, b, n - 1); }
  }

  lemma TotalFits(curr: seq<HashKey>, cacheline: nat)
    requires Alignment(cacheline) && TotalElt(curr, |curr|) + PTR + cacheline <= USHORT
    ensures forall size :: size > 0 ==> LayoutFits(curr, size, cacheline)
  {
    forall size, b | size > 0 && 0 <= b < size ensures BucketFits(curr, size, b, cacheline) {
      LoadBelowTotal(curr, size, b, |curr|);
    }
  }

  /** The labels collected for names[..n] weigh no more than those names. */
  ghost predicate Light(curr: seq<HashKey>, names: seq<WKey>, n: nat, bucketSize: nat, cacheline: nat)
    requires n <= |names|
  {
    Roomy(names, bucketSize, cacheline) ==>
      NamesFit(curr, bucketSize) && TotalElt(curr, |curr|) <= Weight(names, n)
  }

  lemma LightGrows(curr: seq<HashKey>, names: seq<WKey>, n: nat, i: nat, e: HashKey, bucketSize: nat, cacheline: nat)
    requires n < i <= |names| && Light(curr, names, n, bucketSize, cacheline) && e.name == Head(names[n].name)
    ensures Light(curr + [e], names, i, bucketSize, cacheline)
  {
    if Roomy(names, bucketSize, cacheline) {
      assert names[n] in names;
      TotalSame(curr + [e], curr, |curr|);
      WeightMono(names, n, i);
    }
  }

  lemma LightFits(curr: seq<HashKey>, names: seq<WKey>, bucketSize: nat, cacheline: nat)
    requires Alignment(cacheline) && Light(curr, names, |names|, bucketSize, cacheline)
    requires Roomy(names, bucketSize, cacheline)
    ensures NamesFit(curr, bucketSize) && forall size :: size > 0 ==> LayoutFits(curr, size, cacheline)
  {
    TotalFits(curr, cacheline);
  }

  // ----- the entries of one level

  predicate FlatElt(e: HashKey) {
    e.live && IsLower(e.name) && e.hash == HashOf(e.name) && e.value != NULL
  }

  ghost predicate Flat(curr: seq<HashKey>) {
    forall e :: e in curr ==> FlatElt(e)
  }

  /** Looking up a label in the entries collected so far gives the word that the keys found so far prescribe for it. */
  ghost predicate LevelOk(tables: map<Word, WTable>, brk: Word, curr: seq<HashKey>, names: seq<WKey>, n: nat)
    requires n <= |names|
  {
    Proper(Views(ReachTo(names, n))) &&
    forall l: string :: EntryOk(tables, brk, First(curr, l, 0), Views(ReachTo(names, n)), l)
  }

  /** The word is the one prescribed for the label by the keys found up to i. */
  ghost predicate WordOk(tables: map<Word, WTable>, brk: Word, w: Word, names: seq<WKey>, i: nat, l: string)
    requires i <= |names|
  {
    Proper(Views(ReachTo(names, i))) && EntryOk(tables, brk, w, Views(ReachTo(names, i)), l)
  }

  lemma EntrySame(tables: map<Word, WTable>, brk: Word, w: Word, a: seq<Pat>, b: seq<Pat>, l: string)
    requires Proper(a) && Proper(b) && Sub(a, l) == Sub(b, l) && Own(a, l) == Own(b, l)
    ensures EntryOk(tables, brk, w, a, l) <==> EntryOk(tables, brk, w, b, l)
  {}

  lemma OwnIs(pats: seq<Pat>, l: string, p: Pat)
    requires Proper(pats) && p in pats && p.labels == [l]
    ensures Own(pats, l) == Some(p)
  {
    OwnMember(pats, l);
    SameLabels(pats, p, Own(pats, l).value);
  }

  lemma OwnSame(a: seq<Pat>, b: seq<Pat>, l: string)
    requires Proper(a) && Proper(b) && forall p: Pat :: p.labels == [l] ==> (p in a <==> p in b)
    ensures Own(a, l) == Own(b, l)
  {
    OwnMember(a, l);
    OwnMember(b, l);
    if Own(a, l).Some? { OwnIs(b, l, Own(a, l).value); }
  }

  lemma SubViews(names: seq<WKey>, l: string)
    requires forall k :: k in names ==> k.name != ""
    ensures Sub(Views(names), l) == Views(AllRests(names, l))
  {
    RestsViews(names, l, |names|);
  }

  lemma ReachNamed(names: seq<WKey>, n: nat)
    requires KeysOk(names) && n <= |names|
    ensures forall k :: k in ReachTo(names, n) ==> k.name != ""
  {
    forall k | k in ReachTo(names, n) ensures k.name != "" { ReachMember(names, n, k); }
  }

  /** The keys of a group say nothing about other labels. */
  lemma EntryElsewhere(tables: map<Word, WTable>, brk: Word, w: Word, names: seq<WKey>, n: nat, i: nat, l: string)
    requires KeysOk(names) && Group(names, n, i) && Head(names[n].name) != l && WordOk(tables, brk, w, names, n, l)
    ensures i <= |names| && WordOk(tables, brk, w, names, i, l)
  {
    hide KeysOk, Group, EntryOk, ReachTo, AllRests, Sub, Own, Proper;
    GroupHeads(names, n, i);
    ReachProper(names, i) by { KeysProper(names); }
    OtherRests(names, n, i, l);
    ReachNamed(names, n);
    ReachNamed(names, i);
    SubViews(ReachTo(names, n), l);
    SubViews(ReachTo(names, i), l);
    forall p: Pat | p.labels == [l] ensures p in Views(ReachTo(names, n)) <==> p in Views(ReachTo(names, i)) {
      SamePats(names, n, i, l, p);
    }
    OwnSame(Views(ReachTo(names, n)), Views(ReachTo(names, i)), l);
    EntrySame(tables, brk, w, Views(ReachTo(names, n)), Views(ReachTo(names, i)), l);
  }

  lemma KeysProper(names: seq<WKey>)
    requires KeysOk(names)
    ensures Proper(Views(names))
  {}

  lemma SamePats(names: seq<WKey>, n: nat, i: nat, l: string, p: Pat)
    requires KeysOk(names) && Group(names, n, i) && Head(names[n].name) != l && p.labels == [l]
    ensures i <= |names| && (p in Views(ReachTo(names, n)) <==> p in Views(ReachTo(names, i)))
  {
    hide Found;
    ViewMember(names, n, p);
    ViewMember(names, i, p);
    forall k: nat | n <= k < i && View(names[k]) == p ensures false {
      FirstLabelIs(names[k], [l]);
    }
  }

  lemma ViewMember(names: seq<WKey>, n: nat, p: Pat)
    requires n <= |names|
    ensures p in Views(ReachTo(names, n)) <==> exists k: nat :: k < n && Found(names, k) && View(names[k]) == p
  {
    hide Found, View;
    var r := ReachTo(names, n);
    if p in Views(r) {
      var i :| 0 <= i < |r| && View(r[i]) == p;
      ReachMember(names, n, r[i]);
    }
    if exists k: nat :: k < n && Found(names, k) && View(names[k]) == p {
      var k: nat :| k < n && Found(names, k) && View(names[k]) == p;
      ReachMember(names, n, names[k]);
      var i :| 0 <= i < |r| && r[i] == names[k];
      assert Views(r)[i] == p;
    }
  }

  /** What the keys found up to the end of a first group say about its label. */
  ghost predicate GroupKnown(names: seq<WKey>, n: nat, i: nat, next: seq<WKey>)
    requires n < i <= |names|
  {
    var l, k, pats := Head(names[n].name), names[n], Views(ReachTo(names, i));
    Proper(pats) && Sub(pats, l) == Views(Reach(next)) &&
    Own(pats, l) == if |k.name| <= FirstDot(k.name) + 1 then Some(View(k)) else None
  }

  lemma GroupFacts(names: seq<WKey>, n: nat, i: nat, next: seq<WKey>)
    requires KeysOk(names) && Group(names, n, i) && !Seen(names, n, Head(names[n].name))
    requires n < i <= |names| && next == Below(names, n, i)
    ensures GroupKnown(names, n, i, next)
  {
    hide KeysOk, Group, Seen, Proper, Own, Sub, ReachTo, AllRests;
    var l, pats := Head(names[n].name), Views(ReachTo(names, i));
    ReachProper(names, i) by { KeysProper(names); }
    ReachNamed(names, i);
    SubViews(ReachTo(names, i), l);
    BelowSize(names, n, i);
    GroupReach(names, n, i, i);
    GroupOwn(names, n, i);
  }

  lemma GroupOwn(names: seq<WKey>, n: nat, i: nat)
    requires KeysOk(names) && Group(names, n, i) && !Seen(names, n, Head(names[n].name))
    requires n < i <= |names| && Proper(Views(ReachTo(names, i)))
    ensures Own(Views(ReachTo(names, i)), Head(names[n].name)) ==
            if |names[n].name| <= FirstDot(names[n].name) + 1 then Some(View(names[n])) else None
  {
    hide Found, Seen, ReachTo, Proper, Own;
    var l, pats := Head(names[n].name), Views(ReachTo(names, i));
    OneLabel(names[n]);
    OwnMember(pats, l);
    if Ending(names, n) == 1 {
      ShortFound(names, n);
      ViewMember(names, i, View(names[n]));
      OwnIs(pats, l, View(names[n]));
    } else if Own(pats, l).Some? {
      ViewMember(names, i, Own(pats, l).value);
      var k: nat :| k < i && Found(names, k) && View(names[k]) == Own(pats, l).value;
      OneLabel(names[k]);
      NotBefore(names, n, k);
    }
  }

  /** The rests of a group can be indexed like a whole list of keys. */
  lemma BelowOk(names: seq<WKey>, n: nat, i: nat)
    requires KeysOk(names) && n < i <= |names|
    ensures KeysOk(Below(names, n, i))
  {
    hide KeysOk, Rests;
    var g := names[n..i];
    SliceOk(names, n, i);
    RestsOk(g, Head(names[n].name));
    RestsSlice(names, g, Head(names[n].name), n, i);
    assert |g| == i - n;
  }

  lemma SliceOk(names: seq<WKey>, n: nat, i: nat)
    requires KeysOk(names) && n <= i <= |names|
    ensures KeysOk(names[n..i])
  {
    hide View;
    var g := names[n..i];
    forall k | 0 <= k < |g| ensures Views(g)[k] == Views(names)[n + k] && g[k] == names[n + k] {}
    forall p | p in Views(g) ensures ProperPat(p) {
      var k :| 0 <= k < |g| && Views(g)[k] == p;
      assert Views(names)[n + k] in Views(names);
    }
  }

  lemma {:induction false} RestsSlice(names: seq<WKey>, g: seq<WKey>, l: string, n: nat, i: nat)
    requires n <= i <= |names| && i - n <= |g| && forall k :: n <= k < i ==> g[k - n] == names[k]
    ensures Rests(names, l, n, i) == Rests(g, l, 0, i - n)
  {
    if n < i { RestsSlice(names, g, l, n, i - 1); }
  }

  lemma HeadLabel(names: seq<WKey>, n: nat)
    requires KeysOk(names) && n < |names|
    ensures Aligned(names[n].value) && IsLower(Head(names[n].name)) && View(names[n]).labels[0] == Head(names[n].name)
  {
    assert Views(names)[n] == View(names[n]) && ProperPat(View(names[n]));
    ViewCases(names[n]);
    assert IsLower(View(names[n]).labels[0]);
  }

  /** The word that the builder stores for a group is the prescribed one: a tagged
      value when nothing lies below the label, ... */
  lemma LeafEntry(tables: map<Word, WTable>, brk: Word, names: seq<WKey>, n: nat, i: nat, word: Word)
    requires KeysOk(names) && n < i <= |names| && GroupKnown(names, n, i, [])
    requires var k, d := names[n], FirstDot(names[n].name);
             |k.name| <= d + 1 && word == if d < |k.name| then k.value + 1 else k.value
    ensures WordOk(tables, brk, word, names, i, Head(names[n].name))
  {
    hide KeysOk;
    ViewValue(names, n);
    SubProper(Views(ReachTo(names, i)), Head(names[n].name));
  }

  /** ... and a tagged table otherwise. */
  lemma InnerEntry(tables: map<Word, WTable>, brk: Word, names: seq<WKey>, n: nat, i: nat, next: seq<WKey>, sub: Word,
                   word: Word)
    requires KeysOk(names) && n < i <= |names| && GroupKnown(names, n, i, next) && next != [] && KeysOk(next)
    requires Aligned(sub) && sub < brk && Indexed(tables, sub, next)
    requires var k, d := names[n], FirstDot(names[n].name);
             word == WithTag(sub, if d < |k.name| then 3 else 2) &&
             tables[sub].value == if |k.name| <= d + 1 then k.value else NULL
    ensures WordOk(tables, brk, word, names, i, Head(names[n].name))
  {
    hide KeysOk;
    ViewValue(names, n);
    FirstFound(next);
    SubProper(Views(ReachTo(names, i)), Head(names[n].name));
    TagRoundTrip(sub, if FirstDot(names[n].name) < |names[n].name| then 3 else 2);
  }

  /** The table at `addr` indexes the keys of `names` that are found. */
  ghost predicate Indexed(tables: map<Word, WTable>, addr: Word, names: seq<WKey>) {
    Proper(Views(Reach(names))) && Indexes(tables, addr, Views(Reach(names)))
  }

  lemma ViewValue(names: seq<WKey>, n: nat)
    requires KeysOk(names) && n < |names|
    ensures View(names[n]).value == names[n].value != NULL
    ensures |names[n].name| <= FirstDot(names[n].name) + 1 ==>
              (View(names[n]).star <==> FirstDot(names[n].name) < |names[n].name|)
  {
    HeadLabel(names, n);
    ViewCases(names[n]);
  }

  lemma {:induction false} FirstAppend(curr: seq<HashKey>, e: HashKey, l: string, n: nat)
    requires n <= |curr| && ValuesSet(curr)
    ensures First(curr + [e], l, n) ==
            if First(curr, l, n) != NULL then First(curr, l, n)
            else if e.live && Lower(e.name) == l then e.value else NULL
    decreases |curr| - n
  {
    if n < |curr| {
      FirstAppend(curr, e, l, n + 1);
    } else {
      assert First(curr + [e], l, n + 1) == NULL;
    }
  }

  /** The entries satisfy what the flat table needs. */
  lemma FlatIsTable(curr: seq<HashKey>)
    requires Flat(curr)
    ensures ValuesSet(curr) && HashesAgree(curr)
  {
    forall n | 0 <= n < |curr| ensures curr[n].value != NULL && curr[n].hash == HashOf(Lower(curr[n].name)) {
      assert FlatElt(curr[n]);
      LowerFixes(curr[n].name);
    }
  }

  /** A label that a found key begins with has an entry. */
  lemma EntryNotNull(tables: map<Word, WTable>, brk: Word, w: Word, pats: seq<Pat>, p: Pat, l: string)
    requires Proper(pats) && EntryOk(tables, brk, w, pats, l) && p in pats && p.labels[0] == l
    ensures w != NULL
  {
    ReadEntry(tables, brk, w, pats, l);
    OwnMember(pats, l);
    if |p.labels| > 1 {
      SubMember(pats, l, Drop(p));
      assert p == Lift(l, Drop(p));
    } else {
      assert p.labels == [l];
    }
  }

  /** A label that has been met begins a key that is found. */
  lemma {:induction false} SeenHas(names: seq<WKey>, n: nat, l: string) returns (k: nat)
    requires KeysOk(names) && n <= |names| && Seen(names, n, l)
    ensures k < n && Head(names[k].name) == l && Found(names, k)
  {
    hide Found, KeysOk;
    if Seen(names, n - 1, l) {
      k := SeenHas(names, n - 1, l);
    } else {
      k := n - 1;
      ShortFound(names, k);
    }
  }

  /** A second group for a label changes nothing, a first one adds its word. */
  lemma LevelGrows(tables: map<Word, WTable>, brk: Word, curr: seq<HashKey>, names: seq<WKey>, n: nat, i: nat,
                   e: HashKey)
    requires KeysOk(names) && Group(names, n, i) && n < i <= |names| && Flat(curr) && FlatElt(e)
    requires LevelOk(tables, brk, curr, names, n) && e.name == Head(names[n].name)
    requires !Seen(names, n, e.name) ==> WordOk(tables, brk, e.value, names, i, e.name)
    ensures LevelOk(tables, brk, curr + [e], names, i)
  {
    hide KeysOk, Group, Seen, Proper, EntryOk, ReachTo, Flat, ValuesSet;
    FlatIsTable(curr);
    LowerFixes(e.name);
    ReachProper(names, i) by { KeysProper(names); }
    forall l: string ensures EntryOk(tables, brk, First(curr + [e], l, 0), Views(ReachTo(names, i)), l) {
      FirstAppend(curr, e, l, 0);
      if l != e.name {
        EntryElsewhere(tables, brk, First(curr, l, 0), names, n, i, l);
        assert First(curr + [e], l, 0) == First(curr, l, 0);
      } else if Seen(names, n, l) {
        SeenReach(names, n, i, i);
        SeenEntry(tables, brk, First(curr, l, 0), names, n, l);
      } else {
        UnseenEntry(tables, brk, First(curr, l, 0), names, n);
      }
    }
  }

  lemma SeenEntry(tables: map<Word, WTable>, brk: Word, w: Word, names: seq<WKey>, n: nat, l: string)
    requires KeysOk(names) && n <= |names| && Seen(names, n, l) && WordOk(tables, brk, w, names, n, l)
    ensures w != NULL
  {
    hide KeysOk, EntryOk, Found, ReachTo, Proper;
    var k := SeenHas(names, n, l);
    ViewMember(names, n, View(names[k]));
    Named(names, k);
    FirstLabelIs(names[k], [l]);
    EntryNotNull(tables, brk, w, Views(ReachTo(names, n)), View(names[k]), l);
  }

  lemma UnseenEntry(tables: map<Word, WTable>, brk: Word, w: Word, names: seq<WKey>, n: nat)
    requires KeysOk(names) && n < |names| && !Seen(names, n, Head(names[n].name))
    requires WordOk(tables, brk, w, names, n, Head(names[n].name))
    ensures w == NULL
  {
    hide KeysOk, Found, ReachTo, Proper;
    var l, pats := Head(names[n].name), Views(ReachTo(names, n));
    NotSeenRests(names, n);
    ReachNamed(names, n);
    SubViews(ReachTo(names, n), l);
    OwnMember(pats, l);
    if Own(pats, l).Some? {
      ViewMember(names, n, Own(pats, l).value);
      var k: nat :| k < n && Found(names, k) && View(names[k]) == Own(pats, l).value;
      Named(names, k);
      FirstLabelIs(names[k], [l]);
    }
  }

  lemma LevelDone(tables: map<Word, WTable>, addr: Word, t: Table, curr: seq<HashKey>, names: seq<WKey>, cacheline: nat)
    requires Flat(curr) && LevelOk(tables, addr, curr, names, |names|)
    requires Laid(t, curr, cacheline) && forall a :: a in tables ==> a < addr
    ensures Indexed(tables[addr := WTable(t, NULL)], addr, names)
  {
    hide Proper, Flat, ReachTo;
    var new_, pats := tables[addr := WTable(t, NULL)], Views(Reach(names));
    FlatIsTable(curr);
    FindIsScan(t, curr, cacheline, "");
    forall l: string ensures EntryOk(new_, addr, Lookup(t, HashOf(l), l), pats, l) {
      FindIsScan(t, curr, cacheline, l);
      EntryKept(tables, new_, addr, addr, First(curr, l, 0), pats, l);
    }
  }

  lemma LevelKept(old_: map<Word, WTable>, new_: map<Word, WTable>, brk: Word, brk': Word, curr: seq<HashKey>,
                  names: seq<WKey>, n: nat)
    requires n <= |names| && LevelOk(old_, brk, curr, names, n) && Kept(old_, new_, brk) && brk <= brk'
    ensures LevelOk(new_, brk', curr, names, n)
  {
    hide Proper, ReachTo;
    var pats := Views(ReachTo(names, n));
    forall l: string ensures EntryOk(new_, brk', First(curr, l, 0), pats, l) {
      EntryKept(old_, new_, brk, brk', First(curr, l, 0), pats, l);
    }
  }

  /** The recursive call for the keys below a label; the label's own value, if it
      has one, goes into the new table. */
  method BuildBelow(pool: Pool, own: WKey, full: nat, next: seq<WKey>, bucketSize: nat, maxSize: nat, cacheline: nat,
                    memory: bool, ghost depth: nat)
    returns (status: Status, sub: Word)
    requires pool.Valid() && next != [] && KeysOk(next) && maxSize > 0 && Alignment(cacheline)
    requires forall k :: k in next ==> |k.name| <= depth
    modifies pool
    ensures pool.Valid() && pool.brk >= old(pool.brk) && Kept(old(pool.tables), pool.tables, old(pool.brk))
    ensures status == Ok ==>
              Aligned(sub) && sub < pool.brk && Indexed(pool.tables, sub, next) && sub in pool.tables &&
              pool.tables[sub].value == (if |own.name| == full then own.value else NULL)
    ensures memory && Roomy(next, bucketSize, cacheline) ==> status == Ok
    decreases depth, 4
  {
    status, sub := WildcardInit(pool, next, bucketSize, maxSize, cacheline, memory, depth);
    if status == Ok && |own.name| == full {
      ghost var made := pool.tables;
      pool.SetValue(sub, own.value);
      IndexesKept(made, pool.tables, sub, Views(Reach(next)));
    }
  }

  /** One group: its label, its tagged word and the position behind it. */
  method BuildGroup(pool: Pool, names: seq<WKey>, n: nat, bucketSize: nat, maxSize: nat, cacheline: nat, memory: bool,
                    ghost depth: nat)
    returns (status: Status, i: nat, e: HashKey)
    requires pool.Valid() && KeysOk(names) && n < |names| && Edge(names, n) && maxSize > 0 && Alignment(cacheline)
    requires forall k :: k in names ==> |k.name| <= depth
    modifies pool
    ensures pool.Valid() && pool.brk >= old(pool.brk) && Kept(old(pool.tables), pool.tables, old(pool.brk))
    ensures status == Ok ==> n < i <= |names| && Group(names, n, i) && e.name == Head(names[n].name) && FlatElt(e)
    ensures status == Ok && !Seen(names, n, e.name) ==> WordOk(pool.tables, pool.brk, e.value, names, i, e.name)
    ensures memory && Roomy(names, bucketSize, cacheline) ==> status == Ok
    decreases depth, 0
  {
    hide KeysOk, Edge, Group, Seen, WordOk, Indexed, Roomy, Below, GroupKnown, GroupSoFar, Indexes, Pool.Valid;
    var len, key := FirstLabel(names[n].name);
    var dot := len < |names[n].name|;
    var full := if dot then len + 1 else len;
    var next;
    i, next := TakeGroup(names, n, len, dot, full);
    GroupIs(names, n, i, len);
    BelowOk(names, n, i);
    HeadLabel(names, n);
    ghost var first := !Seen(names, n, Head(names[n].name));
    if first { GroupFacts(names, n, i, next); }
    var word, sub := names[n].value, NULL;
    status := Ok;
    if next != [] {
      NextShorter(names, n, i, next, depth);
      if Roomy(names, bucketSize, cacheline) { NextRoomy(names, n, i, bucketSize, cacheline); }
      status, sub := BuildBelow(pool, names[n], full, next, bucketSize, maxSize, cacheline, memory, depth - 1);
      if status != Ok {
        e := HashKey(false, "", 0, NULL);
        return;
      }
      word := WithTag(sub, if dot then 3 else 2);
      TagRoundTrip(sub, if dot then 3 else 2);
      if first { InnerEntry(pool.tables, pool.brk, names, n, i, next, sub, word); }
    } else {
      if dot { word := WithTag(word, 1); }
      EmptyBelow(names, n, i);
      if first { LeafEntry(pool.tables, pool.brk, names, n, i, word); }
    }
    e := HashKey(true, names[n].name[..len], key, word);
  }

  lemma GroupIs(names: seq<WKey>, n: nat, i: nat, len: nat)
    requires n < i <= |names| && Edge(names, n) && len == FirstDot(names[n].name) && GroupSoFar(names, n, i, len)
    requires i < |names| ==> Head(names[i].name) != Head(names[n].name)
    ensures Group(names, n, i)
  {}

  lemma {:induction false} EmptyBelow(names: seq<WKey>, n: nat, i: nat)
    requires n < i <= |names| && Below(names, n, i) == []
    ensures |names[n].name| <= FirstDot(names[n].name) + 1
    decreases i
  {
    if i > n + 1 { EmptyBelow(names, n, i - 1); }
  }

  lemma NoGroup(tables: map<Word, WTable>, brk: Word, names: seq<WKey>, bucketSize: nat, cacheline: nat)
    ensures Edge(names, 0) && Flat([]) && LevelOk(tables, brk, [], names, 0)
    ensures Light([], names, 0, bucketSize, cacheline)
  {
    assert Views(ReachTo(names, 0)) == [];
    forall l: string ensures EntryOk(tables, brk, First([], l, 0), Views(ReachTo(names, 0)), l) {
      OwnMember([], l);
    }
  }

  method NextGroup(pool: Pool, ghost curr: seq<HashKey>, names: seq<WKey>, n: nat, bucketSize: nat, maxSize: nat,
                   cacheline: nat, memory: bool, ghost depth: nat)
    returns (status: Status, i: nat, e: HashKey)
    requires pool.Valid() && KeysOk(names) && n < |names| && Edge(names, n) && maxSize > 0 && Alignment(cacheline)
    requires forall k :: k in names ==> |k.name| <= depth
    requires Flat(curr) && LevelOk(pool.tables, pool.brk, curr, names, n)
    requires Light(curr, names, n, bucketSize, cacheline)
    modifies pool
    ensures pool.Valid() && pool.brk >= old(pool.brk) && Kept(old(pool.tables), pool.tables, old(pool.brk))
    ensures status == Ok ==>
              n < i <= |names| && Edge(names, i) &&
              Flat(curr + [e]) && LevelOk(pool.tables, pool.brk, curr + [e], names, i) &&
              Light(curr + [e], names, i, bucketSize, cacheline)
    ensures memory && Roomy(names, bucketSize, cacheline) ==> status == Ok
    decreases depth, 1
  {
    hide Edge, Group, Seen, Flat, FlatElt, LevelOk, WordOk, Light, KeysOk, Roomy, Kept, Pool.Valid;
    ghost var before, brk := pool.tables, pool.brk;
    status, i, e := BuildGroup(pool, names, n, bucketSize, maxSize, cacheline, memory, depth);
    if status != Ok { return; }
    GroupEdge(names, n, i);
    LevelKept(before, pool.tables, brk, pool.brk, curr, names, n);
    LevelGrows(pool.tables, pool.brk, curr, names, n, i, e);
    FlatGrows(curr, e);
    LightGrows(curr, names, n, i, e, bucketSize, cacheline);
  }

  lemma GroupEdge(names: seq<WKey>, n: nat, i: nat)
    requires Group(names, n, i)
    ensures Edge(names, i)
  {}

  lemma FlatGrows(curr: seq<HashKey>, e: HashKey)
    requires Flat(curr) && FlatElt(e)
    ensures Flat(curr + [e])
  {}

  /** The loop over the groups: the entries of one level. */
  method CollectLevel(pool: Pool, names: seq<WKey>, bucketSize: nat, maxSize: nat, cacheline: nat, memory: bool,
                      ghost depth: nat)
    returns (status: Status, curr: seq<HashKey>)
    requires pool.Valid() && names != [] && KeysOk(names) && maxSize > 0 && Alignment(cacheline)
    requires forall k :: k in names ==> |k.name| <= depth
    modifies pool
    ensures pool.Valid() && pool.brk >= old(pool.brk) && Kept(old(pool.tables), pool.tables, old(pool.brk))
    ensures status == Ok ==>
              curr != [] && Flat(curr) && LevelOk(pool.tables, pool.brk, curr, names, |names|) &&
              Light(curr, names, |names|, bucketSize, cacheline)
    ensures memory && Roomy(names, bucketSize, cacheline) ==> status == Ok
    decreases depth, 2
  {
    hide Edge, Flat, Light, LevelOk, KeysOk, Roomy, Pool.Valid;
    curr := [];
    var n := 0;
    NoGroup(pool.tables, pool.brk, names, bucketSize, cacheline);
    while n < |names|
      invariant n <= |names| && Edge(names, n)
      invariant pool.Valid() && pool.brk >= old(pool.brk) && Kept(old(pool.tables), pool.tables, old(pool.brk))
      invariant Flat(curr) && LevelOk(pool.tables, pool.brk, curr, names, n) && (n > 0 ==> curr != [])
      invariant Light(curr, names, n, bucketSize, cacheline)
    {
      var i, e;
      status, i, e := NextGroup(pool, curr, names, n, bucketSize, maxSize, cacheline, memory, depth);
      if status != Ok { return; }
      curr, n := curr + [e], i;
    }
    status := Ok;
  }

  method WildcardInit(pool: Pool, names: seq<WKey>, bucketSize: nat, maxSize: nat, cacheline: nat, memory: bool,
                      ghost depth: nat)
    returns (status: Status, addr: Word)
    requires pool.Valid() && names != [] && KeysOk(names) && maxSize > 0 && Alignment(cacheline)
    requires forall k :: k in names ==> |k.name| <= depth
    modifies pool
    ensures pool.Valid() && pool.brk >= old(pool.brk) && Kept(old(pool.tables), pool.tables, old(pool.brk))
    ensures status == Ok ==>
              old(pool.brk) <= addr < pool.brk && Aligned(addr) && addr in pool.tables &&
              Indexed(pool.tables, addr, names) && pool.tables[addr].value == NULL
    ensures memory && Roomy(names, bucketSize, cacheline) ==> status == Ok
    decreases depth, 3
  {
    addr := NULL;
    var curr, t;
    status, curr := CollectLevel(pool, names, bucketSize, maxSize, cacheline, memory, depth);
    if status != Ok { return; }
    if Roomy(names, bucketSize, cacheline) { LightFits(curr, names, bucketSize, cacheline); }
    status, t := Init(curr, bucketSize, maxSize, cacheline, memory);
    if status != Ok { return; }
    LevelDone(pool.tables, pool.brk, t, curr, names, cacheline);
    addr := pool.Alloc(t);
  }

  lemma NextShorter(names: seq<WKey>, n: nat, i: nat, next: seq<WKey>, depth: nat)
    requires n < i <= |names| && next == Below(names, n, i) && next != []
    requires forall k :: k in names ==> |k.name| <= depth
    ensures depth > 0 && forall k :: k in next ==> |k.name| <= depth - 1
  {
    var l := Head(names[n].name);
    forall k | k in next ensures |k.name| < depth {
      var j := RestsMember(names, l, n, i, k);
      RestIs(names[j], l, k);
      assert names[j] in names;
    }
    assert next[0] in next;
  }
}
