/** The wildcard index of ngx_hash.c: ngx_hash_wildcard_init turns sorted dotted
    keys into nested hash tables linked by tagged pointers, and
    ngx_hash_find_wc_head / ngx_hash_find_wc_tail search them. */
module Wildcards {
  import opened Common
  import opened Text
  import opened HashLayout

  /** ngx_hash_wildcard_t. */
  datatype WTable = WTable(hash: Table, value: Word)

  /** A dotted key: "com.example" or, for the wildcard-only form, "com.example.". */
  datatype WKey = WKey(name: string, value: Word)

  /** What a dotted key means. */
  datatype Pat = Pat(labels: seq<string>, star: bool, value: Word)

  // ----- the two tag bits of a value word

  predicate Aligned(w: Word) { w != NULL && w % 4 == 0 }

  /** `p | tag` for a 4-aligned pointer. */
  function WithTag(p: Word, tag: nat): Word
    requires Aligned(p) && tag < 4
  {
    p + tag
  }

  /** `w & 2` and `w & 1`. */
  predicate Bit1(w: Word) { w % 4 >= 2 }

  predicate Bit0(w: Word) { w % 4 == 1 || w % 4 == 3 }

  /** `w & ~3`. */
  function Untag(w: Word): Word { w - w % 4 }

  /** The tags written by the builder are the ones the finders read back. */
  lemma TagRoundTrip(p: Word, tag: nat)
    requires Aligned(p) && tag < 4
    ensures WithTag(p, tag) != NULL && Untag(WithTag(p, tag)) == p
    ensures Bit1(WithTag(p, tag)) <==> tag >= 2
    ensures Bit0(WithTag(p, tag)) <==> tag == 1 || tag == 3
  {
    assert p == 4 * (p / 4);
    assert WithTag(p, tag) % 4 == tag;
  }

  // ----- the meaning of a set of patterns

  /** Does pattern `p` cover the labels `q`?  A tail pattern and a starred head
      pattern need a further label. */
  predicate Matches(tail: bool, p: Pat, q: seq<string>) {
    p.labels <= q && (tail || p.star ==> |p.labels| < |q|)
  }

  /** `r` is the value of the longest matching pattern, or NULL when there is none. */
  ghost predicate IsBest(tail: bool, pats: seq<Pat>, q: seq<string>, r: Word) {
    if r == NULL then
      forall p :: p in pats ==> !Matches(tail, p, q)
    else
      exists p :: p in pats && Longest(tail, pats, q, p) && r == p.value
  }

  ghost predicate Longest(tail: bool, pats: seq<Pat>, q: seq<string>, p: Pat) {
    Matches(tail, p, q) && forall o :: o in pats && Matches(tail, o, q) ==> |o.labels| <= |p.labels|
  }

  ghost predicate ProperPat(p: Pat) {
    p.labels != [] && Aligned(p.value) && forall i :: 0 <= i < |p.labels| ==> IsLower(p.labels[i])
  }

  /** Every pattern is well formed and no two have the same labels. */
  ghost predicate Proper(pats: seq<Pat>) {
    (forall p :: p in pats ==> ProperPat(p)) && Distinct(pats)
  }

  ghost predicate Distinct(pats: seq<Pat>) {
    forall i, j :: 0 <= i < j < |pats| ==> pats[i].labels != pats[j].labels
  }

  lemma SameLabels(pats: seq<Pat>, p: Pat, o: Pat)
    requires Proper(pats) && p in pats && o in pats && p.labels == o.labels
    ensures p == o
  {}

  /** The answer is unique. */
  lemma BestUnique(tail: bool, pats: seq<Pat>, q: seq<string>, r: Word, s: Word)
    requires Proper(pats) && IsBest(tail, pats, q, r) && IsBest(tail, pats, q, s)
    ensures r == s
  {
    if r != NULL && s != NULL {
      var p :| p in pats && Longest(tail, pats, q, p) && r == p.value;
      var o :| o in pats && Longest(tail, pats, q, o) && s == o.value;
      assert p.labels == q[..|p.labels|] && o.labels == q[..|o.labels|];
      SameLabels(pats, p, o);
    }
  }

  // ----- one level of the index

  /** The patterns below the first label `l`, with that label removed. */
  ghost function Sub(pats: seq<Pat>, l: string): seq<Pat>
    requires forall p :: p in pats ==> p.labels != []
  {
    SubTo(pats, l, |pats|)
  }

  ghost function SubTo(pats: seq<Pat>, l: string, n: nat): seq<Pat>
    requires n <= |pats| && forall p :: p in pats ==> p.labels != []
  {
    if n == 0 then [] else SubTo(pats, l, n - 1) + SubOf(pats[n - 1], l)
  }

  ghost function SubOf(p: Pat, l: string): seq<Pat>
    requires p.labels != []
  {
    if p.labels[0] == l && |p.labels| > 1 then [Drop(p)] else []
  }

  ghost function Drop(p: Pat): Pat
    requires p.labels != []
  {
    p.(labels := p.labels[1..])
  }

  ghost function Lift(l: string, p: Pat): Pat { p.(labels := [l] + p.labels) }

  /** The pattern that consists of the label `l` alone. */
  ghost function Own(pats: seq<Pat>, l: string): Option<Pat> {
    if p :| p in pats && p.labels == [l] then Some(p) else None
  }

  lemma DropLift(p: Pat, l: string, s: Pat)
    requires p.labels != []
    ensures s in SubOf(p, l) <==> s.labels != [] && p == Lift(l, s)
  {
    if p.labels[0] == l { assert p.labels == [l] + p.labels[1..]; }
  }

  lemma {:induction false} SubToMember(pats: seq<Pat>, l: string, n: nat, s: Pat)
    requires n <= |pats| && forall p :: p in pats ==> p.labels != []
    ensures s in SubTo(pats, l, n) <==> s.labels != [] && exists i :: 0 <= i < n && pats[i] == Lift(l, s)
  {
    if n > 0 {
      SubToMember(pats, l, n - 1, s);
      DropLift(pats[n - 1], l, s);
    }
  }

  lemma SubMember(pats: seq<Pat>, l: string, s: Pat)
    requires forall p :: p in pats ==> p.labels != []
    ensures s in Sub(pats, l) <==> s.labels != [] && Lift(l, s) in pats
  {
    SubToMember(pats, l, |pats|, s);
  }

  lemma OwnMember(pats: seq<Pat>, l: string)
    ensures Own(pats, l).Some? ==> Own(pats, l).value in pats && Own(pats, l).value.labels == [l]
    ensures Own(pats, l).None? ==> forall p :: p in pats ==> p.labels != [l]
  {}

  lemma {:induction false} SubDistinct(pats: seq<Pat>, l: string, n: nat)
    requires Proper(pats) && n <= |pats|
    ensures Distinct(SubTo(pats, l, n))
  {
    if n > 0 {
      SubDistinct(pats, l, n - 1);
      var s, t := SubTo(pats, l, n - 1), SubOf(pats[n - 1], l);
      if t != [] {
        forall i | 0 <= i < |s| ensures s[i].labels != t[0].labels { SubOthers(pats, l, n, s[i], t[0]); }
      }
    }
  }

  lemma SubOthers(pats: seq<Pat>, l: string, n: nat, s: Pat, t: Pat)
    requires Proper(pats) && 0 < n <= |pats| && s in SubTo(pats, l, n - 1) && t in SubOf(pats[n - 1], l)
    ensures s.labels != t.labels
  {
    SubToMember(pats, l, n - 1, s);
    DropLift(pats[n - 1], l, t);
    var i :| 0 <= i < n - 1 && pats[i] == Lift(l, s);
    assert pats[i].labels != pats[n - 1].labels;
  }

  lemma SubProper(pats: seq<Pat>, l: string)
    requires Proper(pats)
    ensures Proper(Sub(pats, l))
  {
    forall s | s in Sub(pats, l) ensures ProperPat(s) {
      SubMember(pats, l, s);
      var p := Lift(l, s);
      assert ProperPat(p);
      forall i | 0 <= i < |s.labels| ensures IsLower(s.labels[i]) {
        assert p.labels[i + 1] == s.labels[i];
      }
    }
    SubDistinct(pats, l, |pats|);
  }

  lemma MatchesDrop(tail: bool, l: string, s: Pat, q: seq<string>)
    requires q != []
    ensures Matches(tail, Lift(q[0], s), q) <==> Matches(tail, s, q[1..])
  {
    assert q == [q[0]] + q[1..];
    if s.labels <= q[1..] { assert ([q[0]] + s.labels) <= q; }
    if ([q[0]] + s.labels) <= q { assert s.labels == ([q[0]] + s.labels)[1..]; }
  }

  /** A pattern that matches q is q's first label alone, or lies below it. */
  lemma MatchCases(tail: bool, pats: seq<Pat>, q: seq<string>, p: Pat)
    requires Proper(pats) && q != [] && p in pats && Matches(tail, p, q)
    ensures p.labels == [q[0]] ||
            (Drop(p) in Sub(pats, q[0]) && p == Lift(q[0], Drop(p)) && Matches(tail, Drop(p), q[1..]))
  {
    assert p.labels[0] == q[0];
    if |p.labels| > 1 {
      assert p.labels == [q[0]] + p.labels[1..];
      SubMember(pats, q[0], Drop(p));
      MatchesDrop(tail, q[0], Drop(p), q);
    } else {
      assert p.labels == [q[0]];
    }
  }

  /** An answer from below is an answer here. */
  lemma BestBelow(tail: bool, pats: seq<Pat>, q: seq<string>, r: Word)
    requires Proper(pats) && q != [] && r != NULL
    requires IsBest(tail, Sub(pats, q[0]), q[1..], r)
    ensures IsBest(tail, pats, q, r)
  {
    var subs := Sub(pats, q[0]);
    var s :| s in subs && Longest(tail, subs, q[1..], s) && r == s.value;
    var p := Lift(q[0], s);
    SubMember(pats, q[0], s);
    MatchesDrop(tail, q[0], s, q);
    forall o | o in pats && Matches(tail, o, q) ensures |o.labels| <= |p.labels| {
      MatchCases(tail, pats, q, o);
      if o.labels != [q[0]] { assert |Drop(o).labels| <= |s.labels|; }
    }
    assert Longest(tail, pats, q, p);
  }

  /** With no answer from below, the label's own pattern decides. */
  lemma BestHere(tail: bool, pats: seq<Pat>, q: seq<string>)
    requires Proper(pats) && q != [] && IsBest(tail, Sub(pats, q[0]), q[1..], NULL)
    ensures var own := Own(pats, q[0]);
            IsBest(tail, pats, q, if own.Some? && Matches(tail, own.value, q) then own.value.value else NULL)
  {
    var own := Own(pats, q[0]);
    OwnMember(pats, q[0]);
    forall o | o in pats && Matches(tail, o, q)
      ensures own.Some? && o == own.value
    {
      MatchCases(tail, pats, q, o);
      assert o.labels == [q[0]];
      SameLabels(pats, o, own.value);
    }
    if own.Some? && Matches(tail, own.value, q) {
      assert Longest(tail, pats, q, own.value);
    }
  }

  lemma NothingBelow(tail: bool, pats: seq<Pat>, q: seq<string>)
    requires Proper(pats) && |q| == 1
    ensures IsBest(tail, Sub(pats, q[0]), q[1..], NULL)
  {
    SubProper(pats, q[0]);
  }

  // ----- the index in memory

  /** The table at `addr` indexes `pats`: looking up a label gives the word that the
      00/01/10/11 rules prescribe for it, and linked tables lie below. */
  ghost predicate Indexes(tables: map<Word, WTable>, addr: Word, pats: seq<Pat>)
    requires Proper(pats)
    decreases addr, 1
  {
    addr in tables && WellFormed(tables[addr].hash) &&
    forall l: string :: EntryOk(tables, addr, Lookup(tables[addr].hash, HashOf(l), l), pats, l)
  }

  ghost predicate EntryOk(tables: map<Word, WTable>, addr: Word, w: Word, pats: seq<Pat>, l: string)
    requires Proper(pats)
    decreases addr, 0
  {
    SubProper(pats, l);
    var subs, own := Sub(pats, l), Own(pats, l);
    if subs == [] then
      w == LeafWord(own)
    else
      var a := Untag(w);
      Aligned(a) && a < addr && a in tables &&
      w == WithTag(a, if own.Some? && !own.value.star then 2 else 3) &&
      Indexes(tables, a, subs) &&
      tables[a].value == if own.Some? then own.value.value else NULL
  }

  ghost function LeafWord(own: Option<Pat>): Word {
    match own
    case None => NULL
    case Some(p) => if p.star then p.value + 1 else p.value
  }

  /** What a search of the table at `addr` returns: the best value, or the
      table's own value when nothing below matches. */
  ghost predicate Answers(tail: bool, pats: seq<Pat>, q: seq<string>, own: Word, r: Word) {
    IsBest(tail, pats, q, r) || (r == own && IsBest(tail, pats, q, NULL))
  }

  /** What the tag bits of an entry say about the patterns. */
  lemma ReadEntry(tables: map<Word, WTable>, addr: Word, w: Word, pats: seq<Pat>, l: string)
    requires Proper(pats) && EntryOk(tables, addr, w, pats, l)
    ensures Proper(Sub(pats, l))
    ensures w == NULL ==> Own(pats, l).None? && Sub(pats, l) == []
    ensures w != NULL && Bit1(w) ==>
              Untag(w) < addr && Indexes(tables, Untag(w), Sub(pats, l)) &&
              tables[Untag(w)].value == (if Own(pats, l).Some? then Own(pats, l).value.value else NULL) &&
              (Bit0(w) <==> Own(pats, l).None? || Own(pats, l).value.star)
    ensures w != NULL && !Bit1(w) ==>
              Sub(pats, l) == [] && Own(pats, l).Some? && Own(pats, l).value.value == Untag(w) &&
              (Bit0(w) <==> Own(pats, l).value.star) && (!Bit0(w) ==> Untag(w) == w)
  {
    SubProper(pats, l);
    var subs, own := Sub(pats, l), Own(pats, l);
    OwnMember(pats, l);
    if subs == [] {
      if own.Some? {
        assert ProperPat(own.value);
        TagRoundTrip(own.value.value, if own.value.star then 1 else 0);
      }
    } else {
      TagRoundTrip(Untag(w), if own.Some? && !own.value.star then 2 else 3);
    }
  }

  /** The last label's start and hash, as ngx_hash_find_wc_head computes them. */
  method LastLabel(name: string) returns (n: nat, key: nat)
    ensures n == LastDot(name) && key == HashOf(name[n..])
  {
    n := |name|;
    while n > 0 && name[n - 1] != DOT
      invariant 0 <= n <= |name| && forall i :: n <= i < |name| ==> name[i] != DOT
    {
      n := n - 1;
    }
    LastDotUnique(name, n);
    key := 0;
    for i := n to |name|
      invariant key == HashRange(name, n, i)
    {
      key := HashStep(key, name[i]);
    }
    HashSlice(name, n, |name|);
    assert name[n..|name|] == name[n..];
  }

  /** ngx_hash_find_wc_head. */
  method FindHead(tables: map<Word, WTable>, addr: Word, name: string, ghost pats: seq<Pat>) returns (r: Word)
    requires Proper(pats) && Indexes(tables, addr, pats)
    ensures Answers(false, pats, RLabels(name), tables[addr].value, r)
    decreases |name|
  {
    var n, key := LastLabel(name);
    var value := Find(tables[addr].hash, key, name[n..]);
    ghost var l, q := name[n..], RLabels(name);
    assert l == q[0] && n == 0 <==> |q| == 1;
    assert EntryOk(tables, addr, value, pats, l);
    ReadEntry(tables, addr, value, pats, l);
    if value != NULL && Bit1(value) && n > 0 {
      var sub := Untag(value);
      assert q[1..] == RLabels(name[..n - 1]);
      r := FindHead(tables, sub, name[..n - 1], Sub(pats, l));
      AnswerBelow(false, pats, q, tables[sub].value, r);
      if r != NULL { return r; }
      return tables[sub].value;
    }
    AnswerHere(false, pats, q);
    if value == NULL { return tables[addr].value; }
    if Bit1(value) {
      if Bit0(value) { return NULL; }
      return tables[Untag(value)].value;
    }
    if Bit0(value) {
      if n == 0 { return NULL; }
      return Untag(value);
    }
    return value;
  }

  ghost function OwnAnswer(tail: bool, pats: seq<Pat>, q: seq<string>): Word
    requires q != []
  {
    var own := Own(pats, q[0]);
    if own.Some? && Matches(tail, own.value, q) then own.value.value else NULL
  }

  /** Fallback: the table below answers, or its own value does. */
  lemma AnswerBelow(tail: bool, pats: seq<Pat>, q: seq<string>, own: Word, r: Word)
    requires Proper(pats) && |q| > 1
    requires Answers(tail, Sub(pats, q[0]), q[1..], own, r)
    requires own == if Own(pats, q[0]).Some? then Own(pats, q[0]).value.value else NULL
    ensures IsBest(tail, pats, q, if r != NULL then r else own)
  {
    OwnMember(pats, q[0]);
    if IsBest(tail, Sub(pats, q[0]), q[1..], r) && r != NULL {
      BestBelow(tail, pats, q, r);
    } else {
      BestHere(tail, pats, q);
    }
  }

  /** No further label, or no patterns below the label. */
  lemma AnswerHere(tail: bool, pats: seq<Pat>, q: seq<string>)
    requires Proper(pats) && q != [] && (|q| == 1 || Sub(pats, q[0]) == [])
    ensures IsBest(tail, pats, q, OwnAnswer(tail, pats, q))
    ensures Own(pats, q[0]).Some? ==>
              (Matches(tail, Own(pats, q[0]).value, q) <==> ((tail || Own(pats, q[0]).value.star) ==> |q| > 1))
  {
    if |q| == 1 { NothingBelow(tail, pats, q); }
    BestHere(tail, pats, q);
    OwnMember(pats, q[0]);
  }

  /** The first label's end and hash, as ngx_hash_find_wc_tail computes them. */
  method FirstLabel(name: string) returns (i: nat, key: nat)
    ensures i == FirstDot(name) && key == HashOf(name[..i])
  {
    i, key := 0, 0;
    while i < |name| && name[i] != DOT
      invariant i <= |name| && (forall j :: 0 <= j < i ==> name[j] != DOT) && key == HashRange(name, 0, i)
    {
      key, i := HashStep(key, name[i]), i + 1;
    }
    FirstDotUnique(name, i);
    HashSlice(name, 0, i);
    assert name[0..i] == name[..i];
  }

  /** No tail key ends in a dot. */
  ghost predicate Unstarred(pats: seq<Pat>) {
    forall p :: p in pats ==> !p.star
  }

  lemma SubUnstarred(pats: seq<Pat>, l: string)
    requires Proper(pats) && Unstarred(pats)
    ensures Unstarred(Sub(pats, l))
  {
    forall s | s in Sub(pats, l) ensures !s.star { SubMember(pats, l, s); }
  }

  /** ngx_hash_find_wc_tail. */
  method FindTail(tables: map<Word, WTable>, addr: Word, name: string, ghost pats: seq<Pat>) returns (r: Word)
    requires Proper(pats) && Unstarred(pats) && Indexes(tables, addr, pats)
    ensures Answers(true, pats, Labels(name), tables[addr].value, r)
    decreases |name|
  {
    var i, key := FirstLabel(name);
    ghost var l, q := name[..i], Labels(name);
    assert l == q[0] && i == |name| <==> |q| == 1;
    if i == |name| {
      AnswerHere(true, pats, q);
      return NULL;
    }
    var value := Find(tables[addr].hash, key, name[..i]);
    assert EntryOk(tables, addr, value, pats, l);
    ReadEntry(tables, addr, value, pats, l);
    if value != NULL && Bit1(value) {
      var sub := Untag(value);
      assert q[1..] == Labels(name[i + 1..]);
      SubUnstarred(pats, l);
      r := FindTail(tables, sub, name[i + 1..], Sub(pats, l));
      AnswerBelow(true, pats, q, tables[sub].value, r);
      if r != NULL { return r; }
      return tables[sub].value;
    }
    AnswerHere(true, pats, q);
    OwnMember(pats, l);
    if value != NULL { return value; }
    return tables[addr].value;
  }
}
