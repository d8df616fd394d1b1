/** When ngx_hash_find_combined answers like a scan of all patterns: exactly when, in the sorted arrays, keys with equal
    labels are neighbours. */
module Lookups {
  import opened Text
  import opened HashLayout
  import opened Wildcards
  import opened WildcardKeys
  import opened WildcardOrder
  import opened HashKeys
  import opened HashCombined

  /** The index answers every query like a scan of all patterns. */
  ghost predicate Faithful(log: seq<Entry>, heads: seq<WKey>, tails: seq<WKey>) {
    forall q: string, r: Word :: Scan(FoundLog(log, heads, tails), q, r) ==> Scan(log, q, r)
  }

  ghost predicate DistinctValues(log: seq<Entry>) {
    forall i, j :: 0 <= i < j < |log| ==> log[i].value != log[j].value
  }

  /** The arrays that the builder gets for these patterns. */
  ghost predicate Arrays(log: seq<Entry>, heads: seq<WKey>, tails: seq<WKey>) {
    GoodLog(log) && SortedFrom(HeadsOf(log), heads) && SortedFrom(TailsOf(log), tails)
  }

  /** With different values, every lookup is right if and only if equal labels are neighbours. */
  lemma LookupIff(log: seq<Entry>, heads: seq<WKey>, tails: seq<WKey>)
    requires Arrays(log, heads, tails) && DistinctValues(log)
    ensures Faithful(log, heads, tails) <==> Grouped(heads) && Grouped(tails)
  {
    hide GoodLog, SortedFrom, Found, Scan, FoundTo, HeadsTo, TailsTo, DistinctValues, Faithful;
    if Grouped(heads) && Grouped(tails) {
      NothingLost(log, heads, tails);
      AllFaithful(log, heads, tails);
    } else if !Grouped(heads) {
      var k: nat :| k < |heads| && !Found(heads, k);
      var e := LostHead(log, heads, tails, k);
      LostAnswer(log, heads, tails, e);
    } else {
      var k: nat :| k < |tails| && !Found(tails, k);
      var e := LostTail(log, heads, tails, k);
      LostAnswer(log, heads, tails, e);
    }
  }

  lemma AllFaithful(log: seq<Entry>, heads: seq<WKey>, tails: seq<WKey>)
    requires FoundLog(log, heads, tails) == log
    ensures Faithful(log, heads, tails)
  {}

  lemma NotReach(names: seq<WKey>, k: nat)
    requires DistinctNames(names) && k < |names| && !Found(names, k)
    ensures names[k] !in Reach(names)
  {
    hide Found;
    ReachMember(names, |names|, names[k]);
  }

  lemma LostHead(log: seq<Entry>, heads: seq<WKey>, tails: seq<WKey>, k: nat) returns (e: Entry)
    requires Arrays(log, heads, tails) && k < |heads| && !Found(heads, k)
    ensures e in log && !Reached(e, heads, tails)
  {
    hide GoodLog, Found, HeadsTo, HeadKey, HeadOfEntry, ReachTo;
    HeadsDistinct(log, |log|);
    SortedDistinct(HeadsOf(log), heads);
    SortedMember(HeadsOf(log), heads, heads[k]);
    HeadsMember(log, |log|, heads[k]);
    var i :| 0 <= i < |log| && HeadOfEntry(log[i]) == [heads[k]];
    e := log[i];
    HeadKeyIs(e, heads[k]);
    NotReach(heads, k);
  }

  lemma LostTail(log: seq<Entry>, heads: seq<WKey>, tails: seq<WKey>, k: nat) returns (e: Entry)
    requires Arrays(log, heads, tails) && k < |tails| && !Found(tails, k)
    ensures e in log && !Reached(e, heads, tails)
  {
    hide GoodLog, Found, TailsTo, ReachTo;
    TailsDistinct(log, |log|);
    SortedDistinct(TailsOf(log), tails);
    SortedMember(TailsOf(log), tails, tails[k]);
    TailsMember(log, |log|, tails[k]);
    var i :| 0 <= i < |log| && TailOfEntry(log[i]) == [tails[k]];
    e := log[i];
    NotReach(tails, k);
  }

  // ----- a name for which a lost pattern matters

  ghost function LongestText(log: seq<Entry>, n: nat): (r: nat)
    requires n <= |log|
    ensures forall i :: 0 <= i < n && !log[i].form.Invalid? ==> |log[i].form.x| <= r
  {
    if n == 0 then 0
    else
      var m := LongestText(log, n - 1);
      if log[n - 1].form.Invalid? || |log[n - 1].form.x| <= m then m else |log[n - 1].form.x|
  }

  /** A label longer than all patterns. */
  ghost function Fresh(log: seq<Entry>): (f: string)
    ensures DOT !in f && forall e :: e in log && !e.form.Invalid? ==> |e.form.x| < |f|
  {
    var f := seq(LongestText(log, |log|) + 1, _ => 'a');
    assert forall e :: e in log && !e.form.Invalid? ==> |e.form.x| < |f| by {
      forall e | e in log && !e.form.Invalid? ensures |e.form.x| < |f| {
        var i :| 0 <= i < |log| && log[i] == e;
      }
    }
    f
  }

  /** Every wildcard is the longest one that covers some name. */
  lemma NeedsEntry(log: seq<Entry>, e: Entry) returns (q: string)
    requires GoodLog(log) && e in log && (IsHead(e.form) || e.form.TailOf?)
    ensures Scan(log, q, e.value)
  {
    var f := Fresh(log);
    assert e.value != NULL by { EntryGood(log, e); }
    if IsHead(e.form) {
      q := f + ([DOT] + e.form.x);
      HeadNeeded(log, e, f, q);
    } else {
      q := e.form.x + [DOT] + f;
      TailNeeded(log, e, f, q);
    }
  }

  lemma EntryGood(log: seq<Entry>, e: Entry)
    requires GoodLog(log) && e in log
    ensures GoodEntry(e)
  {
    var i :| 0 <= i < |log| && log[i] == e;
  }

  lemma HeadNeeded(log: seq<Entry>, e: Entry, f: string, q: string)
    requires e in log && IsHead(e.form) && e.value != NULL && q == f + ([DOT] + e.form.x)
    requires DOT !in f && forall g :: g in log && !g.form.Invalid? ==> |g.form.x| < |f|
    ensures Scan(log, q, e.value)
  {
    assert Covers(e.form, q) by { assert q[|q| - |e.form.x| - 1..] == [DOT] + e.form.x; }
    forall g | g in log && IsHead(g.form) && Covers(g.form, q) ensures |g.form.x| <= |e.form.x| {
      if |g.form.x| > |e.form.x| { SuffixDot(q, g.form.x, f, [DOT] + e.form.x); }
    }
    assert LongestEntry(log, HeadKind, q, e);
  }

  lemma SuffixDot(q: string, y: string, f: string, rest: string)
    requires q == f + rest && DOT !in f && |y| + 1 > |rest|
    ensures !EndsWith(q, [DOT] + y)
  {
    forall k | 0 <= k < |f| ensures q[k] != DOT { assert q[k] == f[k]; }
    EndsDot(q, y);
  }

  lemma EndsDot(q: string, y: string)
    ensures EndsWith(q, [DOT] + y) ==> |y| < |q| && q[|q| - |y| - 1] == DOT
  {
    var s := [DOT] + y;
    if EndsWith(q, s) { assert q[|q| - |s|..][0] == s[0]; }
  }

  lemma TailNeeded(log: seq<Entry>, e: Entry, f: string, q: string)
    requires e in log && e.form.TailOf? && e.value != NULL && q == e.form.x + [DOT] + f
    requires DOT !in f && forall g :: g in log && !g.form.Invalid? ==> |g.form.x| < |f|
    ensures Scan(log, q, e.value)
  {
    var p := e.form.x + [DOT];
    assert p <= q;
    forall g | g in log && IsHead(g.form) ensures !Covers(g.form, q) { NoSuffix(q, p, f, g.form.x); }
    forall k | |p| <= k < |q| ensures q[k] != DOT { assert q[k] == f[k - |p|]; }
    forall g | g in log && g.form.TailOf? && Covers(g.form, q) ensures |g.form.x| <= |e.form.x| {
      PrefixDot(q, g.form.x);
    }
    assert LongestEntry(log, TailKind, q, e);
  }

  lemma NoSuffix(q: string, p: string, f: string, y: string)
    requires q == p + f && DOT !in f && |y| < |f|
    ensures q != y && !EndsWith(q, [DOT] + y)
  {
    forall k | |p| <= k < |q| ensures q[k] != DOT { assert q[k] == f[k - |p|]; }
    EndsDot(q, y);
  }

  lemma PrefixDot(q: string, y: string)
    requires y + [DOT] <= q
    ensures |y| < |q| && q[|y|] == DOT
  {
    assert q[|y|] == (y + [DOT])[|y|];
  }

  /** The longest covering pattern of a kind among the first n, or -1. */
  lemma {:induction false} BestOf(log: seq<Entry>, kind: Kind, q: string, n: nat) returns (b: int)
    requires n <= |log|
    ensures -1 <= b < n
    ensures b == -1 ==> forall i :: 0 <= i < n && OfKind(log[i].form, kind) ==> !Covers(log[i].form, q)
    ensures b >= 0 ==> OfKind(log[b].form, kind) && Covers(log[b].form, q) && forall i ::
      0 <= i < n && OfKind(log[i].form, kind) && Covers(log[i].form, q) ==> |log[i].form.x| <= |log[b].form.x|
  {
    hide Covers;
    b := -1;
    if n > 0 {
      b := BestOf(log, kind, q, n - 1);
      var f := log[n - 1].form;
      if OfKind(f, kind) && Covers(f, q) && (b == -1 || |f.x| > |log[b].form.x|) { b := n - 1; }
    }
  }

  lemma AnswerOf(log: seq<Entry>, kind: Kind, q: string) returns (r: Word)
    requires GoodLog(log)
    ensures LongestAnswer(log, kind, q, r) && (r != NULL ==> exists e :: e in log && e.value == r)
  {
    hide Covers;
    var b := BestOf(log, kind, q, |log|);
    if b == -1 { return NULL; }
    EntryGood(log, log[b]);
    r := log[b].value;
    assert LongestEntry(log, kind, q, log[b]);
  }

  /** A scan always has an answer, which is the value of a pattern or NULL. */
  lemma ScanTotal(log: seq<Entry>, q: string) returns (r: Word)
    requires GoodLog(log)
    ensures Scan(log, q, r) && (r != NULL ==> exists e :: e in log && e.value == r)
  {
    hide GoodLog, LongestAnswer;
    r := AnswerOf(log, ExactKind, q);
    if r != NULL { return; }
    r := AnswerOf(log, HeadKind, q);
    if r != NULL { return; }
    r := AnswerOf(log, TailKind, q);
  }

  lemma LostAnswer(log: seq<Entry>, heads: seq<WKey>, tails: seq<WKey>, e: Entry)
    requires GoodLog(log) && DistinctValues(log) && e in log && !Reached(e, heads, tails)
    ensures !Faithful(log, heads, tails)
  {
    hide GoodLog, DistinctValues, Scan, FoundTo;
    var found := FoundLog(log, heads, tails);
    FoundGood(log, heads, tails, |log|);
    var q := NeedsEntry(log, e);
    var r := ScanTotal(found, q);
    if Scan(log, q, r) {
      ScanUnique(log, q, r, e.value);
      EntryGood(log, e);
      var g :| g in found && g.value == r;
      FoundMember(log, heads, tails, |log|, g);
      SameValue(log, e, g);
    }
  }

  lemma SameValue(log: seq<Entry>, e: Entry, g: Entry)
    requires DistinctValues(log) && e in log && g in log && e.value == g.value
    ensures e == g
  {
    var i :| 0 <= i < |log| && log[i] == e;
    var j :| 0 <= j < |log| && log[j] == g;
  }

  // ----- characters above the space suffice

  ghost predicate Over(s: string, chars: set<char>) {
    forall i :: 0 <= i < |s| ==> s[i] == DOT || s[i] in chars
  }

  /** The wildcards have only these characters, beside dots. */
  ghost predicate WildOver(log: seq<Entry>, chars: set<char>) {
    forall e :: e in log && (IsHead(e.form) || e.form.TailOf?) ==> Over(e.form.x, chars)
  }

  lemma {:induction false} RevHost(x: string)
    requires HostChars(x)
    ensures HostChars(Rev(x))
    decreases |x|
  {
    var d := FirstDot(x);
    if d < |x| { RevHost(x[d + 1..]); }
  }

  lemma OverHost(s: string, chars: set<char>)
    requires Over(s, chars) && forall ch :: ch in chars ==> ch > ' '
    ensures HostChars(s)
  {}

  lemma HostHeads(log: seq<Entry>, heads: seq<WKey>, chars: set<char>)
    requires GoodLog(log) && SortedFrom(HeadsOf(log), heads)
    requires WildOver(log, chars) && forall ch :: ch in chars ==> ch > ' '
    ensures Grouped(heads)
  {
    hide GoodLog, HeadsTo, Grouped, HeadKey;
    forall k | k in heads ensures k.name != "" && HostChars(k.name) {
      SortedMember(HeadsOf(log), heads, k);
      var e := HeadEntry(log, k);
      OverHost(e.form.x, chars);
      HostKey(e);
    }
    HostGrouped(heads);
  }

  lemma HostKey(e: Entry)
    requires IsHead(e.form) && HostChars(e.form.x)
    ensures HostChars(HeadKey(e.form.x, e.form.StarHead?))
  {
    RevHost(e.form.x);
  }

  lemma HostTails(log: seq<Entry>, tails: seq<WKey>, chars: set<char>)
    requires GoodLog(log) && SortedFrom(TailsOf(log), tails)
    requires WildOver(log, chars) && forall ch :: ch in chars ==> ch > ' '
    ensures Grouped(tails)
  {
    hide GoodLog, TailsTo, Grouped;
    forall k | k in tails ensures k.name != "" && HostChars(k.name) {
      SortedMember(TailsOf(log), tails, k);
      var e := TailEntry(log, k);
      OverHost(e.form.x, chars);
    }
    HostGrouped(tails);
  }

  /** Wildcards of characters above the space are always found, in whatever order qsort leaves them. */
  lemma HostFaithful(log: seq<Entry>, heads: seq<WKey>, tails: seq<WKey>, chars: set<char>)
    requires Arrays(log, heads, tails) && WildOver(log, chars) && forall ch :: ch in chars ==> ch > ' '
    ensures Grouped(heads) && Grouped(tails) && Faithful(log, heads, tails)
  {
    hide GoodLog, SortedFrom, Grouped, Faithful;
    HostHeads(log, heads, chars);
    HostTails(log, tails, chars);
    NothingLost(log, heads, tails);
    AllFaithful(log, heads, tails);
  }

  // ----- and no others do

  /** The patterns ".l", ".l", a character and u, and ".t.l". */
  ghost function SpaceCalls(l: string, ch: char, u: string, t: string, v1: Word, v2: Word, v3: Word): seq<Entry> {
    [Entry(DotHead(l), v1), Entry(DotHead(l + [ch] + u), v2), Entry(DotHead(t + [DOT] + l), v3)]
  }

  ghost function SpaceKeys(l: string, ch: char, u: string, t: string, v1: Word, v2: Word, v3: Word): seq<WKey> {
    [WKey(l, v1), WKey(l + [ch] + u, v2), WKey(l + [DOT] + t, v3)]
  }

  ghost predicate Label(l: string) {
    DOT !in l && IsLower(l)
  }

  /** With a character that is not above the space all three patterns are accepted, and their sorted array can have the
      second key between two with the same first label. Then the third pattern is lost: the name t.l is answered with
      v1, and a scan answers v3. */
  lemma SpaceSplits(l: string, ch: char, u: string, t: string, v1: Word, v2: Word, v3: Word)
    requires Label(l) && Label(u) && Label(t) && l != "" && t != "" && '\0' < ch <= ' '
    requires Aligned(v1) && Aligned(v2) && Aligned(v3)
    ensures var calls, keys := SpaceCalls(l, ch, u, t, v1, v2, v3), SpaceKeys(l, ch, u, t, v1, v2, v3);
      && Run(calls, 3).log == calls && HeadsOf(calls) == keys && TailsOf(calls) == [] && Arrays(calls, keys, [])
      && Scan(calls, t + [DOT] + l, v3) && Scan(FoundLog(calls, keys, []), t + [DOT] + l, v1)
  {
    hide Run, HeadsTo, TailsTo, Head, DnsLess, GoodLog, SortedFrom, Scan, FoundTo, Found;
    var calls, keys := SpaceCalls(l, ch, u, t, v1, v2, v3), SpaceKeys(l, ch, u, t, v1, v2, v3);
    SpaceRun(l, ch, u, t, v1, v2, v3);
    SpaceHeads(l, ch, u, t, v1, v2, v3);
    SpaceTails(l, ch, u, t, v1, v2, v3);
    SpaceGood(l, ch, u, t, v1, v2, v3);
    SplitGroup(l, ch, u, t);
    ThreeSorted(keys);
    NoneSorted();
    SpaceReach(l, ch, u, t, v1, v2, v3);
    SpaceFound(l, ch, u, t, v1, v2, v3);
    SpaceScan(l, ch, u, t, v1, v2, v3);
  }

  lemma NoneSorted()
    ensures SortedFrom([], [])
  {}

  lemma ThreeSorted(keys: seq<WKey>)
    requires |keys| == 3 && InOrder(keys[0].name, keys[1].name, keys[2].name)
    ensures SortedFrom(keys, keys)
  {
    hide DnsLess;
    forall i, j | 0 <= i < j < |keys| ensures !DnsLess(keys[j].name, keys[i].name) {
      assert (i == 0 && (j == 1 || j == 2)) || (i == 1 && j == 2);
    }
  }

  lemma SpaceRun(l: string, ch: char, u: string, t: string, v1: Word, v2: Word, v3: Word)
    requires Label(l) && Label(u) && Label(t) && l != "" && t != "" && '\0' < ch <= ' '
    ensures var calls := SpaceCalls(l, ch, u, t, v1, v2, v3); Run(calls, 3).log == calls
  {
    var calls, middle, last := SpaceCalls(l, ch, u, t, v1, v2, v3), l + [ch] + u, t + [DOT] + l;
    assert |middle| > |l| && |last| > |l|;
    assert last[|t|] == DOT && middle != last by { assert DOT !in middle; }
    assert Run(calls, 0) == NoNames;
    assert Run(calls, 1) == Names([l], [l], [], [calls[0]]);
    assert Run(calls, 2) == Names([l, middle], [l, middle], [], [calls[0], calls[1]]);
    assert Run(calls, 3) == Names([l, middle, last], [l, middle, last], [], calls);
  }

  lemma SpaceHeads(l: string, ch: char, u: string, t: string, v1: Word, v2: Word, v3: Word)
    requires Label(l) && Label(u) && Label(t) && '\0' < ch <= ' '
    ensures HeadsOf(SpaceCalls(l, ch, u, t, v1, v2, v3)) == SpaceKeys(l, ch, u, t, v1, v2, v3)
  {
    var calls, middle := SpaceCalls(l, ch, u, t, v1, v2, v3), l + [ch] + u;
    RevOne(l);
    RevOne(middle);
    RevCons(t, l);
    hide Rev;
    assert HeadsTo(calls, 0) == [];
    assert HeadsTo(calls, 1) == [WKey(l, v1)];
    assert HeadsTo(calls, 2) == [WKey(l, v1), WKey(middle, v2)];
  }

  lemma SpaceTails(l: string, ch: char, u: string, t: string, v1: Word, v2: Word, v3: Word)
    ensures TailsOf(SpaceCalls(l, ch, u, t, v1, v2, v3)) == []
  {
    var calls := SpaceCalls(l, ch, u, t, v1, v2, v3);
    assert TailsTo(calls, 0) == [] && TailsTo(calls, 1) == [] && TailsTo(calls, 2) == [];
  }

  lemma SpaceGood(l: string, ch: char, u: string, t: string, v1: Word, v2: Word, v3: Word)
    requires Label(l) && Label(u) && Label(t) && l != "" && t != "" && '\0' < ch <= ' '
    requires Aligned(v1) && Aligned(v2) && Aligned(v3)
    ensures GoodLog(SpaceCalls(l, ch, u, t, v1, v2, v3))
  {
    var calls, middle, last := SpaceCalls(l, ch, u, t, v1, v2, v3), l + [ch] + u, t + [DOT] + l;
    assert |middle| > |l| && |last| > |l|;
    assert last[|t|] == DOT && middle != last by { assert DOT !in middle; }
    assert middle[0] == l[0] && last[0] == t[0];
    assert IsLower(middle) && IsLower(last);
  }

  lemma SpaceReach(l: string, ch: char, u: string, t: string, v1: Word, v2: Word, v3: Word)
    requires Label(l) && Label(u) && Label(t) && l != "" && t != "" && '\0' < ch <= ' '
    ensures var keys := SpaceKeys(l, ch, u, t, v1, v2, v3); Reach(keys) == keys[..2]
  {
    hide Found, View, Head;
    var keys := SpaceKeys(l, ch, u, t, v1, v2, v3);
    SplitGroup(l, ch, u, t);
    FirstLabelIs(keys[0], [l]);
    FirstLabelIs(keys[1], [l]);
    FirstLabelIs(keys[2], [l]);
    Lost(keys, 2, 0, 1, [l]);
    TwoFound(keys);
    assert ReachTo(keys, 0) == [] && ReachTo(keys, 1) == keys[..1] && ReachTo(keys, 2) == keys[..2];
    assert Reach(keys) == ReachTo(keys, 2) + [];
  }

  lemma TwoFound(keys: seq<WKey>)
    requires |keys| >= 2
    ensures Found(keys, 0) && Found(keys, 1)
  {}

  lemma SpaceFound(l: string, ch: char, u: string, t: string, v1: Word, v2: Word, v3: Word)
    requires Label(l) && Label(u) && Label(t) && l != "" && t != "" && '\0' < ch <= ' '
    requires var keys := SpaceKeys(l, ch, u, t, v1, v2, v3); Reach(keys) == keys[..2]
    ensures var calls, keys := SpaceCalls(l, ch, u, t, v1, v2, v3), SpaceKeys(l, ch, u, t, v1, v2, v3);
      FoundLog(calls, keys, []) == calls[..2]
  {
    hide ReachTo;
    var calls, keys := SpaceCalls(l, ch, u, t, v1, v2, v3), SpaceKeys(l, ch, u, t, v1, v2, v3);
    var middle := l + [ch] + u;
    RevOne(l);
    RevOne(middle);
    RevCons(t, l);
    hide Rev;
    var r := Reach(keys);
    assert r[0] == keys[0] && r[1] == keys[1] && |r| == 2;
    assert (l + [DOT] + t)[|l|] == DOT && middle[|l|] == ch != DOT && |l + [DOT] + t| > |l|;
    assert keys[2] !in r;
    assert Reached(calls[0], keys, []) && Reached(calls[1], keys, []) && !Reached(calls[2], keys, []);
    assert FoundTo(calls, keys, [], 0) == [];
    assert FoundTo(calls, keys, [], 1) == calls[..1];
    assert FoundTo(calls, keys, [], 2) == calls[..2];
    assert FoundLog(calls, keys, []) == FoundTo(calls, keys, [], 2) + [];
  }

  lemma SpaceScan(l: string, ch: char, u: string, t: string, v1: Word, v2: Word, v3: Word)
    requires Label(l) && Label(u) && Label(t) && l != "" && t != "" && '\0' < ch <= ' '
    requires v1 != NULL && v3 != NULL
    ensures var calls, q := SpaceCalls(l, ch, u, t, v1, v2, v3), t + [DOT] + l;
      Scan(calls, q, v3) && Scan(calls[..2], q, v1)
  {
    var calls, middle, q := SpaceCalls(l, ch, u, t, v1, v2, v3), l + [ch] + u, t + [DOT] + l;
    assert q[|t|] == DOT && q != middle by { assert DOT !in middle; }
    assert q[|t|..] == [DOT] + l;
    SuffixDot(q, middle, t, [DOT] + l) by { assert q == t + ([DOT] + l); }
    assert LongestEntry(calls, HeadKind, q, calls[2]) && calls[2] in calls;
    var two := calls[..2];
    assert two[0] == calls[0] && two[0] in two;
    assert LongestEntry(two, HeadKind, q, two[0]);
  }

  /** Lookups are right for all wildcards over a set of characters, whatever the values and the order of the sorted
      arrays, if and only if the characters are above the space. */
  lemma CharsIff(chars: set<char>)
    requires forall ch :: ch in chars ==> ch != DOT && ch != '\0'
    ensures (forall ch :: ch in chars ==> ch > ' ') <==>
            forall log, heads, tails ::
              Arrays(log, heads, tails) && WildOver(log, chars) ==> Faithful(log, heads, tails)
  {
    hide Arrays, Faithful, WildOver;
    if forall ch :: ch in chars ==> ch > ' ' {
      forall log, heads, tails | Arrays(log, heads, tails) && WildOver(log, chars) ensures Faithful(log, heads, tails) {
        HostFaithful(log, heads, tails, chars);
      }
    } else {
      var ch :| ch in chars && ch <= ' ';
      var log, heads := SpaceLog(chars, ch);
    }
  }

  lemma SpaceLog(chars: set<char>, ch: char) returns (log: seq<Entry>, heads: seq<WKey>)
    requires ch in chars && '\0' < ch <= ' '
    ensures Arrays(log, heads, []) && WildOver(log, chars) && !Faithful(log, heads, [])
  {
    hide Arrays, Faithful, Scan, FoundTo, Run, HeadsTo, TailsTo;
    assert Label([ch]) && Label("");
    SpaceSplits([ch], ch, "", [ch], 4, 8, 12);
    log, heads := SpaceCalls([ch], ch, "", [ch], 4, 8, 12), SpaceKeys([ch], ch, "", [ch], 4, 8, 12);
    SpaceUnfaithful(log, heads, [ch] + [DOT] + [ch]);
  }

  lemma SpaceUnfaithful(calls: seq<Entry>, keys: seq<WKey>, q: string)
    requires Arrays(calls, keys, []) && Scan(calls, q, 12) && Scan(FoundLog(calls, keys, []), q, 4)
    ensures !Faithful(calls, keys, [])
  {
    hide Scan, FoundTo, GoodLog;
    if Scan(calls, q, 4) { ScanUnique(calls, q, 4, 12); }
  }
}
