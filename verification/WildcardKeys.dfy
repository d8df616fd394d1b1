/** The keys of the wildcard index: what they mean, how ngx_hash_wildcard_init groups them, and which of them the index
    will find. */
module WildcardKeys {
  import opened Text
  import opened Wildcards

  function Head(s: string): string { s[..FirstDot(s)] }

  // ----- keys as patterns

  /** A key without its trailing dot. */
  function Strip(s: string): string {
    if s != "" && s[|s| - 1] == DOT then s[..|s| - 1] else s
  }

  /** "com.example." is the wildcard-only pattern with labels com, example. */
  function View(k: WKey): Pat {
    Pat(Labels(Strip(k.name)), Strip(k.name) != k.name, k.value)
  }

  function Views(names: seq<WKey>): (r: seq<Pat>)
    ensures |r| == |names| && forall i :: 0 <= i < |names| ==> r[i] == View(names[i])
  {
    seq(|names|, i requires 0 <= i < |names| => View(names[i]))
  }

  /** What the builder relies on; whether keys with the same first label are neighbours is another matter. */
  ghost predicate KeysOk(names: seq<WKey>) {
    Proper(Views(names)) && (forall k :: k in names ==> k.name != "") && Forward(names)
  }

  /** No key is a part of one before it. */
  ghost predicate Forward(names: seq<WKey>) {
    forall i, j :: 0 <= i < j < |names| ==> !(names[j].name <= names[i].name)
  }

  lemma StripCons(l: string, r: string)
    requires r != ""
    ensures Strip(l + [DOT] + r) == l + [DOT] + Strip(r)
    ensures Strip(l + [DOT] + r) == l + [DOT] + r <==> Strip(r) == r
  {
    var s := l + [DOT] + r;
    assert s[|s| - 1] == r[|r| - 1];
    if r[|r| - 1] == DOT {
      assert s[..|s| - 1] == l + [DOT] + r[..|r| - 1];
    }
  }

  /** A key is its first label, possibly with a dot, or continues behind the dot. */
  lemma ViewCases(k: WKey)
    requires k.name != ""
    ensures var l, d := Head(k.name), FirstDot(k.name);
            if d == |k.name| then k.name == l && View(k) == Pat([l], false, k.value)
            else if d + 1 == |k.name| then k.name == l + [DOT] && View(k) == Pat([l], true, k.value)
            else var r := WKey(k.name[d + 1..], k.value);
                 k.name == l + [DOT] + r.name && View(k) == Lift(l, View(r))
  {
    var l, d := Head(k.name), FirstDot(k.name);
    LabelsOne(l);
    if d < |k.name| {
      var r := k.name[d + 1..];
      assert k.name == l + [DOT] + r;
      if r == "" {
        assert Strip(k.name) == l;
      } else {
        StripCons(l, r);
        LabelsCons(l, Strip(r));
      }
    }
  }

  /** The key that remains below the label `l`, if any. */
  ghost function RestOf(k: WKey, l: string): seq<WKey> {
    if Head(k.name) == l && |l| + 1 < |k.name| then [WKey(k.name[|l| + 1..], k.value)] else []
  }

  /** The keys that names[lo..hi] leave below the label `l`. */
  ghost function Rests(names: seq<WKey>, l: string, lo: nat, hi: nat): seq<WKey>
    requires lo <= hi <= |names|
  {
    if lo == hi then [] else Rests(names, l, lo, hi - 1) + RestOf(names[hi - 1], l)
  }

  lemma {:induction false} SkipBack(names: seq<WKey>, l: string, lo: nat, n: nat, hi: nat)
    requires lo <= n <= hi <= |names| && forall j :: n <= j < hi ==> Head(names[j].name) != l
    ensures Rests(names, l, lo, hi) == Rests(names, l, lo, n)
  {
    if n < hi { SkipBack(names, l, lo, n, hi - 1); }
  }

  lemma RestOfView(k: WKey, l: string)
    requires k.name != ""
    ensures Views(RestOf(k, l)) == SubOf(View(k), l)
  {
    ViewCases(k);
    var r := RestOf(k, l);
    if r != [] {
      assert View(k) == Lift(l, View(r[0]));
      assert Drop(View(k)) == View(r[0]);
      assert SubOf(View(k), l) == [View(r[0])];
    }
  }

  lemma ViewsConcat(a: seq<WKey>, b: seq<WKey>)
    ensures Views(a + b) == Views(a) + Views(b)
  {}

  lemma {:induction false} RestsViews(names: seq<WKey>, l: string, n: nat)
    requires n <= |names| && forall k :: k in names ==> k.name != ""
    ensures Views(Rests(names, l, 0, n)) == SubTo(Views(names), l, n)
  {
    if n > 0 {
      assert Rests(names, l, 0, n) == Rests(names, l, 0, n - 1) + RestOf(names[n - 1], l);
      assert SubTo(Views(names), l, n) == SubTo(Views(names), l, n - 1) + SubOf(View(names[n - 1]), l);
      hide Rests, SubTo, RestOf, SubOf, View;
      RestsViews(names, l, n - 1);
      RestOfView(names[n - 1], l);
      ViewsConcat(Rests(names, l, 0, n - 1), RestOf(names[n - 1], l));
    }
  }

  lemma {:induction false} RestsMember(names: seq<WKey>, l: string, lo: nat, hi: nat, r: WKey) returns (k: nat)
    requires lo <= hi <= |names| && r in Rests(names, l, lo, hi)
    ensures lo <= k < hi && r in RestOf(names[k], l)
  {
    if r in RestOf(names[hi - 1], l) { return hi - 1; }
    k := RestsMember(names, l, lo, hi - 1, r);
  }

  lemma RestIs(k: WKey, l: string, r: WKey)
    requires r in RestOf(k, l)
    ensures r.name != "" && k == WKey(l + [DOT] + r.name, r.value)
  {}

  lemma RestsForward(names: seq<WKey>, l: string, hi: nat)
    requires Forward(names) && hi <= |names|
    ensures Forward(Rests(names, l, 0, hi))
  {
    if hi > 0 {
      RestsForward(names, l, hi - 1);
      var s, t := Rests(names, l, 0, hi - 1), RestOf(names[hi - 1], l);
      if t != [] {
        forall j | 0 <= j < |s| ensures !(t[0].name <= s[j].name) {
          var k := RestsMember(names, l, 0, hi - 1, s[j]);
          RestIs(names[k], l, s[j]);
          RestIs(names[hi - 1], l, t[0]);
          PrefixCancel(l + [DOT], t[0].name, s[j].name);
        }
      }
    }
  }

  lemma PrefixCancel(p: string, a: string, b: string)
    ensures p + a <= p + b <==> a <= b
  {
    assert (p + a)[|p|..] == a && (p + b)[|p|..] == b;
  }

  lemma RestsOk(names: seq<WKey>, l: string)
    requires KeysOk(names)
    ensures KeysOk(Rests(names, l, 0, |names|))
  {
    RestsViews(names, l, |names|);
    SubProper(Views(names), l);
    RestsForward(names, l, |names|);
    forall r | r in Rests(names, l, 0, |names|) ensures r.name != "" {
      var k := RestsMember(names, l, 0, |names|, r);
      RestIs(names[k], l, r);
    }
  }

  // ----- groups

  /** The local variables that ngx_hash_wildcard_init derives from a key. */
  predicate Cut(a: string, len: nat, dot: bool, full: nat) {
    len == FirstDot(a) && dot == (len < |a|) && full == if dot then len + 1 else len
  }

  /** ngx_hash_wildcard_init keeps `b` in the group of `a` while it shares a's first
      `full` characters and, when `a` has no dot, continues with a dot. */
  predicate SameGroup(a: string, b: string, full: nat, dot: bool)
    requires full <= |a|
  {
    a[..full] <= b && (!dot && |b| > full ==> b[full] == DOT)
  }

  /** The string test picks exactly the keys with the same first label. */
  lemma SameGroupIsSameHead(a: string, b: string, len: nat, dot: bool, full: nat)
    requires !(b <= a) && Cut(a, len, dot, full) && (!dot ==> b != a + [DOT])
    ensures SameGroup(a, b, full, dot) <==> Head(b) == Head(a)
    ensures Head(b) == Head(a) ==> |b| > len + 1
  {
    if SameGroup(a, b, full, dot) { GroupHasHead(a, b, len, dot, full); }
    if Head(b) == Head(a) { HeadInGroup(a, b, len, dot, full); }
  }

  lemma GroupHasHead(a: string, b: string, len: nat, dot: bool, full: nat)
    requires !(b <= a) && Cut(a, len, dot, full) && SameGroup(a, b, full, dot)
    ensures Head(b) == Head(a)
  {
    var p := a[..len];
    assert |b| == len ==> b == p;
    assert forall i :: 0 <= i < len ==> b[i] == a[i];
    assert dot ==> b[len] == a[..full][len];
    FirstDotUnique(b, len);
  }

  lemma HeadInGroup(a: string, b: string, len: nat, dot: bool, full: nat)
    requires !(b <= a) && Cut(a, len, dot, full) && Head(b) == Head(a) && (!dot ==> b != a + [DOT])
    ensures |b| > len + 1 && SameGroup(a, b, full, dot)
  {
    var l := Head(a);
    assert FirstDot(b) == |l| == len;
    assert |b| == len ==> b == l;
    assert b[..len + 1] == l + [DOT];
    assert dot ==> a[..full] == l + [DOT];
    assert |b| == len + 1 ==> b == l + [DOT];
  }

  /** "x" and "x." are never both present. */
  lemma NoTwin(names: seq<WKey>, n: nat, i: nat)
    requires Proper(Views(names)) && n < i < |names| && FirstDot(names[n].name) == |names[n].name|
    ensures names[i].name != names[n].name + [DOT]
  {
    var a := names[n].name;
    assert (a + [DOT])[..|a|] == a;
    assert Strip(a + [DOT]) == Strip(a);
    assert Views(names)[n].labels != Views(names)[i].labels;
  }

  /** What names[n..i] contribute below the first label of names[n]. */
  ghost function Below(names: seq<WKey>, n: nat, i: nat): seq<WKey>
    requires n < i <= |names|
  {
    Rests(names, Head(names[n].name), n, i)
  }

  lemma GroupGrows(names: seq<WKey>, n: nat, i: nat, len: nat)
    requires n < i < |names| && GroupSoFar(names, n, i, len)
    requires Head(names[i].name) == Head(names[n].name) && |names[i].name| > len + 1
    ensures GroupSoFar(names, n, i + 1, len)
  {}

  /** names[n..i] share their first label; only the first of them can end there. */
  ghost predicate GroupSoFar(names: seq<WKey>, n: nat, i: nat, len: nat)
    requires n < i <= |names|
  {
    (forall k :: n <= k < i ==> Head(names[k].name) == Head(names[n].name)) &&
    (forall k :: n < k < i ==> |names[k].name| > len + 1)
  }

  lemma FirstRest(names: seq<WKey>, n: nat, len: nat, dot: bool, full: nat)
    requires n < |names| && Cut(names[n].name, len, dot, full)
    ensures GroupSoFar(names, n, n + 1, len)
    ensures Below(names, n, n + 1) ==
            if |names[n].name| != full then [WKey(names[n].name[full..], names[n].value)] else []
  {
    assert Rests(names, Head(names[n].name), n, n) == [];
  }

  lemma InGroup(names: seq<WKey>, n: nat, i: nat, len: nat, dot: bool, full: nat)
    requires KeysOk(names) && n < i < |names| && Cut(names[n].name, len, dot, full)
    ensures SameGroup(names[n].name, names[i].name, full, dot) <==> Head(names[i].name) == Head(names[n].name)
    ensures Head(names[i].name) == Head(names[n].name) ==> |names[i].name| > len + 1
  {
    if !dot { NoTwin(names, n, i); }
    SameGroupIsSameHead(names[n].name, names[i].name, len, dot, full);
  }

  lemma BelowNext(names: seq<WKey>, n: nat, i: nat)
    requires n < i < |names|
    ensures Below(names, n, i + 1) == Below(names, n, i) + RestOf(names[i], Head(names[n].name))
  {}

  lemma NextRest(names: seq<WKey>, n: nat, i: nat, len: nat, dot: bool, full: nat)
    requires KeysOk(names) && n < i < |names| && Cut(names[n].name, len, dot, full)
    requires SameGroup(names[n].name, names[i].name, full, dot)
    ensures Head(names[i].name) == Head(names[n].name) && |names[i].name| > len + 1
    ensures Below(names, n, i + 1) == Below(names, n, i) + [WKey(names[i].name[len + 1..], names[i].value)]
  {
    var l, k := Head(names[n].name), names[i];
    assert |l| == len;
    hide KeysOk, SameGroup, Rests, Head, Below;
    InGroup(names, n, i, len, dot, full);
    BelowNext(names, n, i);
    assert RestOf(k, l) == [WKey(k.name[len + 1..], k.value)];
  }

  lemma OneLabel(k: WKey)
    requires k.name != ""
    ensures |k.name| <= FirstDot(k.name) + 1 <==> View(k).labels == [Head(k.name)]
    ensures |View(k).labels| == 1 ==> View(k).labels == [Head(k.name)]
  {
    ViewCases(k);
  }

  // ----- which keys the index finds

  predicate Starts(k: WKey, t: seq<string>) {
    t <= View(k).labels
  }

  /** Every key between this one and an earlier one that has common labels with it has these labels too: at no level
      does the key stand in a second group for its label. */
  ghost predicate Found(names: seq<WKey>, k: nat)
    requires k < |names|
  {
    forall j: nat, x: nat, t: seq<string> ::
      j < x < k && t != [] && Starts(names[j], t) && Starts(names[k], t) ==> Starts(names[x], t)
  }

  /** At every level, keys with the same label are neighbours. */
  ghost predicate Grouped(names: seq<WKey>) {
    forall k: nat :: k < |names| ==> Found(names, k)
  }

  /** The keys among the first n that the index finds. */
  ghost function ReachTo(names: seq<WKey>, n: nat): seq<WKey>
    requires n <= |names|
  {
    if n == 0 then []
    else ReachTo(names, n - 1) + if Found(names, n - 1) then [names[n - 1]] else []
  }

  ghost function Reach(names: seq<WKey>): seq<WKey> { ReachTo(names, |names|) }

  lemma {:induction false} ReachMember(names: seq<WKey>, n: nat, k: WKey)
    requires n <= |names|
    ensures k in ReachTo(names, n) <==> exists i: nat :: i < n && names[i] == k && Found(names, i)
  {
    hide Found;
    if n > 0 { ReachMember(names, n - 1, k); }
  }

  lemma {:induction false} ReachDistinct(names: seq<WKey>, n: nat)
    requires Distinct(Views(names)) && n <= |names|
    ensures Distinct(Views(ReachTo(names, n)))
  {
    hide Found, View;
    if n > 0 && Found(names, n - 1) {
      ReachDistinct(names, n - 1);
      var s, k := ReachTo(names, n - 1), names[n - 1];
      forall i | 0 <= i < |s| ensures View(s[i]).labels != View(k).labels {
        ReachMember(names, n - 1, s[i]);
        var j: nat :| j < n - 1 && names[j] == s[i];
        assert Views(names)[j].labels != Views(names)[n - 1].labels;
      }
    } else if n > 0 {
      ReachDistinct(names, n - 1);
    }
  }

  lemma ReachProper(names: seq<WKey>, n: nat)
    requires Proper(Views(names)) && n <= |names|
    ensures Proper(Views(ReachTo(names, n)))
  {
    hide Found, View;
    ReachDistinct(names, n);
    var r := ReachTo(names, n);
    forall i | 0 <= i < |r| ensures ProperPat(View(r[i])) {
      ReachMember(names, n, r[i]);
      var j: nat :| j < n && names[j] == r[i];
      assert Views(names)[j] in Views(names);
    }
  }

  /** The first key is always found. */
  lemma FirstFound(names: seq<WKey>)
    requires names != []
    ensures Found(names, 0) && Reach(names) != []
  {
    ReachMember(names, |names|, names[0]);
  }

  /** All keys are found exactly if they are grouped. */
  lemma {:induction false} AllFound(names: seq<WKey>, n: nat)
    requires n <= |names| && forall k: nat :: k < n ==> Found(names, k)
    ensures ReachTo(names, n) == names[..n]
  {
    hide Found;
    if n > 0 {
      AllFound(names, n - 1);
      assert names[..n] == names[..n - 1] + [names[n - 1]];
    }
  }

  // ----- one group and what it leaves below its label

  /** Position n is not inside a group. */
  predicate Edge(names: seq<WKey>, n: nat) {
    n <= |names| && (0 < n < |names| ==> Head(names[n - 1].name) != Head(names[n].name))
  }

  /** names[n..i] is a group. */
  ghost predicate Group(names: seq<WKey>, n: nat, i: nat) {
    && n < i <= |names| && Edge(names, n) && Edge(names, i)
    && GroupSoFar(names, n, i, FirstDot(names[n].name))
  }

  /** An earlier group has the label. */
  ghost predicate Seen(names: seq<WKey>, n: nat, l: string) {
    exists j: nat :: j < n && j < |names| && Head(names[j].name) == l
  }

  lemma FirstLabelIs(k: WKey, t: seq<string>)
    requires k.name != ""
    ensures View(k).labels != [] && View(k).labels[0] == Head(k.name)
    ensures t != [] && Starts(k, t) ==> t[0] == Head(k.name)
    ensures Starts(k, [Head(k.name)])
  {
    ViewCases(k);
  }

  /** A second group for a label is lost. */
  lemma SeenLost(names: seq<WKey>, n: nat, i: nat, k: nat)
    requires KeysOk(names) && Group(names, n, i) && Seen(names, n, Head(names[n].name)) && n <= k < i
    ensures !Found(names, k)
  {
    hide KeysOk, Group, Found, Starts;
    GroupHeads(names, n, i);
    var l := Head(names[n].name);
    var j: nat :| j < n && Head(names[j].name) == l;
    Named(names, j);
    Named(names, k);
    Named(names, n - 1);
    FirstLabelIs(names[j], [l]);
    FirstLabelIs(names[k], [l]);
    FirstLabelIs(names[n - 1], [l]);
    Lost(names, k, j, n - 1, [l]);
  }

  lemma Lost(names: seq<WKey>, k: nat, j: nat, x: nat, t: seq<string>)
    requires j < x < k < |names| && t != [] && Starts(names[j], t) && Starts(names[k], t) && !Starts(names[x], t)
    ensures !Found(names, k)
  {}

  lemma Named(names: seq<WKey>, k: nat)
    requires KeysOk(names) && k < |names|
    ensures names[k].name != ""
  {}

  lemma GroupHeads(names: seq<WKey>, n: nat, i: nat)
    requires Group(names, n, i)
    ensures n < i <= |names| && (n > 0 ==> Head(names[n - 1].name) != Head(names[n].name))
    ensures forall k :: n <= k < i ==> Head(names[k].name) == Head(names[n].name)
  {}

  lemma {:induction false} SeenReach(names: seq<WKey>, n: nat, i: nat, m: nat)
    requires KeysOk(names) && Group(names, n, i) && Seen(names, n, Head(names[n].name)) && n <= m <= i
    ensures ReachTo(names, m) == ReachTo(names, n)
  {
    hide Group, Seen, Found, KeysOk;
    if n < m {
      assert m <= i <= |names| by { GroupBounds(names, n, i); }
      SeenReach(names, n, i, m - 1);
      SeenLost(names, n, i, m - 1);
    }
  }

  lemma GroupBounds(names: seq<WKey>, n: nat, i: nat)
    requires Group(names, n, i)
    ensures n < i <= |names|
  {}

  /** How many keys of the group end at its label. */
  function Ending(names: seq<WKey>, n: nat): nat
    requires n < |names|
  {
    if |names[n].name| <= FirstDot(names[n].name) + 1 then 1 else 0
  }

  /** Where the rest of a key of the group stands. */
  lemma {:induction false} RestAt(names: seq<WKey>, n: nat, i: nat, k: nat)
    requires n < i <= |names| && GroupSoFar(names, n, i, FirstDot(names[n].name)) && n + Ending(names, n) <= k < i
    ensures |Below(names, n, i)| == i - n - Ending(names, n)
    ensures [Below(names, n, i)[k - n - Ending(names, n)]] == RestOf(names[k], Head(names[n].name))
    decreases i
  {
    var l := Head(names[n].name);
    BelowStep(names, n, i);
    BelowCount(names, n, i);
    if k < i - 1 {
      BelowCount(names, n, i - 1);
      RestAt(names, n, i - 1, k);
    }
  }

  lemma BelowStep(names: seq<WKey>, n: nat, i: nat)
    requires n < i <= |names|
    ensures Below(names, n, i) ==
      (if i == n + 1 then [] else Below(names, n, i - 1)) + RestOf(names[i - 1], Head(names[n].name))
  {
    assert Rests(names, Head(names[n].name), n, n) == [];
  }

  lemma {:induction false} BelowCount(names: seq<WKey>, n: nat, i: nat)
    requires n < i <= |names| && GroupSoFar(names, n, i, FirstDot(names[n].name))
    ensures |Below(names, n, i)| == i - n - Ending(names, n)
    decreases i
  {
    BelowStep(names, n, i);
    if i > n + 1 { BelowCount(names, n, i - 1); }
  }

  /** The rest of a key has the remaining labels. */
  lemma RestLabels(names: seq<WKey>, n: nat, i: nat, k: nat, t: seq<string>)
    requires KeysOk(names) && Group(names, n, i) && n + Ending(names, n) <= k < i
    ensures k - n - Ending(names, n) < |Below(names, n, i)|
    ensures var r := Below(names, n, i)[k - n - Ending(names, n)];
      View(names[k]) == Lift(Head(names[n].name), View(r)) &&
      (Starts(r, t) <==> Starts(names[k], [Head(names[n].name)] + t))
  {
    var l := Head(names[n].name);
    RestAt(names, n, i, k);
    ViewCases(names[k]);
    var r := Below(names, n, i)[k - n - Ending(names, n)];
    assert r in RestOf(names[k], l);
    LiftStarts(l, t, View(r).labels);
  }

  lemma LiftStarts(l: string, t: seq<string>, u: seq<string>)
    ensures t <= u <==> [l] + t <= [l] + u
  {
    assert ([l] + t)[1..] == t && ([l] + u)[1..] == u;
  }

  /** In a first group, a key is found exactly if its rest is found below. */
  lemma FoundBelow(names: seq<WKey>, n: nat, i: nat, k: nat)
    requires KeysOk(names) && Group(names, n, i) && !Seen(names, n, Head(names[n].name))
    requires n + Ending(names, n) <= k < i
    ensures k - n - Ending(names, n) < |Below(names, n, i)|
    ensures Found(names, k) <==> Found(Below(names, n, i), k - n - Ending(names, n))
  {
    hide KeysOk, Group, Seen, Starts, Below, Ending;
    GroupBounds(names, n, i);
    BelowSize(names, n, i);
    var next, off := Below(names, n, i), n + Ending(names, n);
    if Found(next, k - off) {
      forall j: nat, x: nat, t: seq<string> | j < x < k && t != [] && Starts(names[j], t) && Starts(names[k], t)
        ensures Starts(names[x], t)
      {
        FoundUp(names, n, i, k, j, x, t);
      }
    }
    if Found(names, k) {
      forall j: nat, x: nat, t: seq<string> |
        j < x < k - off && t != [] && Starts(next[j], t) && Starts(next[k - off], t)
        ensures Starts(next[x], t)
      {
        FoundDown(names, n, i, k, j, x, t);
      }
    }
  }

  lemma BelowSize(names: seq<WKey>, n: nat, i: nat)
    requires Group(names, n, i)
    ensures |Below(names, n, i)| == i - n - Ending(names, n)
  {
    BelowCount(names, n, i);
  }

  lemma FoundUp(names: seq<WKey>, n: nat, i: nat, k: nat, j: nat, x: nat, t: seq<string>)
    requires KeysOk(names) && Group(names, n, i) && !Seen(names, n, Head(names[n].name))
    requires n + Ending(names, n) <= k < i && |Below(names, n, i)| == i - n - Ending(names, n)
    requires Found(Below(names, n, i), k - n - Ending(names, n))
    requires j < x < k && t != [] && Starts(names[j], t) && Starts(names[k], t)
    ensures Starts(names[x], t)
  {
    hide KeysOk, Group, Seen, Starts, Below, Ending, Found, Head, View;
    GroupHeads(names, n, i);
    EndingIs(names, n);
    var l, off := Head(names[n].name), n + Ending(names, n);
    Named(names, j);
    Named(names, k);
    Named(names, x);
    FirstLabelIs(names[j], t);
    FirstLabelIs(names[k], t);
    FirstLabelIs(names[x], t);
    NotBefore(names, n, j);
    if |t| == 1 {
      assert t == [l];
    } else {
      var u := t[1..];
      assert t == [l] + u;
      BehindShort(names, n, j, t);
      RestLabels(names, n, i, j, u);
      RestLabels(names, n, i, x, u);
      RestLabels(names, n, i, k, u);
      FoundUse(Below(names, n, i), k - off, j - off, x - off, u);
    }
  }

  lemma NotBefore(names: seq<WKey>, n: nat, k: nat)
    requires n < |names| && k < |names| && !Seen(names, n, Head(names[n].name))
    ensures Head(names[k].name) == Head(names[n].name) ==> n <= k
  {}

  /** The key that ends at the label has no second label. */
  lemma BehindShort(names: seq<WKey>, n: nat, j: nat, t: seq<string>)
    requires KeysOk(names) && n <= j < |names| && |t| > 1 && Starts(names[j], t)
    ensures n + Ending(names, n) <= j
  {
    ViewCases(names[n]);
  }

  lemma FoundDown(names: seq<WKey>, n: nat, i: nat, k: nat, j: nat, x: nat, t: seq<string>)
    requires KeysOk(names) && Group(names, n, i)
    requires n + Ending(names, n) <= k < i && Found(names, k) && |Below(names, n, i)| == i - n - Ending(names, n)
    requires j < x < k - n - Ending(names, n) && t != []
    requires Starts(Below(names, n, i)[j], t) && Starts(Below(names, n, i)[k - n - Ending(names, n)], t)
    ensures Starts(Below(names, n, i)[x], t)
  {
    hide KeysOk, Group, Starts, Below, Ending, Found, Head, View;
    GroupBounds(names, n, i);
    var l, off := Head(names[n].name), n + Ending(names, n);
    RestLabels(names, n, i, j + off, t);
    RestLabels(names, n, i, x + off, t);
    RestLabels(names, n, i, k, t);
    FoundUse(names, k, j + off, x + off, [l] + t);
  }

  lemma FoundUse(names: seq<WKey>, k: nat, j: nat, x: nat, t: seq<string>)
    requires j < x < k < |names| && Found(names, k) && t != [] && Starts(names[j], t) && Starts(names[k], t)
    ensures Starts(names[x], t)
  {}

  lemma ShortFound(names: seq<WKey>, n: nat)
    requires KeysOk(names) && n < |names| && !Seen(names, n, Head(names[n].name))
    ensures Found(names, n)
  {
    hide KeysOk, Starts, Head, Seen;
    forall j: nat, t: seq<string> | j < n && t != [] && Starts(names[j], t) ensures !Starts(names[n], t) {
      Named(names, j);
      Named(names, n);
      NotBefore(names, n, j);
      FirstLabelIs(names[j], t);
      FirstLabelIs(names[n], t);
    }
  }

  // ----- the found keys, label by label

  lemma {:induction false} RestsConcat(a: seq<WKey>, b: seq<WKey>, l: string, n: nat)
    requires n <= |b|
    ensures Rests(a + b, l, 0, |a| + n) == Rests(a, l, 0, |a|) + Rests(b, l, 0, n)
  {
    if n > 0 {
      RestsConcat(a, b, l, n - 1);
    } else {
      RestsSame(a + b, a, l, |a|);
    }
  }

  lemma {:induction false} RestsSame(a: seq<WKey>, b: seq<WKey>, l: string, n: nat)
    requires n <= |a| && n <= |b| && forall i :: 0 <= i < n ==> a[i] == b[i]
    ensures Rests(a, l, 0, n) == Rests(b, l, 0, n)
  {
    if n > 0 { RestsSame(a, b, l, n - 1); }
  }

  ghost function AllRests(names: seq<WKey>, l: string): seq<WKey> { Rests(names, l, 0, |names|) }

  lemma ReachRests(names: seq<WKey>, n: nat, l: string)
    requires n < |names|
    ensures AllRests(ReachTo(names, n + 1), l) ==
            AllRests(ReachTo(names, n), l) + if Found(names, n) then RestOf(names[n], l) else []
  {
    hide Found, RestOf;
    var r := ReachTo(names, n);
    if Found(names, n) {
      RestsConcat(r, [names[n]], l, 1);
      OneRest(names[n], l);
      assert |r + [names[n]]| == |r| + 1;
    } else {
      assert ReachTo(names, n + 1) == r;
    }
  }

  lemma OneRest(k: WKey, l: string)
    ensures Rests([k], l, 0, 1) == RestOf(k, l)
  {
    assert Rests([k], l, 0, 0) == [];
  }

  /** Below a first group's label, the keys that are found are those that its own table finds. */
  lemma {:induction false} GroupReach(names: seq<WKey>, n: nat, i: nat, m: nat)
    requires KeysOk(names) && Group(names, n, i) && !Seen(names, n, Head(names[n].name))
    requires n + Ending(names, n) <= m <= i
    ensures m - n - Ending(names, n) <= |Below(names, n, i)|
    ensures AllRests(ReachTo(names, m), Head(names[n].name)) == ReachTo(Below(names, n, i), m - n - Ending(names, n))
    decreases m
  {
    hide Found, KeysOk, Group, Seen, Rests, Ending, RestOf, AllRests, Below;
    GroupBounds(names, n, i);
    var l, off, next := Head(names[n].name), n + Ending(names, n), Below(names, n, i);
    BelowSize(names, n, i);
    if m == off {
      NotSeenRests(names, n);
      EndingIs(names, n);
      if off == n + 1 { ReachRests(names, n, l); }
    } else {
      GroupReach(names, n, i, m - 1);
      ReachRests(names, m - 1, l);
      FoundBelow(names, n, i, m - 1);
      GroupRestAt(names, n, i, m - 1);
    }
  }

  lemma GroupRestAt(names: seq<WKey>, n: nat, i: nat, k: nat)
    requires Group(names, n, i) && n + Ending(names, n) <= k < i
    ensures k - n - Ending(names, n) < |Below(names, n, i)|
    ensures [Below(names, n, i)[k - n - Ending(names, n)]] == RestOf(names[k], Head(names[n].name))
  {
    RestAt(names, n, i, k);
  }

  lemma EndingIs(names: seq<WKey>, n: nat)
    requires n < |names|
    ensures Ending(names, n) == 0 || Ending(names, n) == 1
  {}

  lemma NotSeenRests(names: seq<WKey>, n: nat)
    requires n < |names| && !Seen(names, n, Head(names[n].name))
    ensures AllRests(ReachTo(names, n), Head(names[n].name)) == []
    ensures Ending(names, n) == 1 ==> RestOf(names[n], Head(names[n].name)) == []
  {
    var r, l := ReachTo(names, n), Head(names[n].name);
    forall j | 0 <= j < |r| ensures Head(r[j].name) != l {
      ReachMember(names, n, r[j]);
    }
    SkipBack(r, l, 0, 0, |r|);
  }

  /** Nothing changes for other labels. */
  lemma {:induction false} OtherRests(names: seq<WKey>, n: nat, i: nat, l: string)
    requires n <= i <= |names| && forall k :: n <= k < i ==> Head(names[k].name) != l
    ensures AllRests(ReachTo(names, i), l) == AllRests(ReachTo(names, n), l)
  {
    hide Found;
    if n < i {
      OtherRests(names, n, i - 1, l);
      ReachRests(names, i - 1, l);
      assert RestOf(names[i - 1], l) == [];
    }
  }
}
