/** The order in which the callers of ngx_hash_wildcard_init sort its keys. */
module WildcardOrder {
  import opened Text
  import opened Wildcards
  import opened WildcardKeys

  /** ngx_dns_strcmp ranks '.' below every other host name character. */
  function Rank(c: char): char {
    if c == DOT then ' ' else c
  }

  /** ngx_dns_strcmp(a, b) < 0, for names that are already lower case. */
  predicate DnsLess(a: string, b: string) {
    b != "" && (a == "" || (if a[0] != b[0] then Rank(a[0]) < Rank(b[0]) else DnsLess(a[1..], b[1..])))
  }

  predicate HostChars(s: string) {
    forall i :: 0 <= i < |s| ==> s[i] == DOT || s[i] > ' '
  }

  lemma HeadTail(s: string)
    requires s != "" && s[0] != DOT
    ensures Head(s) == [s[0]] + Head(s[1..])
  {
    FirstDotUnique(s, 1 + FirstDot(s[1..]));
  }

  /** Names with the same first label are neighbours. */
  lemma {:induction false} Contiguous(a: string, b: string, c: string)
    requires HostChars(a) && HostChars(b) && HostChars(c)
    requires DnsLess(a, b) && DnsLess(b, c) && Head(a) == Head(c)
    ensures Head(b) == Head(c)
  {
    if c[0] == DOT {
      assert Head(c) == "";
    } else {
      HeadTail(c);
      assert Head(a) != "";
      HeadTail(a);
      assert a[0] == c[0] by { assert Head(a)[0] == Head(c)[0]; }
      assert Head(a)[1..] == Head(a[1..]) && Head(c)[1..] == Head(c[1..]);
      HeadTail(b);
      Contiguous(a[1..], b[1..], c[1..]);
    }
  }

  /** Any two names are in order one way or the other. */
  lemma {:induction false} DnsTotal(a: string, b: string)
    requires HostChars(a) && HostChars(b) && a != b && !DnsLess(b, a)
    ensures DnsLess(a, b)
  {
    if a != "" && b != "" && a[0] == b[0] {
      assert a == [a[0]] + a[1..] && b == [b[0]] + b[1..];
      DnsTotal(a[1..], b[1..]);
    }
  }

  lemma {:induction false} DnsLessCancel(p: string, a: string, b: string)
    ensures DnsLess(p + a, p + b) <==> DnsLess(a, b)
  {
    if p == "" {
      assert p + a == a && p + b == b;
    } else {
      assert (p + a)[1..] == p[1..] + a && (p + b)[1..] == p[1..] + b;
      DnsLessCancel(p[1..], a, b);
    }
  }

  /** A name comes before its continuations. */
  lemma {:induction false} PrefixLess(a: string, b: string)
    requires b != ""
    ensures DnsLess(a, a + b)
  {
    if a != "" {
      assert (a + b)[1..] == a[1..] + b;
      PrefixLess(a[1..], b);
    }
  }

  // ----- characters above the space

  predicate InOrder(a: string, b: string, c: string) {
    !DnsLess(b, a) && !DnsLess(c, b) && !DnsLess(c, a)
  }

  /** With a character that is not above the space, a name can come between two that have the same first label. */
  lemma SplitGroup(l: string, ch: char, u: string, t: string)
    requires DOT !in l && DOT !in u && '\0' < ch <= ' '
    ensures var a, b, c := l, l + [ch] + u, l + [DOT] + t;
      && InOrder(a, b, c)
      && Head(a) == Head(c) == l && Head(b) == l + [ch] + u
  {
    var x, y := [ch] + u, [DOT] + t;
    assert l + [ch] + u == l + x && l + [DOT] + t == l + y && l + "" == l;
    DnsLessCancel(l, x, "");
    DnsLessCancel(l, y, x);
    DnsLessCancel(l, y, "");
    LabelsOne(l);
    LabelsOne(l + [ch] + u);
    LabelsCons(l, t);
  }

  /** A key that stands between two keys with common labels has these labels, if all characters are above the space. */
  lemma {:induction false} Neighbours(a: WKey, b: WKey, c: WKey, t: seq<string>)
    requires HostChars(a.name) && HostChars(b.name) && HostChars(c.name)
    requires a.name != "" && b.name != "" && c.name != "" && InOrder(a.name, b.name, c.name)
    requires t != [] && Starts(a, t) && Starts(c, t)
    ensures Starts(b, t)
    decreases |t|
  {
    hide View, DnsLess, HostChars;
    if a.name != b.name && b.name != c.name {
      DnsTotal(a.name, b.name);
      DnsTotal(b.name, c.name);
      FirstLabelOf(a);
      FirstLabelOf(b);
      FirstLabelOf(c);
      Contiguous(a.name, b.name, c.name);
      if |t| > 1 {
        var l := t[0];
        var x := MoreLabels(a, t);
        var z := MoreLabels(c, t);
        var y := Longer(a, b, l, x);
        HostTail(l + [DOT], x.name);
        HostTail(l + [DOT], y.name);
        HostTail(l + [DOT], z.name);
        DnsLessCancel(l + [DOT], y.name, x.name);
        DnsLessCancel(l + [DOT], z.name, y.name);
        DnsLessCancel(l + [DOT], z.name, x.name);
        Neighbours(x, y, z, t[1..]);
        StartsLift(b, l, y, t);
      } else {
        assert t == [t[0]];
      }
    } else {
      SameLabelsOf(a, b);
      SameLabelsOf(b, c);
    }
  }

  lemma SameLabelsOf(a: WKey, b: WKey)
    ensures a.name == b.name ==> View(a).labels == View(b).labels
  {
  }

  lemma FirstLabelOf(k: WKey)
    requires k.name != ""
    ensures View(k).labels != [] && View(k).labels[0] == Head(k.name)
  {
    ViewCases(k);
  }

  lemma HostTail(p: string, s: string)
    requires HostChars(p + s)
    ensures HostChars(s)
  {
    forall i | 0 <= i < |s| ensures s[i] == DOT || s[i] > ' ' {
      assert (p + s)[|p| + i] == s[i];
    }
  }

  /** A key with more labels goes on behind the first one. */
  lemma MoreLabels(k: WKey, t: seq<string>) returns (r: WKey)
    requires k.name != "" && |t| > 1 && Starts(k, t)
    ensures r.name != "" && k.name == t[0] + [DOT] + r.name && View(k) == Lift(t[0], View(r)) && Starts(r, t[1..])
  {
    ViewCases(k);
    r := WKey(k.name[FirstDot(k.name) + 1..], k.value);
    assert View(k).labels[1..] == View(r).labels;
    assert t[1..] <= View(k).labels[1..];
  }

  /** So does one that is behind it and has the same first label. */
  lemma Longer(a: WKey, b: WKey, l: string, x: WKey) returns (y: WKey)
    requires a.name == l + [DOT] + x.name && x.name != "" && b.name != "" && Head(b.name) == l
    requires !DnsLess(b.name, a.name)
    ensures y.name != "" && b.name == l + [DOT] + y.name && View(b) == Lift(l, View(y))
  {
    ViewCases(b);
    if |b.name| <= |l| + 1 {
      var rest := if b.name == l then [DOT] + x.name else x.name;
      assert a.name == b.name + rest;
      PrefixLess(b.name, rest);
    }
    y := WKey(b.name[|l| + 1..], b.value);
  }

  lemma StartsLift(k: WKey, l: string, r: WKey, t: seq<string>)
    requires View(k) == Lift(l, View(r)) && t != [] && t[0] == l && Starts(r, t[1..])
    ensures Starts(k, t)
  {
    assert t == [l] + t[1..];
  }

  /** Sorted keys of characters above the space are all found. */
  lemma HostGrouped(names: seq<WKey>)
    requires forall k :: k in names ==> k.name != "" && HostChars(k.name)
    requires forall i, j :: 0 <= i < j < |names| ==> !DnsLess(names[j].name, names[i].name)
    ensures Grouped(names)
  {
    hide HostChars, DnsLess;
    forall k: nat, j: nat, x: nat, t | j < x < k < |names| && t != [] && Starts(names[j], t) && Starts(names[k], t)
      ensures Starts(names[x], t)
    {
      Neighbours(names[j], names[x], names[k], t);
    }
    forall k: nat | k < |names| ensures Found(names, k) {}
  }

  /** What ngx_qsort promises: a permutation without two keys in the wrong order. */
  ghost predicate SortedFrom(keys: seq<WKey>, sorted: seq<WKey>) {
    multiset(sorted) == multiset(keys) &&
    forall i, j :: 0 <= i < j < |sorted| ==> !DnsLess(sorted[j].name, sorted[i].name)
  }

  /** No key is a part of one before it. */
  lemma SortedForward(names: seq<WKey>)
    requires forall i, j :: 0 <= i < j < |names| ==>
      names[i].name != names[j].name && !DnsLess(names[j].name, names[i].name)
    ensures Forward(names)
  {
    forall i, j | 0 <= i < j < |names| ensures !(names[j].name <= names[i].name) {
      var a, b := names[i].name, names[j].name;
      if b <= a {
        assert a == b + a[|b|..];
        PrefixLess(b, a[|b|..]);
      }
    }
  }
}
