/** The server name index as a whole: conflicts over any run of ngx_hash_add_key,
    the three tables built from the accepted names, and ngx_hash_find_combined. */
module HashCombined {
  import opened Common
  import opened Text
  import opened HashLayout
  import opened Wildcards
  import opened WildcardKeys
  import opened WildcardOrder
  import opened WildcardBuild
  import opened HashKeys

  // ----- runs of ngx_hash_add_key

  /** The state after the first `n` calls. */
  ghost function Run(calls: seq<Entry>, n: nat): Names
    requires n <= |calls|
  {
    if n == 0 then NoNames else Add(Run(calls, n - 1), calls[n - 1].form, calls[n - 1].value).0
  }

  predicate IsName(f: Form) { f.Exact? || f.DotHead? }

  predicate IsHead(f: Form) { f.DotHead? || f.StarHead? }

  /** The two forms may be stored together. */
  predicate Compatible(f: Form, g: Form) {
    !(IsName(f) && IsName(g) && f.x == g.x) && !(IsHead(f) && IsHead(g) && f.x == g.x) &&
    !(f.TailOf? && g.TailOf? && f.x == g.x)
  }

  ghost predicate Recorded(st: Names, f: Form) {
    match f
    case Invalid => false
    case Exact(x) => x in st.reserved
    case DotHead(x) => x in st.reserved && x in st.heads
    case StarHead(x) => x in st.heads
    case TailOf(x) => x in st.tails
  }

  ghost predicate Clean(st: Names) {
    (forall i :: 0 <= i < |st.log| ==> Recorded(st, st.log[i].form)) &&
    forall i, j :: 0 <= i < j < |st.log| ==> Compatible(st.log[i].form, st.log[j].form)
  }

  lemma {:induction false} AddClean(st: Names, f: Form, value: Word)
    requires Clean(st)
    ensures Clean(Add(st, f, value).0)
  {
    var next := Add(st, f, value).0;
    forall i | 0 <= i < |next.log| ensures Recorded(next, next.log[i].form) {
      if i < |st.log| { assert Recorded(st, st.log[i].form); }
    }
    forall i, j | 0 <= i < j < |next.log| ensures Compatible(next.log[i].form, next.log[j].form) {
      if j < |st.log| {
        assert Compatible(st.log[i].form, st.log[j].form);
      } else {
        assert Recorded(st, st.log[i].form);
      }
    }
  }

  /** After any run no exact name is stored twice, "x" and ".x" are never both
      stored, nor ".x" and "*.x", nor one tail pattern twice. */
  lemma {:induction false} RunClean(calls: seq<Entry>, n: nat)
    requires n <= |calls|
    ensures Clean(Run(calls, n))
  {
    if n > 0 {
      RunClean(calls, n - 1);
      AddClean(Run(calls, n - 1), calls[n - 1].form, calls[n - 1].value);
    }
  }

  /** Among the first `n` calls one asked for "x" or ".x". */
  ghost predicate Asked(calls: seq<Entry>, n: nat, x: string)
    requires n <= |calls|
  {
    exists i :: 0 <= i < n && IsName(calls[i].form) && calls[i].form.x == x
  }

  lemma {:induction false} ReservedIsAsked(calls: seq<Entry>, n: nat, x: string)
    requires n <= |calls|
    ensures x in Run(calls, n).reserved <==> Asked(calls, n, x)
  {
    if n > 0 {
      ReservedIsAsked(calls, n - 1, x);
      var f := calls[n - 1].form;
      if Asked(calls, n, x) && !Asked(calls, n - 1, x) {
        assert IsName(f) && f.x == x;
      }
      if IsName(f) && f.x == x { assert Asked(calls, n, x); }
    }
  }

  /** An exact name is refused exactly when an earlier call asked for "x" or ".x",
      whether or not that call was accepted. */
  lemma {:induction false} ExactRefused(calls: seq<Entry>, n: nat, x: string, value: Word)
    requires n <= |calls|
    ensures Add(Run(calls, n), Exact(x), value).1 == BUSY <==> Asked(calls, n, x)
  {
    ReservedIsAsked(calls, n, x);
  }

  /** So a refused ".x" still blocks "x": nothing named x is stored, and yet "x" is
      refused.  Without the refused call it would have been accepted. */
  lemma {:induction false} RefusedDotBlocks(x: string, value: Word)
    ensures var calls := [Entry(StarHead(x), value), Entry(DotHead(x), value)];
            Add(Run(calls, 1), DotHead(x), value).1 == BUSY &&
            (forall e :: e in Run(calls, 2).log ==> !IsName(e.form)) &&
            Add(Run(calls, 2), Exact(x), value).1 == BUSY &&
            Add(Run(calls, 1), Exact(x), value).1 == OK
  {
    var calls := [Entry(StarHead(x), value), Entry(DotHead(x), value)];
    assert Run(calls, 0) == NoNames;
    assert Run(calls, 1) == Names([], [x], [], [calls[0]]);
    assert Run(calls, 2) == Names([x], [x], [], [calls[0]]);
  }

  // ----- which names a pattern covers

  /** Does a pattern cover the host name `q`? */
  predicate Covers(f: Form, q: string) {
    match f
    case Invalid => false
    case Exact(x) => q == x
    case DotHead(x) => q == x || EndsWith(q, [DOT] + x)
    case StarHead(x) => EndsWith(q, [DOT] + x)
    case TailOf(x) => x + [DOT] <= q
  }

  predicate EndsWith(q: string, s: string) {
    |s| <= |q| && q[|q| - |s|..] == s
  }

  lemma {:induction false} LabelsPrefix(x: string, q: string)
    ensures Labels(x) <= Labels(q) <==> q == x || x + [DOT] <= q
    ensures Labels(x) <= Labels(q) ==> (|Labels(x)| < |Labels(q)| <==> q != x)
    decreases |x|
  {
    hide Labels;
    var d, e := FirstDot(x), FirstDot(q);
    var l, m := x[..d], q[..e];
    if d == |x| {
      LabelsOne(x);
      LabelPrefixOne(x, q);
    } else {
      var t := x[d + 1..];
      assert x == l + [DOT] + t;
      LabelsCons(l, t);
      if e < |q| {
        var u := q[e + 1..];
        assert q == m + [DOT] + u;
        LabelsCons(m, u);
        LabelsPrefix(t, u);
        ConsPrefix(l, t, m, u);
      } else {
        LabelsOne(q);
        NoDotPrefix(x + [DOT], q, d);
      }
    }
  }

  lemma NoDotPrefix(p: string, q: string, d: nat)
    requires d < |p| && p[d] == DOT && DOT !in q
    ensures !(p <= q)
  {}

  lemma LabelPrefixOne(x: string, q: string)
    requires DOT !in x
    ensures [x] <= Labels(q) <==> q == x || x + [DOT] <= q
    ensures [x] <= Labels(q) ==> (1 < |Labels(q)| <==> q != x)
  {
    var e := FirstDot(q);
    var m := q[..e];
    if e < |q| {
      assert q == m + [DOT] + q[e + 1..];
      LabelsCons(m, q[e + 1..]);
      assert q[e] == DOT && DOT in q;
      ConsSeq(x, [], m, Labels(q[e + 1..]));
      assert [x] + [] == [x];
      if x + [DOT] <= q { FirstDotUnique(q, |x|); }
      assert m == x ==> x + [DOT] <= q;
    } else {
      LabelsOne(q);
      ConsSeq(x, [], q, []);
      assert [x] + [] == [x] && [q] + [] == [q];
      NoDotPrefix(x + [DOT], q, |x|);
    }
  }

  lemma ConsSeq<T>(a: T, s: seq<T>, b: T, t: seq<T>)
    ensures [a] + s <= [b] + t <==> a == b && s <= t
  {
    var x, y := [a] + s, [b] + t;
    if x <= y {
      assert x[0] == y[0];
      forall i | 0 <= i < |s| ensures s[i] == t[i] { assert x[i + 1] == y[i + 1]; }
    }
    if a == b && s <= t {
      forall i | 0 <= i < |x| ensures x[i] == y[i] { assert i > 0 ==> s[i - 1] == t[i - 1]; }
    }
  }

  lemma ConsPrefix(l: string, t: string, m: string, u: string)
    requires DOT !in l && DOT !in m
    ensures l + [DOT] + t + [DOT] <= m + [DOT] + u <==> l == m && t + [DOT] <= u
    ensures l + [DOT] + t == m + [DOT] + u <==> l == m && t == u
    ensures [l] + Labels(t) <= [m] + Labels(u) <==> l == m && Labels(t) <= Labels(u)
  {
    ConsSeq(l, Labels(t), m, Labels(u));
    HeadTailPrefix(l, t + [DOT], m, u);
    assert l + [DOT] + t + [DOT] == l + [DOT] + (t + [DOT]);
    HeadTailPrefix(l, t, m, u);
  }

  lemma HeadTailPrefix(l: string, t: string, m: string, u: string)
    requires DOT !in l && DOT !in m
    ensures l + [DOT] + t <= m + [DOT] + u <==> l == m && t <= u
    ensures l + [DOT] + t == m + [DOT] + u <==> l == m && t == u
  {
    var x, q := l + [DOT] + t, m + [DOT] + u;
    LabelsCons(m, u);
    assert x[..|l| + 1] == l + [DOT] && x[|l| + 1..] == t && q[..|m|] == m && q[|m| + 1..] == u;
    if x <= q {
      assert q[..|l|] == l && q[|l|] == DOT by { assert x[..|l|] == l; }
      FirstDotUnique(q, |l|);
      assert l == m;
      assert q[|l| + 1..][..|t|] == q[..|x|][|l| + 1..];
    }
  }

  lemma {:induction false} RevConcat(s: string, t: string)
    ensures Rev(s + [DOT] + t) == Rev(t) + [DOT] + Rev(s)
    decreases |s|
  {
    var d := FirstDot(s);
    var l := s[..d];
    if d == |s| {
      RevOne(s);
      RevCons(s, t);
    } else {
      var u := s[d + 1..];
      assert s == l + [DOT] + u;
      RevConcat(u, t);
      assert s + [DOT] + t == l + [DOT] + (u + [DOT] + t);
      RevCons(l, u + [DOT] + t);
      RevCons(l, u);
    }
  }

  lemma {:induction false} RevTwice(s: string)
    ensures Rev(Rev(s)) == s
    decreases |s|
  {
    var d := FirstDot(s);
    var l := s[..d];
    if d == |s| {
      RevOne(s);
    } else {
      var u := s[d + 1..];
      assert s == l + [DOT] + u;
      RevTwice(u);
      RevCons(l, u);
      RevConcat(Rev(u), l);
      RevOne(l);
    }
  }

  lemma RevEnds(x: string, q: string)
    ensures Rev(x) + [DOT] <= Rev(q) <==> EndsWith(q, [DOT] + x)
  {
    RevLength(x);
    if EndsWith(q, [DOT] + x) {
      var u := q[..|q| - |x| - 1];
      assert q == u + [DOT] + x;
      RevConcat(u, x);
    }
    if Rev(x) + [DOT] <= Rev(q) {
      RevEndsBack(x, q, Rev(q)[|x| + 1..]);
    }
  }

  lemma RevEndsBack(x: string, q: string, w: string)
    requires Rev(q) == Rev(x) + [DOT] + w
    ensures EndsWith(q, [DOT] + x)
  {
    RevConcat(Rev(x), w);
    RevTwice(q);
    RevTwice(x);
    assert q == Rev(w) + ([DOT] + x);
  }

  lemma RLabelsSuffix(x: string, q: string)
    ensures RLabels(x) <= RLabels(q) <==> q == x || EndsWith(q, [DOT] + x)
    ensures RLabels(x) <= RLabels(q) ==> (|RLabels(x)| < |RLabels(q)| <==> q != x)
  {
    RevLabels(x);
    RevLabels(q);
    LabelsPrefix(Rev(x), Rev(q));
    RevEnds(x, q);
    RevTwice(x);
    RevTwice(q);
  }

  // ----- stored names as patterns

  ghost predicate GoodEntry(e: Entry) {
    Aligned(e.value) &&
    match e.form
    case Invalid => false
    case Exact(x) => IsLower(x)
    case DotHead(x) => GoodHead(x)
    case StarHead(x) => GoodHead(x)
    case TailOf(x) => x != "" && x[|x| - 1] != DOT && IsLower(x)
  }

  ghost predicate GoodHead(x: string) {
    x != "" && x[0] != DOT && IsLower(x)
  }

  /** Whatever ngx_hash_add_key does not decline is a good entry. */
  lemma ClassifyGood(key: string, value: Word)
    requires Aligned(value) && !Classify(key, true).Invalid?
    ensures GoodEntry(Entry(LowerForm(Classify(key, true), false), value))
  {
    FormText(key);
    LowerFixes(Classify(key, true).x);
  }

  /** A name that is not declined loses its star and the dot beside it, and nothing else. */
  lemma FormText(key: string)
    ensures match Classify(key, true)
            case Invalid => true
            case Exact(x) => x == key
            case DotHead(x) => x != "" && x[0] != DOT && x == key[1..]
            case StarHead(x) => x != "" && x[0] != DOT && x == key[2..]
            case TailOf(x) => x != "" && x[|x| - 1] != DOT && x == key[..|key| - 2]
  {
    match Classify(key, true)
    case Invalid =>
    case Exact(x) =>
    case DotHead(x) => assert x[0] == key[1] && key[0] == DOT;
    case StarHead(x) => assert x[0] == key[2] && key[1] == DOT;
    case TailOf(x) => assert x[|x| - 1] == key[|key| - 3] && key[|key| - 2] == DOT;
  }

  lemma HeadView(x: string, star: bool, value: Word)
    requires GoodHead(x)
    ensures View(WKey(HeadKey(x, star), value)) == Pat(RLabels(x), star, value) && HeadKey(x, star) != ""
  {
    RevLabels(x);
    RevLength(x);
    if star { StripDot(Rev(x)); } else { RevLast(x); }
  }

  lemma StripDot(s: string)
    ensures Strip(s + [DOT]) == s
  {}

  lemma RevLast(x: string)
    requires x != "" && x[0] != DOT
    ensures Strip(Rev(x)) == Rev(x)
  {
    var l := Head(x);
    assert l != "" && l[|l| - 1] != DOT;
    assert Rev(x)[|Rev(x)| - 1] == l[|l| - 1];
  }

  lemma HeadKeyInjective(x: string, s: bool, y: string, t: bool)
    requires GoodHead(x) && GoodHead(y) && HeadKey(x, s) == HeadKey(y, t)
    ensures x == y && s == t
  {
    HeadView(x, s, 0);
    HeadView(y, t, 0);
    SameRLabels(x, y);
  }

  lemma SameRLabels(x: string, y: string)
    requires RLabels(x) == RLabels(y)
    ensures x == y
  {
    RLabelsSuffix(x, y);
  }

  lemma SameForward(x: string, y: string)
    requires Labels(x) == Labels(y)
    ensures x == y
  {
    LabelsPrefix(x, y);
  }

  lemma {:induction false} LabelsLower(s: string)
    requires IsLower(s)
    ensures forall i :: 0 <= i < |Labels(s)| ==> IsLower(Labels(s)[i])
    decreases |s|
  {
    var d := FirstDot(s);
    if d < |s| { LabelsLower(s[d + 1..]); }
  }

  lemma {:induction false} RLabelsLower(s: string)
    requires IsLower(s)
    ensures forall i :: 0 <= i < |RLabels(s)| ==> IsLower(RLabels(s)[i])
    decreases |s|
  {
    var d := LastDot(s);
    if d > 0 { RLabelsLower(s[..d - 1]); }
  }

  // ----- the stored keys, sorted

  lemma {:induction false} HeadsMember(log: seq<Entry>, n: nat, k: WKey)
    requires n <= |log|
    ensures k in HeadsTo(log, n) <==> exists i :: 0 <= i < n && HeadOfEntry(log[i]) == [k]
  {
    hide HeadsTo, HeadOfEntry;
    HeadsSplit(log, n);
    if n > 0 {
      HeadsMember(log, n - 1, k);
      OneHead(log[n - 1], k);
    }
  }

  lemma OneHead(e: Entry, k: WKey)
    ensures k in HeadOfEntry(e) <==> HeadOfEntry(e) == [k]
  {}

  lemma {:induction false} TailsMember(log: seq<Entry>, n: nat, k: WKey)
    requires n <= |log|
    ensures k in TailsTo(log, n) <==> exists i :: 0 <= i < n && TailOfEntry(log[i]) == [k]
  {
    if n > 0 { TailsMember(log, n - 1, k); }
  }

  /** What a run of ngx_hash_add_key leaves behind, given acceptable inputs. */
  ghost predicate GoodLog(log: seq<Entry>) {
    (forall i :: 0 <= i < |log| ==> GoodEntry(log[i])) &&
    forall i, j :: 0 <= i < j < |log| ==> Compatible(log[i].form, log[j].form)
  }

  ghost predicate DistinctNames(s: seq<WKey>) {
    forall i, j :: 0 <= i < j < |s| ==> s[i].name != s[j].name
  }

  lemma DistinctMore(s: seq<WKey>, t: seq<WKey>)
    requires DistinctNames(s) && |t| <= 1 && forall k, m :: k in s && m in t ==> k.name != m.name
    ensures DistinctNames(s + t)
  {}

  lemma HeadsSplit(log: seq<Entry>, n: nat)
    requires n <= |log|
    ensures HeadsTo(log, n) == if n == 0 then [] else HeadsTo(log, n - 1) + HeadOfEntry(log[n - 1])
    ensures forall i :: 0 <= i < n ==> |HeadOfEntry(log[i])| <= 1
  {}

  lemma {:induction false} HeadsDistinct(log: seq<Entry>, n: nat)
    requires GoodLog(log) && n <= |log|
    ensures DistinctNames(HeadsTo(log, n))
  {
    hide GoodLog, HeadsTo, HeadOfEntry, DistinctNames;
    NoneDistinct();
    HeadsSplit(log, n);
    if n > 0 {
      HeadsDistinct(log, n - 1);
      var s, t := HeadsTo(log, n - 1), HeadOfEntry(log[n - 1]);
      forall k, m | k in s && m in t ensures k.name != m.name { HeadIsNew(log, n, k, m); }
      DistinctMore(s, t);
    }
  }

  lemma NoneDistinct()
    ensures DistinctNames([])
  {}

  lemma HeadIsNew(log: seq<Entry>, n: nat, k: WKey, m: WKey)
    requires GoodLog(log) && 0 < n <= |log| && k in HeadsTo(log, n - 1) && m in HeadOfEntry(log[n - 1])
    ensures k.name != m.name
  {
    hide GoodLog, HeadsTo, HeadOfEntry;
    HeadsMember(log, n - 1, k);
    var j :| 0 <= j < n - 1 && HeadOfEntry(log[j]) == [k];
    HeadsDiffer(log, j, n - 1, k, m);
  }

  lemma HeadsDiffer(log: seq<Entry>, i: nat, j: nat, k: WKey, m: WKey)
    requires GoodLog(log) && i < j < |log| && HeadOfEntry(log[i]) == [k] && m in HeadOfEntry(log[j])
    ensures k.name != m.name
  {
    var e, f := log[i], log[j];
    assert GoodEntry(e) && GoodEntry(f) && Compatible(e.form, f.form);
    if k.name == m.name { HeadKeyInjective(e.form.x, e.form.StarHead?, f.form.x, f.form.StarHead?); }
  }

  lemma TailIsNew(log: seq<Entry>, n: nat, k: WKey, m: WKey)
    requires GoodLog(log) && 0 < n <= |log| && k in TailsTo(log, n - 1) && m in TailOfEntry(log[n - 1])
    ensures k.name != m.name
  {
    TailsMember(log, n - 1, k);
    var j :| 0 <= j < n - 1 && TailOfEntry(log[j]) == [k];
    hide TailsTo;
    assert Compatible(log[j].form, log[n - 1].form);
  }

  lemma TailsSplit(log: seq<Entry>, n: nat)
    requires n <= |log|
    ensures TailsTo(log, n) == if n == 0 then [] else TailsTo(log, n - 1) + TailOfEntry(log[n - 1])
    ensures forall i :: 0 <= i < n ==> |TailOfEntry(log[i])| <= 1
  {}

  lemma {:induction false} TailsDistinct(log: seq<Entry>, n: nat)
    requires GoodLog(log) && n <= |log|
    ensures DistinctNames(TailsTo(log, n))
  {
    hide GoodLog, TailsTo, TailOfEntry, DistinctNames;
    NoneDistinct();
    TailsSplit(log, n);
    if n > 0 {
      TailsDistinct(log, n - 1);
      var s, t := TailsTo(log, n - 1), TailOfEntry(log[n - 1]);
      forall k, m | k in s && m in t ensures k.name != m.name { TailIsNew(log, n, k, m); }
      DistinctMore(s, t);
    }
  }

  lemma {:induction false} CountOne(s: seq<WKey>, n: nat, v: WKey)
    requires DistinctNames(s) && n <= |s|
    ensures multiset(s[..n])[v] <= 1
    ensures v !in s[..n] ==> multiset(s[..n])[v] == 0
  {
    if n > 0 {
      CountOne(s, n - 1, v);
      assert s[..n] == s[..n - 1] + [s[n - 1]];
      if s[n - 1] == v { assert v !in s[..n - 1]; }
    }
  }

  lemma CountTwo(s: seq<WKey>, i: nat, j: nat)
    requires i < j < |s| && s[i] == s[j]
    ensures multiset(s)[s[i]] >= 2
  {
    var a, b := s[..j], s[j..];
    assert s == a + b;
    assert a[i] == s[i] && b[0] == s[i];
    assert s[i] in multiset(a) && s[i] in multiset(b);
  }

  lemma SortedDistinct(keys: seq<WKey>, sorted: seq<WKey>)
    requires DistinctNames(keys) && multiset(sorted) == multiset(keys)
    ensures DistinctNames(sorted)
  {
    forall i, j | 0 <= i < j < |sorted| ensures sorted[i].name != sorted[j].name {
      if sorted[i].name == sorted[j].name {
        assert sorted[i] in multiset(sorted) && sorted[j] in multiset(sorted);
        assert sorted[i] in keys && sorted[j] in keys;
        var a :| 0 <= a < |keys| && keys[a] == sorted[i];
        var b :| 0 <= b < |keys| && keys[b] == sorted[j];
        assert a == b;
        assert keys[..|keys|] == keys;
        CountOne(keys, |keys|, keys[a]);
        CountTwo(sorted, i, j);
      }
    }
  }

  lemma SortedMember(keys: seq<WKey>, sorted: seq<WKey>, k: WKey)
    requires SortedFrom(keys, sorted)
    ensures k in sorted <==> k in keys
  {
    assert k in sorted <==> k in multiset(sorted);
    assert k in keys <==> k in multiset(keys);
  }

  lemma SortedIsForward(keys: seq<WKey>, sorted: seq<WKey>)
    requires DistinctNames(keys) && SortedFrom(keys, sorted)
    ensures Forward(sorted)
  {
    SortedDistinct(keys, sorted);
    SortedForward(sorted);
  }

  lemma HeadEntry(log: seq<Entry>, k: WKey) returns (e: Entry)
    requires GoodLog(log) && k in HeadsOf(log)
    ensures e in log && IsHead(e.form) && GoodEntry(e) && k == WKey(HeadKey(e.form.x, e.form.StarHead?), e.value)
    ensures View(k) == Pat(RLabels(e.form.x), e.form.StarHead?, e.value)
    ensures k.name != "" && ProperPat(View(k))
  {
    HeadsMember(log, |log|, k);
    var i :| 0 <= i < |log| && HeadOfEntry(log[i]) == [k];
    e := log[i];
    HeadView(e.form.x, e.form.StarHead?, e.value);
    RLabelsLower(e.form.x);
  }

  lemma HeadsDistinctLabels(log: seq<Entry>, k: WKey, m: WKey)
    requires GoodLog(log) && k in HeadsOf(log) && m in HeadsOf(log) && View(k).labels == View(m).labels
    ensures k == m
  {
    var e := HeadEntry(log, k);
    var f := HeadEntry(log, m);
    SameRLabels(e.form.x, f.form.x);
    var i :| 0 <= i < |log| && log[i] == e;
    var j :| 0 <= j < |log| && log[j] == f;
    HeadOnce(log, i, j);
  }

  lemma HeadOnce(log: seq<Entry>, i: nat, j: nat)
    requires GoodLog(log) && i < |log| && j < |log|
    requires IsHead(log[i].form) && IsHead(log[j].form) && log[i].form.x == log[j].form.x
    ensures i == j
  {}

  /** The sorted head keys satisfy everything the builder needs. */
  lemma HeadKeysOk(log: seq<Entry>, sorted: seq<WKey>)
    requires GoodLog(log) && SortedFrom(HeadsOf(log), sorted)
    ensures KeysOk(sorted)
  {
    HeadsDistinct(log, |log|);
    SortedIsForward(HeadsOf(log), sorted);
    forall k | k in sorted ensures k.name != "" && ProperPat(View(k)) {
      SortedMember(HeadsOf(log), sorted, k);
      var e := HeadEntry(log, k);
    }
    SortedDistinct(HeadsOf(log), sorted);
    forall i, j | 0 <= i < j < |sorted| ensures Views(sorted)[i].labels != Views(sorted)[j].labels {
      SortedMember(HeadsOf(log), sorted, sorted[i]);
      SortedMember(HeadsOf(log), sorted, sorted[j]);
      if View(sorted[i]).labels == View(sorted[j]).labels { HeadsDistinctLabels(log, sorted[i], sorted[j]); }
    }
  }

  lemma TailEntry(log: seq<Entry>, k: WKey) returns (e: Entry)
    requires GoodLog(log) && k in TailsOf(log)
    ensures e in log && e.form.TailOf? && GoodEntry(e) && k == WKey(e.form.x, e.value)
    ensures View(k) == Pat(Labels(e.form.x), false, e.value) && k.name != "" && ProperPat(View(k))
  {
    TailsMember(log, |log|, k);
    var i :| 0 <= i < |log| && TailOfEntry(log[i]) == [k];
    e := log[i];
    assert GoodEntry(log[i]);
    LabelsLower(e.form.x);
  }

  lemma TailKeysOk(log: seq<Entry>, sorted: seq<WKey>)
    requires GoodLog(log) && SortedFrom(TailsOf(log), sorted)
    ensures KeysOk(sorted) && Unstarred(Views(sorted))
  {
    TailsDistinct(log, |log|);
    SortedIsForward(TailsOf(log), sorted);
    forall k | k in sorted ensures k.name != "" && ProperPat(View(k)) && !View(k).star {
      SortedMember(TailsOf(log), sorted, k);
      var e := TailEntry(log, k);
    }
    SortedDistinct(TailsOf(log), sorted);
    forall i, j | 0 <= i < j < |sorted| ensures Views(sorted)[i].labels != Views(sorted)[j].labels {
      SortedMember(TailsOf(log), sorted, sorted[i]);
      SortedMember(TailsOf(log), sorted, sorted[j]);
      var e := TailEntry(log, sorted[i]);
      var f := TailEntry(log, sorted[j]);
      if View(sorted[i]).labels == View(sorted[j]).labels { SameForward(e.form.x, f.form.x); }
    }
  }

  // ----- the answer to a query

  datatype Kind = ExactKind | HeadKind | TailKind

  predicate OfKind(f: Form, kind: Kind) {
    match kind
    case ExactKind => f.Exact?
    case HeadKind => IsHead(f)
    case TailKind => f.TailOf?
  }

  /** The value of the longest covering entry among those of one kind. */
  ghost predicate LongestAnswer(log: seq<Entry>, kind: Kind, q: string, r: Word) {
    if r == NULL then forall e :: e in log && OfKind(e.form, kind) ==> !Covers(e.form, q)
    else exists e :: e in log && OfKind(e.form, kind) && r == e.value && LongestEntry(log, kind, q, e)
  }

  ghost predicate LongestEntry(log: seq<Entry>, kind: Kind, q: string, e: Entry) {
    Covers(e.form, q) && forall f :: f in log && OfKind(f.form, kind) && Covers(f.form, q) ==> |f.form.x| <= |e.form.x|
  }

  /** What a scan of the accepted patterns answers: the exact name, else the longest
      head wildcard, else the longest tail wildcard, else nothing. */
  ghost predicate Scan(log: seq<Entry>, q: string, r: Word) {
    (r != NULL && LongestAnswer(log, ExactKind, q, r)) ||
    (LongestAnswer(log, ExactKind, q, NULL) &&
     ((r != NULL && LongestAnswer(log, HeadKind, q, r)) ||
      (LongestAnswer(log, HeadKind, q, NULL) && LongestAnswer(log, TailKind, q, r))))
  }

  /** The scan has only one answer. */
  lemma ScanUnique(log: seq<Entry>, q: string, r: Word, s: Word)
    requires GoodLog(log) && Scan(log, q, r) && Scan(log, q, s)
    ensures r == s
  {
    LongestUnique(log, ExactKind, q, r, s);
    LongestUnique(log, HeadKind, q, r, s);
    LongestUnique(log, TailKind, q, r, s);
  }

  lemma LongestUnique(log: seq<Entry>, kind: Kind, q: string, r: Word, s: Word)
    requires GoodLog(log)
    ensures LongestAnswer(log, kind, q, r) && LongestAnswer(log, kind, q, s) ==> r == s
    ensures LongestAnswer(log, kind, q, r) && r != NULL ==> !LongestAnswer(log, kind, q, NULL)
    ensures LongestAnswer(log, kind, q, s) && s != NULL ==> !LongestAnswer(log, kind, q, NULL)
  {
    if LongestAnswer(log, kind, q, r) && LongestAnswer(log, kind, q, s) && r != NULL && s != NULL {
      var e :| e in log && OfKind(e.form, kind) && r == e.value && LongestEntry(log, kind, q, e);
      var f :| f in log && OfKind(f.form, kind) && s == f.value && LongestEntry(log, kind, q, f);
      CoverEqual(e.form, f.form, kind, q);
      var i :| 0 <= i < |log| && log[i] == e;
      var j :| 0 <= j < |log| && log[j] == f;
      KindOnce(log, i, j, kind);
    }
  }

  lemma CoverEqual(f: Form, g: Form, kind: Kind, q: string)
    requires OfKind(f, kind) && OfKind(g, kind) && Covers(f, q) && Covers(g, q) && |f.x| == |g.x|
    ensures f.x == g.x
  {
    if kind == HeadKind {
      HeadSuffix(f, q);
      HeadSuffix(g, q);
    } else if kind == TailKind {
      assert f.x == q[..|f.x|] && g.x == q[..|g.x|];
    }
  }

  lemma HeadSuffix(f: Form, q: string)
    requires IsHead(f) && Covers(f, q)
    ensures |f.x| <= |q| && f.x == q[|q| - |f.x|..]
  {
    var s := [DOT] + f.x;
    if EndsWith(q, s) { assert q[|q| - |f.x|..] == q[|q| - |s|..][1..] == s[1..]; }
  }

  lemma KindOnce(log: seq<Entry>, i: nat, j: nat, kind: Kind)
    requires GoodLog(log) && i < |log| && j < |log|
    requires OfKind(log[i].form, kind) && OfKind(log[j].form, kind) && log[i].form.x == log[j].form.x
    ensures i == j
  {}

  lemma HeadMatches(e: Entry, q: string)
    requires IsHead(e.form)
    ensures Matches(false, Pat(RLabels(e.form.x), e.form.StarHead?, e.value), RLabels(q)) <==> Covers(e.form, q)
  {
    RLabelsSuffix(e.form.x, q);
  }

  lemma TailMatches(e: Entry, q: string)
    requires e.form.TailOf?
    ensures Matches(true, Pat(Labels(e.form.x), false, e.value), Labels(q)) <==> Covers(e.form, q)
  {
    LabelsPrefix(e.form.x, q);
  }

  lemma PrefixChain<T>(a: seq<T>, b: seq<T>, q: seq<T>)
    requires a <= q && b <= q && |a| <= |b|
    ensures a <= b
  {}

  /** More labels of the same name is a longer pattern. */
  lemma HeadLonger(x: string, y: string, q: string)
    requires RLabels(x) <= RLabels(q) && RLabels(y) <= RLabels(q) && |RLabels(x)| <= |RLabels(y)|
    ensures |x| <= |y|
  {
    PrefixChain(RLabels(x), RLabels(y), RLabels(q));
    RLabelsSuffix(x, y);
  }

  lemma TailLonger(x: string, y: string, q: string)
    requires Labels(x) <= Labels(q) && Labels(y) <= Labels(q) && |Labels(x)| <= |Labels(y)|
    ensures |x| <= |y|
  {
    PrefixChain(Labels(x), Labels(y), Labels(q));
    LabelsPrefix(x, y);
  }

  lemma HeadEntryView(e: Entry)
    requires GoodEntry(e) && IsHead(e.form)
    ensures View(WKey(HeadKey(e.form.x, e.form.StarHead?), e.value)) ==
            Pat(RLabels(e.form.x), e.form.StarHead?, e.value)
  {
    HeadView(e.form.x, e.form.StarHead?, e.value);
  }

  ghost predicate SameKeys(a: seq<WKey>, b: seq<WKey>) {
    forall k :: k in a <==> k in b
  }

  lemma HeadStored(log: seq<Entry>, sorted: seq<WKey>, e: Entry)
    requires GoodLog(log) && SameKeys(HeadsOf(log), sorted) && e in log && IsHead(e.form)
    ensures Pat(RLabels(e.form.x), e.form.StarHead?, e.value) in Views(sorted)
  {
    var i :| 0 <= i < |log| && log[i] == e;
    var k := WKey(HeadKey(e.form.x, e.form.StarHead?), e.value);
    assert HeadOfEntry(log[i]) == [k];
    HeadEntryView(e) by { assert GoodEntry(log[i]); }
    hide GoodLog, HeadsTo, HeadOfEntry, HeadKey, RLabels, View;
    HeadsMember(log, |log|, k);
    var j :| 0 <= j < |sorted| && sorted[j] == k;
    assert Views(sorted)[j] == View(k);
  }

  lemma TailStored(log: seq<Entry>, sorted: seq<WKey>, e: Entry)
    requires GoodLog(log) && SameKeys(TailsOf(log), sorted) && e in log && e.form.TailOf?
    ensures Pat(Labels(e.form.x), false, e.value) in Views(sorted)
  {
    var i :| 0 <= i < |log| && log[i] == e;
    var k := WKey(e.form.x, e.value);
    assert TailOfEntry(log[i]) == [k];
    TailsMember(log, |log|, k);
    var f := TailEntry(log, k);
    var j :| 0 <= j < |sorted| && sorted[j] == k;
    assert Views(sorted)[j] == View(k);
  }

  lemma HeadNone(log: seq<Entry>, sorted: seq<WKey>, q: string)
    requires GoodLog(log) && SameKeys(HeadsOf(log), sorted) && IsBest(false, Views(sorted), RLabels(q), NULL)
    ensures LongestAnswer(log, HeadKind, q, NULL)
  {
    forall e | e in log && OfKind(e.form, HeadKind) ensures !Covers(e.form, q) {
      HeadStored(log, sorted, e);
      HeadMatches(e, q);
    }
  }

  lemma HeadLongest(log: seq<Entry>, sorted: seq<WKey>, q: string, e: Entry, p: Pat)
    requires GoodLog(log) && SameKeys(HeadsOf(log), sorted) && Longest(false, Views(sorted), RLabels(q), p)
    requires OfKind(e.form, HeadKind) && p == Pat(RLabels(e.form.x), e.form.StarHead?, e.value)
    ensures LongestEntry(log, HeadKind, q, e)
  {
    HeadMatches(e, q);
    forall f | f in log && OfKind(f.form, HeadKind) && Covers(f.form, q) ensures |f.form.x| <= |e.form.x| {
      HeadStored(log, sorted, f);
      HeadMatches(f, q);
      HeadLonger(f.form.x, e.form.x, q);
    }
  }

  /** The best pattern of the head index is the longest covering head entry. */
  lemma HeadAnswer(log: seq<Entry>, sorted: seq<WKey>, q: string, r: Word)
    requires GoodLog(log) && SameKeys(HeadsOf(log), sorted) && IsBest(false, Views(sorted), RLabels(q), r)
    ensures LongestAnswer(log, HeadKind, q, r)
  {
    hide GoodLog, HeadsTo, Longest, LongestEntry, HeadKey, RLabels;
    if r == NULL {
      HeadNone(log, sorted, q);
    } else {
      var p :| p in Views(sorted) && Longest(false, Views(sorted), RLabels(q), p) && r == p.value;
      var j :| 0 <= j < |sorted| && View(sorted[j]) == p;
      var e := HeadEntry(log, sorted[j]);
      HeadLongest(log, sorted, q, e, p);
    }
  }

  lemma TailNone(log: seq<Entry>, sorted: seq<WKey>, q: string)
    requires GoodLog(log) && SameKeys(TailsOf(log), sorted) && IsBest(true, Views(sorted), Labels(q), NULL)
    ensures LongestAnswer(log, TailKind, q, NULL)
  {
    forall e | e in log && OfKind(e.form, TailKind) ensures !Covers(e.form, q) {
      TailStored(log, sorted, e);
      TailMatches(e, q);
    }
  }

  lemma TailLongest(log: seq<Entry>, sorted: seq<WKey>, q: string, e: Entry, p: Pat)
    requires GoodLog(log) && SameKeys(TailsOf(log), sorted) && Longest(true, Views(sorted), Labels(q), p)
    requires OfKind(e.form, TailKind) && p == Pat(Labels(e.form.x), false, e.value)
    ensures LongestEntry(log, TailKind, q, e)
  {
    TailMatches(e, q);
    forall f | f in log && OfKind(f.form, TailKind) && Covers(f.form, q) ensures |f.form.x| <= |e.form.x| {
      TailStored(log, sorted, f);
      TailMatches(f, q);
      TailLonger(f.form.x, e.form.x, q);
    }
  }

  /** The best pattern of the tail index is the longest covering tail entry. */
  lemma TailAnswer(log: seq<Entry>, sorted: seq<WKey>, q: string, r: Word)
    requires GoodLog(log) && SameKeys(TailsOf(log), sorted) && IsBest(true, Views(sorted), Labels(q), r)
    ensures LongestAnswer(log, TailKind, q, r)
  {
    hide GoodLog, TailsTo, Longest, LongestEntry, Labels;
    if r == NULL {
      TailNone(log, sorted, q);
    } else {
      var p :| p in Views(sorted) && Longest(true, Views(sorted), Labels(q), p) && r == p.value;
      var j :| 0 <= j < |sorted| && View(sorted[j]) == p;
      var e := TailEntry(log, sorted[j]);
      TailLongest(log, sorted, q, e, p);
    }
  }

  lemma {:induction false} KeysMember(log: seq<Entry>, n: nat, k: HashKey)
    requires n <= |log|
    ensures k in KeysTo(log, n) <==> exists i :: 0 <= i < n && KeyOf(log[i]) == [k]
  {
    if n > 0 { KeysMember(log, n - 1, k); }
  }

  lemma KeysAreTable(log: seq<Entry>)
    requires GoodLog(log)
    ensures ValuesSet(KeysOf(log)) && HashesAgree(KeysOf(log))
    ensures forall n :: 0 <= n < |KeysOf(log)| ==> KeysOf(log)[n].live && IsLower(KeysOf(log)[n].name)
  {
    var keys := KeysOf(log);
    forall n | 0 <= n < |keys|
      ensures keys[n].value != NULL && keys[n].hash == HashOf(Lower(keys[n].name)) && keys[n].live
      ensures IsLower(keys[n].name) {
      KeysMember(log, |log|, keys[n]);
      var i :| 0 <= i < |log| && KeyOf(log[i]) == [keys[n]];
      assert GoodEntry(log[i]);
      LowerFixes(keys[n].name);
    }
  }

  lemma {:induction false} FirstEntry(curr: seq<HashKey>, l: string, n: nat)
    requires n <= |curr|
    ensures First(curr, l, n) == NULL || exists e :: e in curr && Lower(e.name) == l && First(curr, l, n) == e.value
    decreases |curr| - n
  {
    if n < |curr| && !(curr[n].live && Lower(curr[n].name) == l) { FirstEntry(curr, l, n + 1); }
  }

  /** The exact table answers for the exact entries. */
  lemma ExactAnswer(log: seq<Entry>, q: string)
    requires GoodLog(log)
    ensures LongestAnswer(log, ExactKind, q, First(KeysOf(log), q, 0))
  {
    KeysAreTable(log);
    if First(KeysOf(log), q, 0) == NULL { ExactNone(log, q); } else { ExactSome(log, q); }
  }

  lemma ExactNone(log: seq<Entry>, q: string)
    requires GoodLog(log) && ValuesSet(KeysOf(log)) && First(KeysOf(log), q, 0) == NULL
    requires forall n :: 0 <= n < |KeysOf(log)| ==> KeysOf(log)[n].live && IsLower(KeysOf(log)[n].name)
    ensures LongestAnswer(log, ExactKind, q, NULL)
  {
    var keys := KeysOf(log);
    FirstNull(keys, q, 0);
    hide GoodLog, KeysTo, First, ValuesSet, Lower, HashOf;
    forall e | e in log && e.form.Exact? ensures !Covers(e.form, q) {
      var i :| 0 <= i < |log| && log[i] == e;
      var k := HashKey(true, e.form.x, HashOf(e.form.x), e.value);
      assert KeyOf(log[i]) == [k];
      KeysMember(log, |log|, k);
      LowerFixes(k.name);
    }
  }

  lemma ExactSome(log: seq<Entry>, q: string)
    requires GoodLog(log) && First(KeysOf(log), q, 0) != NULL
    requires forall n :: 0 <= n < |KeysOf(log)| ==> KeysOf(log)[n].live && IsLower(KeysOf(log)[n].name)
    ensures LongestAnswer(log, ExactKind, q, First(KeysOf(log), q, 0))
  {
    var keys := KeysOf(log);
    hide GoodLog, KeysTo, First, Lower, HashOf;
    FirstEntry(keys, q, 0);
    var k :| k in keys && Lower(k.name) == q && First(keys, q, 0) == k.value;
    KeysMember(log, |log|, k);
    var i :| 0 <= i < |log| && KeyOf(log[i]) == [k];
    LowerFixes(k.name);
    assert LongestEntry(log, ExactKind, q, log[i]);
  }

  // ----- building and searching

  /** ngx_hash_combined_t; an absent table is a NULL pointer. */
  datatype Combined = Combined(exact: Option<Table>, head: Option<Word>, tail: Option<Word>)

  /** The tables index the accepted entries. */
  ghost predicate Built(tables: map<Word, WTable>, c: Combined, log: seq<Entry>, heads: seq<WKey>, tails: seq<WKey>) {
    GoodLog(log) && SortedFrom(HeadsOf(log), heads) && SortedFrom(TailsOf(log), tails) &&
    KeysOk(heads) && KeysOk(tails) && Unstarred(Views(tails)) &&
    (match c.exact
     case None => KeysOf(log) == []
     case Some(t) => WellFormed(t) && forall q: string :: Lookup(t, HashOf(q), q) == First(KeysOf(log), q, 0)) &&
    (match c.head
     case None => heads == []
     case Some(a) => a in tables && Indexed(tables, a, heads) && tables[a].value == NULL) &&
    (match c.tail
     case None => tails == []
     case Some(a) => a in tables && Indexed(tables, a, tails) && tables[a].value == NULL)
  }

  /** The table building of ngx_http_server_names; `heads` and `tails` are what
      ngx_qsort makes of the collected arrays. */
  method Build(ha: HashKeysArrays, pool: Pool, heads: seq<WKey>, tails: seq<WKey>, bucketSize: nat, maxSize: nat,
               cacheline: nat, memory: bool)
    returns (status: Status, c: Combined)
    requires ha.Valid() && GoodLog(ha.st.log) && pool.Valid() && maxSize > 0 && Alignment(cacheline)
    requires SortedFrom(ha.heads, heads) && SortedFrom(ha.tails, tails)
    modifies pool
    ensures status == Ok ==> Built(pool.tables, c, ha.st.log, heads, tails)
    ensures memory && Roomy(heads, bucketSize, cacheline) && Roomy(tails, bucketSize, cacheline) &&
              NamesFit(ha.keys, bucketSize) && TotalElt(ha.keys, |ha.keys|) + PTR + cacheline <= USHORT
            ==> status == Ok
  {
    c := Combined(None, None, None);
    status := Ok;
    HeadKeysOk(ha.st.log, heads);
    TailKeysOk(ha.st.log, tails);
    if ha.keys != [] {
      var t;
      if TotalElt(ha.keys, |ha.keys|) + PTR + cacheline <= USHORT { TotalFits(ha.keys, cacheline); }
      status, t := Init(ha.keys, bucketSize, maxSize, cacheline, memory);
      if status != Ok { return; }
      KeysAreTable(ha.st.log);
      forall q: string ensures WellFormed(t) && Lookup(t, HashOf(q), q) == First(ha.keys, q, 0) {
        FindIsScan(t, ha.keys, cacheline, q);
      }
      assert WellFormed(t) by { FindIsScan(t, ha.keys, cacheline, ""); }
      c := c.(exact := Some(t));
    }
    if heads != [] {
      var a;
      status, a := WildcardInit(pool, heads, bucketSize, maxSize, cacheline, memory, Deepest(heads, |heads|));
      if status != Ok { return; }
      c := c.(head := Some(a));
    }
    ghost var before := pool.tables;
    if tails != [] {
      var a;
      status, a := WildcardInit(pool, tails, bucketSize, maxSize, cacheline, memory, Deepest(tails, |tails|));
      if status != Ok { return; }
      if c.head.Some? { IndexesKept(before, pool.tables, c.head.value, Views(Reach(heads))); }
      c := c.(tail := Some(a));
    }
  }

  ghost function Deepest(keys: seq<WKey>, n: nat): (r: nat)
    requires n <= |keys|
    ensures forall i :: 0 <= i < n ==> |keys[i].name| <= r
  {
    if n == 0 then 0
    else if Deepest(keys, n - 1) >= |keys[n - 1].name| then Deepest(keys, n - 1) else |keys[n - 1].name|
  }

  /** ngx_hash_find_combined: the three tables answer like a scan of the patterns that they find, and like a scan of all
      patterns if equal labels are neighbours. */
  method FindCombined(tables: map<Word, WTable>, c: Combined, key: nat, name: string,
                      ghost log: seq<Entry>, ghost heads: seq<WKey>, ghost tails: seq<WKey>)
    returns (r: Word)
    requires Built(tables, c, log, heads, tails) && key == HashOf(name)
    ensures Scan(FoundLog(log, heads, tails), name, r)
    ensures Grouped(heads) && Grouped(tails) ==> Scan(log, name, r)
  {
    hide GoodLog, SortedFrom, KeysOk, Reached, Grouped, FoundTo, LongestAnswer;
    ghost var found := FoundLog(log, heads, tails);
    if Grouped(heads) && Grouped(tails) { NothingLost(log, heads, tails); }
    FoundGood(log, heads, tails, |log|);
    ExactAnswer(log, name);
    SameExact(log, heads, tails, name);
    if c.exact.Some? {
      r := Find(c.exact.value, key, name);
      if r != NULL { return; }
    }
    assert LongestAnswer(found, ExactKind, name, NULL) by { NoKeys(log, name); }
    if |name| == 0 {
      EmptyName(found);
      return NULL;
    }
    r := NULL;
    FoundHeads(log, heads, tails);
    if c.head.Some? {
      r := FindHead(tables, c.head.value, name, Views(Reach(heads)));
    }
    HeadAnswer(found, Reach(heads), name, r);
    if r != NULL { return; }
    FoundTails(log, heads, tails);
    if c.tail.Some? {
      ReachUnstarred(tails);
      r := FindTail(tables, c.tail.value, name, Views(Reach(tails)));
    }
    TailAnswer(found, Reach(tails), name, r);
  }

  lemma NoKeys(log: seq<Entry>, q: string)
    ensures KeysOf(log) == [] ==> First(KeysOf(log), q, 0) == NULL
  {}

  lemma ReachUnstarred(names: seq<WKey>)
    requires Unstarred(Views(names))
    ensures Unstarred(Views(Reach(names)))
  {
    hide Found, View;
    var r := Reach(names);
    forall i | 0 <= i < |r| ensures !View(r[i]).star {
      ReachMember(names, |names|, r[i]);
      var j :| 0 <= j < |names| && names[j] == r[i];
      assert Views(names)[j] in Views(names);
    }
  }

  // ----- the patterns that are found

  /** Does the index find the pattern's key? Exact names are always found. */
  ghost predicate Reached(e: Entry, heads: seq<WKey>, tails: seq<WKey>) {
    (IsHead(e.form) ==> WKey(HeadKey(e.form.x, e.form.StarHead?), e.value) in Reach(heads)) &&
    (e.form.TailOf? ==> WKey(e.form.x, e.value) in Reach(tails))
  }

  ghost function FoundTo(log: seq<Entry>, heads: seq<WKey>, tails: seq<WKey>, n: nat): seq<Entry>
    requires n <= |log|
  {
    if n == 0 then []
    else FoundTo(log, heads, tails, n - 1) + if Reached(log[n - 1], heads, tails) then [log[n - 1]] else []
  }

  ghost function FoundLog(log: seq<Entry>, heads: seq<WKey>, tails: seq<WKey>): seq<Entry> {
    FoundTo(log, heads, tails, |log|)
  }

  lemma {:induction false} FoundMember(log: seq<Entry>, heads: seq<WKey>, tails: seq<WKey>, n: nat, e: Entry)
    requires n <= |log|
    ensures e in FoundTo(log, heads, tails, n) <==> Reached(e, heads, tails) && exists i :: 0 <= i < n && log[i] == e
  {
    hide Reached;
    if n > 0 { FoundMember(log, heads, tails, n - 1, e); }
  }

  lemma {:induction false} FoundGood(log: seq<Entry>, heads: seq<WKey>, tails: seq<WKey>, n: nat)
    requires GoodLog(log) && n <= |log|
    ensures GoodLog(FoundTo(log, heads, tails, n))
  {
    hide Reached, GoodEntry, Compatible;
    if n > 0 {
      FoundGood(log, heads, tails, n - 1);
      var s := FoundTo(log, heads, tails, n - 1);
      forall i | 0 <= i < |s| ensures Compatible(s[i].form, log[n - 1].form) {
        FoundMember(log, heads, tails, n - 1, s[i]);
        var j :| 0 <= j < n - 1 && log[j] == s[i];
      }
    }
  }

  lemma SameExact(log: seq<Entry>, heads: seq<WKey>, tails: seq<WKey>, q: string)
    requires LongestAnswer(log, ExactKind, q, First(KeysOf(log), q, 0))
    ensures LongestAnswer(FoundLog(log, heads, tails), ExactKind, q, First(KeysOf(log), q, 0))
  {
    hide Covers, FoundTo, KeysTo, First;
    var found, r := FoundLog(log, heads, tails), First(KeysOf(log), q, 0);
    forall e: Entry | e.form.Exact? ensures e in found <==> e in log { FoundMember(log, heads, tails, |log|, e); }
    if r != NULL {
      var e :| e in log && e.form.Exact? && r == e.value && LongestEntry(log, ExactKind, q, e);
      assert LongestEntry(found, ExactKind, q, e);
    }
  }

  /** The keys of the patterns that are found are the keys that are found. */
  lemma FoundHeads(log: seq<Entry>, heads: seq<WKey>, tails: seq<WKey>)
    requires SortedFrom(HeadsOf(log), heads)
    ensures SameKeys(HeadsOf(FoundLog(log, heads, tails)), Reach(heads))
  {
    var found := FoundLog(log, heads, tails);
    forall k ensures k in HeadsOf(found) <==> k in Reach(heads) { FoundHead(log, heads, tails, k); }
  }

  lemma FoundHead(log: seq<Entry>, heads: seq<WKey>, tails: seq<WKey>, k: WKey)
    requires SortedFrom(HeadsOf(log), heads)
    ensures k in HeadsOf(FoundLog(log, heads, tails)) <==> k in Reach(heads)
  {
    hide SortedFrom, HeadsTo, FoundTo, ReachTo, HeadOfEntry, Found, HeadKey;
    var found := FoundLog(log, heads, tails);
    HeadsMember(found, |found|, k);
    HeadsMember(log, |log|, k);
    if k in HeadsOf(found) {
      var i :| 0 <= i < |found| && HeadOfEntry(found[i]) == [k];
      FoundMember(log, heads, tails, |log|, found[i]);
      HeadKeyIs(found[i], k);
    }
    if k in Reach(heads) {
      ReachMember(heads, |heads|, k);
      SortedMember(HeadsOf(log), heads, k);
      var i :| 0 <= i < |log| && HeadOfEntry(log[i]) == [k];
      HeadKeyIs(log[i], k);
      FoundMember(log, heads, tails, |log|, log[i]);
      var j :| 0 <= j < |found| && found[j] == log[i];
    }
  }

  lemma HeadKeyIs(e: Entry, k: WKey)
    requires HeadOfEntry(e) == [k]
    ensures IsHead(e.form) && k == WKey(HeadKey(e.form.x, e.form.StarHead?), e.value)
  {}

  lemma FoundTails(log: seq<Entry>, heads: seq<WKey>, tails: seq<WKey>)
    requires SortedFrom(TailsOf(log), tails)
    ensures SameKeys(TailsOf(FoundLog(log, heads, tails)), Reach(tails))
  {
    var found := FoundLog(log, heads, tails);
    forall k ensures k in TailsOf(found) <==> k in Reach(tails) { FoundTail(log, heads, tails, k); }
  }

  lemma FoundTail(log: seq<Entry>, heads: seq<WKey>, tails: seq<WKey>, k: WKey)
    requires SortedFrom(TailsOf(log), tails)
    ensures k in TailsOf(FoundLog(log, heads, tails)) <==> k in Reach(tails)
  {
    hide SortedFrom, TailsTo, FoundTo, ReachTo, Found;
    var found := FoundLog(log, heads, tails);
    TailsMember(found, |found|, k);
    TailsMember(log, |log|, k);
    if k in TailsOf(found) {
      var i :| 0 <= i < |found| && TailOfEntry(found[i]) == [k];
      FoundMember(log, heads, tails, |log|, found[i]);
    }
    if k in Reach(tails) {
      ReachMember(tails, |tails|, k);
      SortedMember(TailsOf(log), tails, k);
      var i :| 0 <= i < |log| && TailOfEntry(log[i]) == [k];
      FoundMember(log, heads, tails, |log|, log[i]);
      var j :| 0 <= j < |found| && found[j] == log[i];
    }
  }

  lemma NothingLost(log: seq<Entry>, heads: seq<WKey>, tails: seq<WKey>)
    requires SortedFrom(HeadsOf(log), heads) && SortedFrom(TailsOf(log), tails) && Grouped(heads) && Grouped(tails)
    ensures FoundLog(log, heads, tails) == log
  {
    hide SortedFrom, Found;
    AllFound(heads, |heads|);
    AllFound(tails, |tails|);
    assert Reach(heads) == heads && Reach(tails) == tails;
    forall i | 0 <= i < |log| ensures Reached(log[i], heads, tails) { EntryReached(log, heads, tails, i); }
    AllReached(log, heads, tails, |log|);
    assert log[..|log|] == log;
  }

  lemma EntryReached(log: seq<Entry>, heads: seq<WKey>, tails: seq<WKey>, i: nat)
    requires SortedFrom(HeadsOf(log), heads) && SortedFrom(TailsOf(log), tails) && i < |log|
    requires Reach(heads) == heads && Reach(tails) == tails
    ensures Reached(log[i], heads, tails)
  {
    hide SortedFrom, HeadsTo, TailsTo, ReachTo, HeadKey;
    var e := log[i];
    if IsHead(e.form) {
      var k := WKey(HeadKey(e.form.x, e.form.StarHead?), e.value);
      assert HeadOfEntry(log[i]) == [k];
      HeadsMember(log, |log|, k);
      SortedMember(HeadsOf(log), heads, k);
    }
    if e.form.TailOf? {
      var k := WKey(e.form.x, e.value);
      assert TailOfEntry(log[i]) == [k];
      TailsMember(log, |log|, k);
      SortedMember(TailsOf(log), tails, k);
    }
  }

  lemma {:induction false} AllReached(log: seq<Entry>, heads: seq<WKey>, tails: seq<WKey>, n: nat)
    requires n <= |log| && forall i :: 0 <= i < n ==> Reached(log[i], heads, tails)
    ensures FoundTo(log, heads, tails, n) == log[..n]
  {
    hide Reached;
    if n > 0 {
      AllReached(log, heads, tails, n - 1);
      assert log[..n] == log[..n - 1] + [log[n - 1]];
    }
  }

  lemma EmptyName(log: seq<Entry>)
    requires GoodLog(log)
    ensures LongestAnswer(log, HeadKind, "", NULL) && LongestAnswer(log, TailKind, "", NULL)
  {
    forall e | e in log && !e.form.Exact? ensures !Covers(e.form, "") {
      var i :| 0 <= i < |log| && log[i] == e;
      assert GoodEntry(log[i]);
    }
  }
}
