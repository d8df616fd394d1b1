/** Collecting the names of all servers of an address: any number of calls of ngx_hash_add_key, which may refuse
    names. */
module ServerNames {
  import opened Text
  import opened HashLayout
  import opened Wildcards
  import opened WildcardKeys
  import opened HashKeys
  import opened HashCombined

  /** A name as it is written in the configuration, and the server that has it. */
  datatype Name = Name(text: string, server: Word)

  ghost predicate GoodNames(names: seq<Name>) {
    forall i :: 0 <= i < |names| ==> Aligned(names[i].server)
  }

  ghost function CallOf(name: Name): Entry {
    Entry(LowerForm(Classify(name.text, true), false), name.server)
  }

  ghost function CallsTo(names: seq<Name>, n: nat): (calls: seq<Entry>)
    requires n <= |names|
    ensures |calls| == n && forall i :: 0 <= i < n ==> calls[i] == CallOf(names[i])
  {
    if n == 0 then [] else CallsTo(names, n - 1) + [CallOf(names[n - 1])]
  }

  ghost predicate Acceptable(calls: seq<Entry>) {
    forall i :: 0 <= i < |calls| && !calls[i].form.Invalid? ==> GoodEntry(calls[i])
  }

  lemma NamesAcceptable(names: seq<Name>, n: nat)
    requires n <= |names| && GoodNames(names)
    ensures Acceptable(CallsTo(names, n))
  {
    forall i | 0 <= i < n && !CallOf(names[i]).form.Invalid? ensures GoodEntry(CallOf(names[i])) {
      ClassifyGood(names[i].text, names[i].server);
    }
  }

  lemma {:induction false} LogEntries(calls: seq<Entry>, n: nat)
    requires n <= |calls| && Acceptable(calls)
    ensures forall i :: 0 <= i < |Run(calls, n).log| ==> GoodEntry(Run(calls, n).log[i])
  {
    if n > 0 {
      LogEntries(calls, n - 1);
      var before, c := Run(calls, n - 1), calls[n - 1];
      LogGrows(before, c);
      hide Add;
    }
  }

  lemma LogGrows(st: Names, c: Entry)
    ensures Add(st, c.form, c.value).0.log == if Add(st, c.form, c.value).1 == OK then st.log + [c] else st.log
    ensures Add(st, c.form, c.value).1 == OK ==> !c.form.Invalid?
  {
  }

  /** Whatever names are tried, in whatever order, those that are kept are fit to be indexed. */
  lemma RunGood(calls: seq<Entry>, n: nat)
    requires n <= |calls| && Acceptable(calls)
    ensures GoodLog(Run(calls, n).log)
  {
    LogEntries(calls, n);
    RunClean(calls, n);
  }

  lemma {:induction false} RunPrefix(a: seq<Entry>, b: seq<Entry>, n: nat)
    requires n <= |a| && n <= |b| && forall i :: 0 <= i < n ==> a[i] == b[i]
    ensures Run(a, n) == Run(b, n)
  {
    if n > 0 { RunPrefix(a, b, n - 1); }
  }

  ghost predicate AllAccepted(calls: seq<Entry>, n: nat)
    requires n <= |calls|
  {
    forall i :: 0 <= i < n ==> Add(Run(calls, i), calls[i].form, calls[i].value).1 == OK
  }

  /** When no name is refused, all are kept. */
  lemma {:induction false} AcceptedAreKept(calls: seq<Entry>, n: nat)
    requires n <= |calls| && AllAccepted(calls, n)
    ensures Run(calls, n).log == calls[..n]
  {
    hide Add;
    if n > 0 {
      AcceptedAreKept(calls, n - 1);
      assert Add(Run(calls, n - 1), calls[n - 1].form, calls[n - 1].value).1 == OK;
      LogGrows(Run(calls, n - 1), calls[n - 1]);
      assert calls[..n] == calls[..n - 1] + [calls[n - 1]];
    }
  }

  /** Could the form be stored beside all of the log? */
  ghost predicate Fits(log: seq<Entry>, f: Form) {
    forall i :: 0 <= i < |log| ==> Compatible(log[i].form, f)
  }

  /** A name that does not conflict with any name tried before is never refused. */
  lemma {:induction false} FreshAccepted(calls: seq<Entry>, n: nat)
    requires n < |calls| && !calls[n].form.Invalid? && Fits(calls[..n], calls[n].form)
    ensures Add(Run(calls, n), calls[n].form, calls[n].value).1 == OK
  {
    var f := calls[n].form;
    NotRecorded(calls, n, f);
  }

  lemma {:induction false} NotRecorded(calls: seq<Entry>, n: nat, f: Form)
    requires n <= |calls| && Fits(calls[..n], f) && !f.Invalid?
    ensures IsName(f) ==> f.x !in Run(calls, n).reserved
    ensures IsHead(f) ==> f.x !in Run(calls, n).heads
    ensures f.TailOf? ==> f.x !in Run(calls, n).tails
  {
    if n > 0 {
      assert forall i :: 0 <= i < n - 1 ==> calls[..n - 1][i] == calls[..n][i];
      NotRecorded(calls, n - 1, f);
      assert Compatible(calls[..n][n - 1].form, f);
    }
  }

  // ----- the case of letters

  /** Is the i-th name kept? */
  ghost predicate KeptName(names: seq<Name>, i: nat)
    requires i < |names|
  {
    var c := CallOf(names[i]);
    Add(Run(CallsTo(names, |names|), i), c.form, c.value).1 == OK
  }

  ghost function LogOf(names: seq<Name>): seq<Entry> { Run(CallsTo(names, |names|), |names|).log }

  lemma {:induction false} StaysInLog(calls: seq<Entry>, i: nat, n: nat)
    requires i < n <= |calls| && Add(Run(calls, i), calls[i].form, calls[i].value).1 == OK
    ensures calls[i] in Run(calls, n).log
    decreases n
  {
    hide Add;
    LogGrows(Run(calls, n - 1), calls[n - 1]);
    if i < n - 1 { StaysInLog(calls, i, n - 1); }
  }

  /** A kept name is on record in lower case, whatever the case in which it was written. */
  lemma Filed(names: seq<Name>, i: nat, y: string, x: string)
    requires i < |names| && KeptName(names, i) && Folded(y, x)
    ensures var text, v, log := names[i].text, names[i].server, LogOf(names);
      && (text == y && Stars(y) == 0 && !TwoDots(y) && (|y| > 1 ==> y[0] != '.') ==> Entry(Exact(x), v) in log)
      && (text == "." + y && y != "" && Stars(y) <= 1 && !TwoDots(text) ==> Entry(DotHead(x), v) in log)
      && (text == "*." + y && y != "" && Stars(y) == 0 && !TwoDots(text) ==> Entry(StarHead(x), v) in log)
      && (text == y + ".*" && y != "" && y[0] != '.' && Stars(y) == 0 && !TwoDots(text) ==> Entry(TailOf(x), v) in log)
  {
    hide Add, Run, Classify, Stars, TwoDots, Folded;
    FoldedIff(y, x);
    FormIff(names[i].text, y);
    var calls := CallsTo(names, |names|);
    assert calls[i] == CallOf(names[i]);
    StaysInLog(calls, i, |names|);
  }

  /** A kept exact name answers a query for its letters in lower case, whatever else is in the index. */
  lemma AnyCase(names: seq<Name>, i: nat, q: string, heads: seq<WKey>, tails: seq<WKey>, r: Word)
    requires GoodNames(names) && i < |names| && KeptName(names, i)
    requires Folded(names[i].text, q) && Stars(names[i].text) == 0 && !TwoDots(names[i].text)
    requires |names[i].text| > 1 ==> names[i].text[0] != '.'
    requires Scan(FoundLog(LogOf(names), heads, tails), q, r)
    ensures r == names[i].server
  {
    hide Run, Add, Stars, TwoDots, Folded, Scan, FoundTo, GoodLog, KeptName, GoodNames;
    var log, e := LogOf(names), Entry(Exact(q), names[i].server);
    Filed(names, i, names[i].text, q);
    NamesAcceptable(names, |names|);
    RunGood(CallsTo(names, |names|), |names|);
    FoundGood(log, heads, tails, |log|);
    var k :| 0 <= k < |log| && log[k] == e;
    FoundMember(log, heads, tails, |log|, e);
    ServerAligned(names, i);
    ExactScan(FoundLog(log, heads, tails), e);
    ScanUnique(FoundLog(log, heads, tails), q, r, e.value);
  }

  lemma ServerAligned(names: seq<Name>, i: nat)
    requires GoodNames(names) && i < |names|
    ensures names[i].server != NULL
  {}

  lemma ExactScan(log: seq<Entry>, e: Entry)
    requires e in log && e.form.Exact? && e.value != NULL
    ensures Scan(log, e.form.x, e.value)
  {
    assert LongestEntry(log, ExactKind, e.form.x, e);
  }

  /** A kept name with a leading dot answers for the name itself, and a scan for it finds nothing longer. */
  lemma AnyCaseDot(names: seq<Name>, i: nat, y: string, q: string, r: Word)
    requires GoodNames(names) && i < |names| && KeptName(names, i)
    requires names[i].text == "." + y && y != "" && Folded(y, q) && Stars(y) <= 1 && !TwoDots(names[i].text)
    requires Scan(LogOf(names), q, r)
    ensures r == names[i].server
  {
    hide Run, Add, Stars, TwoDots, Folded, Scan, KeptName, GoodNames, GoodLog;
    var log, e := LogOf(names), Entry(DotHead(q), names[i].server);
    Filed(names, i, y, q);
    NamesAcceptable(names, |names|);
    RunGood(CallsTo(names, |names|), |names|);
    ServerAligned(names, i);
    DotScan(log, e);
    ScanUnique(log, q, r, e.value);
  }

  lemma DotScan(log: seq<Entry>, e: Entry)
    requires GoodLog(log) && e in log && e.form.DotHead? && e.value != NULL
    ensures Scan(log, e.form.x, e.value)
  {
    var k :| 0 <= k < |log| && log[k] == e;
    forall f | f in log && f.form.Exact? ensures !Covers(f.form, e.form.x) {
      var j :| 0 <= j < |log| && log[j] == f;
      assert Compatible(log[if j < k then j else k].form, log[if j < k then k else j].form);
    }
    assert LongestEntry(log, HeadKind, e.form.x, e);
  }

  method AddName(ha: HashKeysArrays, name: Name) returns (rc: Code)
    requires ha.Valid()
    modifies ha
    ensures ha.Valid() && (ha.st, rc) == Add(old(ha.st), CallOf(name).form, name.server)
  {
    hide Add, Classify;
    hide HashKeysArrays.Valid;
    var text := name.text;
    var key := new char[|text|](i requires 0 <= i < |text| => text[i]);
    assert key[..] == text;
    rc := ha.AddKey(key, name.server, true, false);
  }

  /** Adds all names. A malformed one is an error; one that conflicts is left out. */
  method AddNames(ha: HashKeysArrays, names: seq<Name>) returns (ok: bool)
    requires ha.Valid() && ha.st == NoNames && GoodNames(names)
    modifies ha
    ensures ha.Valid()
    ensures ok <==> forall i :: 0 <= i < |names| ==> !Classify(names[i].text, true).Invalid?
    ensures ok ==> ha.st == Run(CallsTo(names, |names|), |names|) && GoodLog(ha.st.log)
  {
    hide Add, Classify, GoodNames, GoodLog;
    hide HashKeysArrays.Valid;
    var n := 0;
    while n < |names|
      invariant 0 <= n <= |names| && ha.Valid() && ha.st == Run(CallsTo(names, n), n)
      invariant forall i :: 0 <= i < n ==> !Classify(names[i].text, true).Invalid?
    {
      RunPrefix(CallsTo(names, n), CallsTo(names, n + 1), n);
      ghost var before := ha.st;
      var rc := AddName(ha, names[n]);
      DeclinedIff(before, CallOf(names[n]));
      if rc == DECLINED {
        assert Classify(names[n].text, true).Invalid?;
        return false;
      }
      n := n + 1;
    }
    ok := true;
    NamesAcceptable(names, |names|);
    RunGood(CallsTo(names, |names|), |names|);
  }

  lemma DeclinedIff(st: Names, c: Entry)
    ensures Add(st, c.form, c.value).1 == DECLINED <==> c.form.Invalid?
  {
  }
}
