/** ngx_hash_add_key: classifying server name patterns and refusing conflicts. */
module HashKeys {
  import opened Text
  import opened HashLayout
  import opened Wildcards
  import opened WildcardKeys

  /** What a pattern text asks for. */
  datatype Form =
    | Invalid
    | Exact(x: string)     // "www.example.com"
    | DotHead(x: string)   // ".example.com"
    | StarHead(x: string)  // "*.example.com"
    | TailOf(x: string)    // "www.example.*"

  function HeadForm(x: string, star: bool): Form {
    if star then StarHead(x) else DotHead(x)
  }

  /** More than one star, or two dots in a row. */
  ghost predicate Malformed(key: string) {
    (exists i, j :: 0 <= i < j < |key| && key[i] == '*' && key[j] == '*') ||
    (exists i :: 0 <= i < |key| - 1 && key[i] == DOT && key[i + 1] == DOT)
  }

  ghost function Classify(key: string, wildcard: bool): Form {
    if !wildcard then Exact(key)
    else if Malformed(key) then Invalid
    else if |key| > 1 && key[0] == DOT then DotHead(key[1..])
    else if |key| > 2 && key[0] == '*' && key[1] == DOT then StarHead(key[2..])
    else if |key| > 2 && key[|key| - 2] == DOT && key[|key| - 1] == '*' then TailOf(key[..|key| - 2])
    else if '*' in key then Invalid
    else Exact(key)
  }

  // ----- the same said of the text, form by form

  function Stars(s: string): nat {
    if s == "" then 0 else Stars(s[..|s| - 1]) + if s[|s| - 1] == '*' then 1 else 0
  }

  ghost predicate TwoDots(s: string) {
    exists a: string, b: string :: s == a + ".." + b
  }

  /** Which texts are of which form. */
  lemma FormIff(key: string, x: string)
    ensures Classify(key, true) == Exact(x) <==>
            key == x && Stars(key) == 0 && !TwoDots(key) && (|key| > 1 ==> key[0] != '.')
    ensures Classify(key, true) == DotHead(x) <==> key == "." + x && x != "" && Stars(x) <= 1 && !TwoDots(key)
    ensures Classify(key, true) == StarHead(x) <==> key == "*." + x && x != "" && Stars(x) == 0 && !TwoDots(key)
    ensures Classify(key, true) == TailOf(x) <==>
            key == x + ".*" && x != "" && x[0] != '.' && Stars(x) == 0 && !TwoDots(key)
  {
    hide Malformed, Stars, TwoDots;
    MalformedIff(key);
    StarsAre(key);
    StarsAre(x);
    DotFront(key, x);
    StarFront(key, x);
    StarBack(key, x);
  }

  lemma DotFront(key: string, x: string)
    ensures key == "." + x <==> |key| >= 1 && key[0] == DOT && x == key[1..]
    ensures key == "." + x ==> Stars(key) == Stars(x)
  {
    OneCharStars();
    StarsSum(".", x);
    if |key| >= 1 && key[0] == DOT { assert key == "." + key[1..]; }
    if key == "." + x { assert key[1..] == x; }
  }

  lemma StarFront(key: string, x: string)
    ensures key == "*." + x <==> |key| >= 2 && key[0] == '*' && key[1] == DOT && x == key[2..]
    ensures key == "*." + x ==> Stars(key) == 1 + Stars(x)
  {
    OneCharStars();
    StarsSum("*.", x);
    if |key| >= 2 && key[0] == '*' && key[1] == DOT { assert key == "*." + key[2..]; }
    if key == "*." + x { assert key[2..] == x; }
  }

  lemma StarBack(key: string, x: string)
    ensures key == x + ".*" <==>
            |key| >= 2 && key[|key| - 2] == DOT && key[|key| - 1] == '*' && x == key[..|key| - 2]
    ensures key == x + ".*" ==> Stars(key) == 1 + Stars(x)
  {
    OneCharStars();
    StarsSum(x, ".*");
    if |key| >= 2 && key[|key| - 2] == DOT && key[|key| - 1] == '*' { assert key == key[..|key| - 2] + ".*"; }
    if key == x + ".*" { assert key[..|key| - 2] == x; }
  }

  lemma OneCharStars()
    ensures Stars(".") == 0 && Stars("*.") == 1 && Stars(".*") == 1
  {
    assert "."[..0] == "" && "*."[..1] == "*" && "*"[..0] == "" && ".*"[..1] == ".";
  }

  lemma {:induction false} StarsSum(a: string, b: string)
    ensures Stars(a + b) == Stars(a) + Stars(b)
  {
    if b == "" {
      assert a + b == a;
    } else {
      assert (a + b)[..|a + b| - 1] == a + b[..|b| - 1];
      StarsSum(a, b[..|b| - 1]);
    }
  }

  lemma {:induction false} StarsAre(s: string)
    ensures Stars(s) == 0 <==> '*' !in s
    ensures Stars(s) > 1 <==> exists i, j :: 0 <= i < j < |s| && s[i] == '*' && s[j] == '*'
    decreases |s|
  {
    if s != "" {
      var p, n := s[..|s| - 1], |s| - 1;
      StarsAre(p);
      assert s == p + [s[n]];
      if s[n] == '*' && '*' in p {
        var i :| 0 <= i < |p| && p[i] == '*';
        assert s[i] == '*' && s[n] == '*';
      }
      if Stars(p) > 1 {
        var i, j :| 0 <= i < j < |p| && p[i] == '*' && p[j] == '*';
        assert s[i] == '*' && s[j] == '*';
      }
      if exists i, j :: 0 <= i < j < |s| && s[i] == '*' && s[j] == '*' {
        var i, j :| 0 <= i < j < |s| && s[i] == '*' && s[j] == '*';
        assert p[i] == '*';
        if j < n { assert p[j] == '*'; }
      }
    }
  }

  lemma MalformedIff(key: string)
    ensures Malformed(key) <==> Stars(key) > 1 || TwoDots(key)
  {
    StarsAre(key);
    if TwoDots(key) {
      var a: string, b: string :| key == a + ".." + b;
      assert key[|a|] == DOT && key[|a| + 1] == DOT;
    }
    if i :| 0 <= i < |key| - 1 && key[i] == DOT && key[i + 1] == DOT {
      assert key == key[..i] + ".." + key[i + 2..];
    }
  }

  /** The scan at the top of ngx_hash_add_key: refuse the key, or count its stars. */
  method ScanStars(key: string) returns (bad: bool, n: nat)
    ensures bad <==> Malformed(key)
    ensures !bad ==> (n == 0 <==> '*' !in key)
  {
    n, bad := 0, true;
    for i := 0 to |key|
      invariant n == 0 || n == 1
      invariant n == 0 <==> '*' !in key[..i]
      invariant n == 1 ==> exists j :: 0 <= j < i && key[j] == '*'
      invariant forall j, k :: 0 <= j < k < i ==> !(key[j] == '*' && key[k] == '*')
      invariant forall j :: 0 <= j < i && j < |key| - 1 ==> !(key[j] == DOT && key[j + 1] == DOT)
    {
      assert key[..i + 1] == key[..i] + [key[i]];
      if key[i] == '*' {
        if n == 1 { return; }
        n := 1;
      }
      if key[i] == DOT && i + 1 < |key| && key[i + 1] == DOT { return; }
    }
    assert key[..|key|] == key;
    bad := false;
  }

  // ----- label reversal

  /** The labels behind the first one, from right to left, each followed by a dot. */
  function RevTail(s: string): string
    decreases |s|
  {
    var d := FirstDot(s);
    if d == |s| then "" else RevTail(s[d + 1..]) + Head(s[d + 1..]) + [DOT]
  }

  /** "example.com" becomes "com.example". */
  function Rev(s: string): string { RevTail(s) + Head(s) }

  /** "*.example.com" becomes "com.example.", ".example.com" becomes "com.example". */
  function HeadKey(x: string, star: bool): string {
    if star then Rev(x) + [DOT] else Rev(x)
  }

  lemma RevTailDot(s: string)
    ensures RevTail([DOT] + s) == RevTail(s) + Head(s) + [DOT] && Head([DOT] + s) == ""
  {
    FirstDotUnique([DOT] + s, 0);
    assert ([DOT] + s)[1..] == s;
  }

  lemma RevTailChar(c: char, s: string)
    requires c != DOT
    ensures RevTail([c] + s) == RevTail(s) && Head([c] + s) == [c] + Head(s)
  {
    var d, e := FirstDot(s), [c] + s;
    FirstDotUnique(e, d + 1);
    hide FirstDot;
    assert e[..d + 1] == [c] + s[..d];
    if d < |s| { assert e[d + 2..] == s[d + 1..]; }
  }

  lemma {:induction false} RevLength(s: string)
    ensures |Rev(s)| == |s|
    decreases |s|
  {
    var d := FirstDot(s);
    if d < |s| { RevLength(s[d + 1..]); }
  }

  lemma {:induction false} LabelsSnoc(s: string, l: string)
    requires DOT !in l
    ensures Labels(s + [DOT] + l) == Labels(s) + [l]
    decreases |s|
  {
    var d := FirstDot(s);
    if d == |s| {
      LabelsCons(s, l);
      LabelsOne(l);
    } else {
      var t := s[d + 1..];
      assert s + [DOT] + l == s[..d] + [DOT] + (t + [DOT] + l);
      LabelsCons(s[..d], t + [DOT] + l);
      LabelsSnoc(t, l);
      assert Labels(s) == [s[..d]] + Labels(t);
      hide Labels;
    }
  }

  lemma {:induction false} RLabelsFront(l: string, s: string)
    requires DOT !in l
    ensures RLabels(l + [DOT] + s) == RLabels(s) + [l]
    decreases |s|
  {
    var d := LastDot(s);
    if d == 0 {
      RLabelsSnoc(l, s);
      RLabelsOne(l);
    } else {
      var t := s[..d - 1];
      assert l + [DOT] + s == (l + [DOT] + t) + [DOT] + s[d..];
      RLabelsSnoc(l + [DOT] + t, s[d..]);
      RLabelsFront(l, t);
    }
  }

  lemma RevCons(l: string, t: string)
    requires DOT !in l
    ensures Rev(l + [DOT] + t) == Rev(t) + [DOT] + l
  {
    var s := l + [DOT] + t;
    FirstDotUnique(s, |l|);
    assert s[..|l|] == l && s[|l| + 1..] == t;
  }

  lemma RevOne(l: string)
    requires DOT !in l
    ensures Rev(l) == l
  {
    FirstDotUnique(l, |l|);
  }

  /** Reversal turns right-to-left labels into left-to-right labels. */
  lemma {:induction false} RevLabels(s: string)
    ensures Labels(Rev(s)) == RLabels(s)
    decreases |s|
  {
    var d := FirstDot(s);
    var l := s[..d];
    if d == |s| {
      assert l == s;
      RevOne(l);
      LabelsOne(l);
      RLabelsOne(l);
    } else {
      var t := s[d + 1..];
      assert s == l + [DOT] + t;
      RevLabels(t);
      RevCons(l, t);
      LabelsSnoc(Rev(t), l);
      RLabelsFront(l, t);
    }
  }

  /** Moving the scan one character to the left. */
  lemma ScanLeft(data: string, i: nat)
    requires i < |data|
    ensures data[i] == DOT ==> FirstDot(data[i..]) == 0 &&
                               RevTail(data[i..]) == RevTail(data[i + 1..]) + Head(data[i + 1..]) + [DOT]
    ensures data[i] != DOT ==> FirstDot(data[i..]) == FirstDot(data[i + 1..]) + 1 &&
                               RevTail(data[i..]) == RevTail(data[i + 1..])
  {
    assert data[i..] == [data[i]] + data[i + 1..];
    if data[i] == DOT {
      RevTailDot(data[i + 1..]);
    } else {
      RevTailChar(data[i], data[i + 1..]);
    }
  }

  lemma HeadSlice(data: string, i: nat)
    requires i <= |data|
    ensures i + FirstDot(data[i..]) <= |data| && Head(data[i..]) == data[i..i + FirstDot(data[i..])]
  {}

  /** Copy the pending label behind the dot at `i`, and a dot. */
  method PushLabel(p: array<char>, n: nat, data: string, i: nat, len: nat) returns (m: nat)
    requires i < |data| && data[i] == DOT && FirstDot(data[i + 1..]) == len && n + len < p.Length
    requires p[..n] == RevTail(data[i + 1..])
    modifies p
    ensures m == n + len + 1 && p[..m] == RevTail(data[i..])
  {
    HeadSlice(data, i + 1);
    ScanLeft(data, i);
    m := CopyInto(p, n, data, i + 1, len);
    m := PutChar(p, m, DOT);
  }

  /** The conversion loop: labels go to `p` from right to left; the leftmost
      `len` characters behind data[0] are not copied yet. */
  method ReverseLoop(data: string, p: array<char>) returns (n: nat, len: nat)
    requires |data| > 1 && p.Length == |data|
    modifies p
    ensures n + len == |data| - 1 && FirstDot(data[1..]) == len && p[..n] == RevTail(data[1..])
  {
    n, len := 0, 0;
    NothingScanned(data);
    for i := |data| downto 1
      invariant n + len == |data| - i && FirstDot(data[i..]) == len && p[..n] == RevTail(data[i..])
    {
      ScanLeft(data, i);
      if data[i] == DOT {
        n := PushLabel(p, n, data, i, len);
        len := 0;
      } else {
        len := len + 1;
      }
    }
  }

  lemma NothingScanned(data: string)
    ensures FirstDot(data[|data|..]) == 0 && RevTail(data[|data|..]) == ""
  {
    assert data[|data|..] == "";
  }

  /** data = "*.example.com" or ".example.com"; the result takes |data| bytes of p,
      the last of them NUL. */
  method ReverseInto(data: string, p: array<char>) returns (n: nat)
    requires |data| > 1 && p.Length == |data|
    requires data[0] == DOT || (|data| > 2 && data[0] == '*' && data[1] == DOT)
    modifies p
    ensures n == |data| - 1 && p[n] == NUL
    ensures p[..n] == if data[0] == DOT then HeadKey(data[1..], false) else HeadKey(data[2..], true)
  {
    var len;
    n, len := ReverseLoop(data, p);
    HeadSlice(data, 1);
    if data[0] != DOT {
      ScanLeft(data, 1);
    }
    if len > 0 {
      n := CopyInto(p, n, data, 1, len);
    }
    p[n] := NUL;
  }

  method PutChar(p: array<char>, n: nat, c: char) returns (m: nat)
    requires n < p.Length
    modifies p
    ensures m == n + 1 && p[..m] == old(p[..n]) + [c]
  {
    p[n] := c;
    m := n + 1;
  }

  /** ngx_memcpy(&p[n], &data[from], len); n += len. */
  method CopyInto(p: array<char>, n: nat, data: string, from: nat, len: nat) returns (m: nat)
    requires n + len <= p.Length && from + len <= |data|
    modifies p
    ensures m == n + len && p[..m] == old(p[..n]) + data[from..from + len]
  {
    for k := 0 to len
      invariant p[..n + k] == old(p[..n]) + data[from..from + k]
    {
      ghost var before := p[..n + k];
      p[n + k] := data[from + k];
      assert p[..n + k + 1] == before + [data[from + k]];
    }
    m := n + len;
  }

  // ----- what adding a key means

  datatype Code = OK | BUSY | DECLINED

  datatype Entry = Entry(form: Form, value: Word)

  /** The names known so far: the conflict lists and the accepted entries in order. */
  datatype Names = Names(reserved: seq<string>, heads: seq<string>, tails: seq<string>, log: seq<Entry>)

  const NoNames: Names := Names([], [], [], [])

  ghost function LowerForm(f: Form, readonly: bool): Form {
    match f
    case Invalid => Invalid
    case Exact(x) => Exact(if readonly then x else Lower(x))
    case DotHead(x) => DotHead(Lower(x))
    case StarHead(x) => StarHead(Lower(x))
    case TailOf(x) => TailOf(Lower(x))
  }

  ghost function Add(st: Names, f: Form, value: Word): (Names, Code) {
    match f
    case Invalid => (st, DECLINED)
    case Exact(x) =>
      if x in st.reserved then (st, BUSY)
      else (st.(reserved := st.reserved + [x], log := st.log + [Entry(f, value)]), OK)
    case DotHead(x) =>
      if x in st.reserved then (st, BUSY) else AddHead(st.(reserved := st.reserved + [x]), f, value)
    case StarHead(x) => AddHead(st, f, value)
    case TailOf(x) =>
      if x in st.tails then (st, BUSY)
      else (st.(tails := st.tails + [x], log := st.log + [Entry(f, value)]), OK)
  }

  lemma AddInvalid(st: Names, value: Word)
    ensures Add(st, Invalid, value) == (st, DECLINED)
  {
  }

  ghost function AddHead(st: Names, f: Form, value: Word): (Names, Code)
    requires f.DotHead? || f.StarHead?
  {
    if f.x in st.heads then (st, BUSY)
    else (st.(heads := st.heads + [f.x], log := st.log + [Entry(f, value)]), OK)
  }

  /** The arrays that the first `n` accepted entries leave in ngx_hash_keys_arrays_t. */
  ghost function KeysTo(log: seq<Entry>, n: nat): seq<HashKey>
    requires n <= |log|
  {
    if n == 0 then [] else KeysTo(log, n - 1) + KeyOf(log[n - 1])
  }

  ghost function KeyOf(e: Entry): seq<HashKey> {
    if e.form.Exact? then [HashKey(true, e.form.x, HashOf(e.form.x), e.value)] else []
  }

  ghost function HeadsTo(log: seq<Entry>, n: nat): seq<WKey>
    requires n <= |log|
  {
    if n == 0 then [] else HeadsTo(log, n - 1) + HeadOfEntry(log[n - 1])
  }

  ghost function HeadOfEntry(e: Entry): seq<WKey> {
    match e.form
    case DotHead(x) => [WKey(HeadKey(x, false), e.value)]
    case StarHead(x) => [WKey(HeadKey(x, true), e.value)]
    case _ => []
  }

  ghost function TailsTo(log: seq<Entry>, n: nat): seq<WKey>
    requires n <= |log|
  {
    if n == 0 then [] else TailsTo(log, n - 1) + TailOfEntry(log[n - 1])
  }

  ghost function TailOfEntry(e: Entry): seq<WKey> {
    if e.form.TailOf? then [WKey(e.form.x, e.value)] else []
  }

  ghost function KeysOf(log: seq<Entry>): seq<HashKey> { KeysTo(log, |log|) }

  ghost function HeadsOf(log: seq<Entry>): seq<WKey> { HeadsTo(log, |log|) }

  ghost function TailsOf(log: seq<Entry>): seq<WKey> { TailsTo(log, |log|) }

  lemma {:induction false} LogPrefix(log: seq<Entry>, e: Entry, n: nat)
    requires n <= |log|
    ensures KeysTo(log + [e], n) == KeysTo(log, n) && HeadsTo(log + [e], n) == HeadsTo(log, n)
    ensures TailsTo(log + [e], n) == TailsTo(log, n)
  {
    if n > 0 { LogPrefix(log, e, n - 1); }
  }

  lemma LogSnoc(log: seq<Entry>, e: Entry)
    ensures KeysOf(log + [e]) == KeysOf(log) + KeyOf(e)
    ensures HeadsOf(log + [e]) == HeadsOf(log) + HeadOfEntry(e)
    ensures TailsOf(log + [e]) == TailsOf(log) + TailOfEntry(e)
  {
    LogPrefix(log, e, |log|);
  }

  /** An accepted entry extends the one array of its kind. */
  lemma LogExact(log: seq<Entry>, x: string, value: Word)
    ensures var after := log + [Entry(Exact(x), value)];
            KeysOf(after) == KeysOf(log) + [HashKey(true, x, HashOf(x), value)] &&
            HeadsOf(after) == HeadsOf(log) && TailsOf(after) == TailsOf(log)
  {
    LogSnoc(log, Entry(Exact(x), value));
  }

  lemma LogHead(log: seq<Entry>, x: string, star: bool, value: Word)
    ensures var after := log + [Entry(HeadForm(x, star), value)];
            HeadsOf(after) == HeadsOf(log) + [WKey(HeadKey(x, star), value)] &&
            KeysOf(after) == KeysOf(log) && TailsOf(after) == TailsOf(log)
  {
    LogSnoc(log, Entry(HeadForm(x, star), value));
  }

  lemma LogTail(log: seq<Entry>, x: string, value: Word)
    ensures var after := log + [Entry(TailOf(x), value)];
            TailsOf(after) == TailsOf(log) + [WKey(x, value)] &&
            KeysOf(after) == KeysOf(log) && HeadsOf(after) == HeadsOf(log)
  {
    LogSnoc(log, Entry(TailOf(x), value));
  }

  // ----- conflict tables

  /** The conflict table with `size` slots in which the first `n` names, each followed
      by `suffix`, were filed in the slot of their hash. */
  ghost function TableTo(size: nat, names: seq<string>, suffix: string, n: nat): (r: seq<seq<string>>)
    requires size > 0 && n <= |names|
    ensures |r| == size
  {
    if n == 0 then seq(size, _ => [])
    else Put(TableTo(size, names, suffix, n - 1), Slot(HashOf(names[n - 1]), size), names[n - 1] + suffix)
  }

  ghost function TableOf(size: nat, names: seq<string>, suffix: string): (r: seq<seq<string>>)
    requires size > 0
    ensures |r| == size
  {
    TableTo(size, names, suffix, |names|)
  }

  function Put(table: seq<seq<string>>, k: nat, s: string): seq<seq<string>>
    requires k < |table|
  {
    table[k := table[k] + [s]]
  }

  lemma {:induction false} TablePrefix(size: nat, names: seq<string>, suffix: string, x: string, n: nat)
    requires size > 0 && n <= |names|
    ensures TableTo(size, names + [x], suffix, n) == TableTo(size, names, suffix, n)
  {
    if n > 0 { TablePrefix(size, names, suffix, x, n - 1); }
  }

  lemma TableSnoc(size: nat, names: seq<string>, suffix: string, x: string)
    requires size > 0
    ensures TableOf(size, names + [x], suffix) == Put(TableOf(size, names, suffix), Slot(HashOf(x), size), x + suffix)
  {
    TablePrefix(size, names, suffix, x, |names|);
  }

  /** A name is in its slot exactly when it was filed. */
  lemma {:induction false} TableLookup(size: nat, names: seq<string>, suffix: string, x: string, n: nat)
    requires size > 0 && n <= |names|
    ensures x + suffix in TableTo(size, names, suffix, n)[Slot(HashOf(x), size)] <==>
      exists i :: 0 <= i < n && names[i] == x
  {
    if n > 0 {
      TableLookup(size, names, suffix, x, n - 1);
      SuffixCancel(x, names[n - 1], suffix);
    }
  }

  lemma SuffixCancel(x: string, y: string, suffix: string)
    ensures x + suffix == y + suffix <==> x == y
  {
    if x + suffix == y + suffix {
      assert x == (x + suffix)[..|x + suffix| - |suffix|] == y;
    }
  }

  method InSlot(slot: seq<string>, s: string) returns (found: bool)
    ensures found <==> s in slot
  {
    for i := 0 to |slot|
      invariant s !in slot[..i]
    {
      if |slot[i]| == |s| && slot[i] == s { return true; }
    }
    assert slot[..|slot|] == slot;
    return false;
  }

  /** Look for x + suffix in its slot; file it when it is not there. */
  method FileName(table: seq<seq<string>>, size: nat, ghost names: seq<string>, suffix: string, k: nat, x: string)
    returns (free: bool, after: seq<seq<string>>)
    requires size > 0 && table == TableOf(size, names, suffix) && k == Slot(HashOf(x), size)
    ensures free <==> x !in names
    ensures after == TableOf(size, if free then names + [x] else names, suffix)
  {
    TableLookup(size, names, suffix, x, |names|);
    TableSnoc(size, names, suffix, x);
    var found := InSlot(table[k], x + suffix);
    return !found, if found then table else Put(table, k, x + suffix);
  }

  // ----- ngx_hash_keys_arrays_t

  /** ngx_hash_strlow on data[from..to], in place: fold and hash. */
  method StrLow(data: array<char>, from: nat, to: nat) returns (key: nat)
    requires from <= to <= data.Length
    modifies data
    ensures forall j :: 0 <= j < data.Length ==>
                          data[j] == if from <= j < to then LowerChar(old(data[j])) else old(data[j])
    ensures key == HashOf(Lower(old(data[from..to])))
  {
    hide HashStep, HashRange, LowerChar;
    key := 0;
    ghost var low := Lower(data[from..to]);
    HashNone(low);
    for i := from to to
      invariant forall j :: 0 <= j < data.Length ==>
        data[j] == if from <= j < i then LowerChar(old(data[j])) else old(data[j])
      invariant key == HashRange(low, 0, i - from)
    {
      data[i] := LowerChar(data[i]);
      assert data[i] == low[i - from];
      HashNext(low, i - from);
      key := HashStep(key, data[i]);
    }
  }

  lemma HashNone(s: string)
    ensures HashRange(s, 0, 0) == 0
  {
  }

  lemma HashNext(s: string, n: nat)
    requires n < |s|
    ensures HashRange(s, 0, n + 1) == HashStep(HashRange(s, 0, n), s[n])
  {
  }

  /** The folding of a name whose first characters are no letters. */
  method LowerFrom(key: array<char>, skip: nat) returns (k: nat)
    requires skip <= key.Length && forall j :: 0 <= j < skip ==> LowerChar(key[j]) == key[j]
    modifies key
    ensures key[..] == Lower(old(key[..])) && key[skip..] == Lower(old(key[skip..]))
    ensures k == HashOf(key[skip..])
  {
    ghost var text := key[skip..];
    assert key[skip..key.Length] == text;
    k := StrLow(key, skip, key.Length);
    assert key[skip..] == Lower(text);
  }

  class HashKeysArrays {
    const hsize: nat
    var keys: seq<HashKey>
    var heads: seq<WKey>
    var tails: seq<WKey>
    var keysHash: seq<seq<string>>
    var headHash: seq<seq<string>>
    var tailHash: seq<seq<string>>
    ghost var st: Names

    ghost predicate Valid()
      reads this
    {
      hsize > 0 && keysHash == TableOf(hsize, st.reserved, "") && headHash == TableOf(hsize, st.heads, "") &&
      tailHash == TableOf(hsize, st.tails, [DOT]) &&
      keys == KeysOf(st.log) && heads == HeadsOf(st.log) && tails == TailsOf(st.log)
    }

    /** ngx_hash_keys_array_init. */
    constructor (hsize: nat)
      requires hsize > 0
      ensures Valid() && st == NoNames
    {
      this.hsize := hsize;
      keys, heads, tails := [], [], [];
      keysHash := seq(hsize, _ => []);
      headHash := seq(hsize, _ => []);
      tailHash := seq(hsize, _ => []);
      st := NoNames;
    }

    /** The part behind "exact hash". */
    method AddExact(k: nat, x: string, value: Word) returns (rc: Code)
      requires Valid() && k == Slot(HashOf(x), hsize)
      modifies this
      ensures Valid() && (st, rc) == Add(old(st), Exact(x), value)
    {
      ghost var next := Add(st, Exact(x), value);
      var free, table := FileName(keysHash, hsize, st.reserved, "", k, x);
      if !free { return BUSY; }
      keysHash := table;
      keys := keys + [HashKey(true, x, HashOf(x), value)];
      LogExact(st.log, x, value);
      st := next.0;
      return OK;
    }

    /** File an exact name as taken. */
    method Reserve(k: nat, x: string) returns (free: bool)
      requires Valid() && k == Slot(HashOf(x), hsize)
      modifies this`keysHash, this`st
      ensures Valid() && (free <==> x !in old(st).reserved)
      ensures st == if free then old(st).(reserved := old(st).reserved + [x]) else old(st)
    {
      var table;
      free, table := FileName(keysHash, hsize, st.reserved, "", k, x);
      keysHash := table;
      if free { st := st.(reserved := st.reserved + [x]); }
    }

    /** File a head wildcard and store its converted key `p`. */
    method FileHead(k: nat, x: string, star: bool, p: string, value: Word) returns (rc: Code)
      requires Valid() && k == Slot(HashOf(x), hsize) && p == HeadKey(x, star)
      modifies this`headHash, this`heads, this`st
      ensures Valid() && (st, rc) == AddHead(old(st), HeadForm(x, star), value)
    {
      ghost var next := AddHead(st, HeadForm(x, star), value);
      var free, table := FileName(headHash, hsize, st.heads, "", k, x);
      if !free { return BUSY; }
      headHash := table;
      heads := heads + [WKey(p, value)];
      LogHead(st.log, x, star, value);
      st := next.0;
      return OK;
    }

    /** The wildcard part for a head pattern; ".x" also takes the exact name x. */
    method AddHeadForm(k: nat, x: string, star: bool, p: string, value: Word) returns (rc: Code)
      requires Valid() && k == Slot(HashOf(x), hsize) && p == HeadKey(x, star)
      modifies this
      ensures Valid() && (st, rc) == Add(old(st), HeadForm(x, star), value)
    {
      hide HashKeysArrays.Valid;
      hide HeadKey, HashOf;
      if !star {
        var free := Reserve(k, x);
        if !free { return BUSY; }
      }
      rc := FileHead(k, x, star, p, value);
    }

    method AddTail(k: nat, x: string, value: Word) returns (rc: Code)
      requires Valid() && k == Slot(HashOf(x), hsize)
      modifies this
      ensures Valid() && (st, rc) == Add(old(st), TailOf(x), value)
    {
      ghost var next := Add(st, TailOf(x), value);
      var free, table := FileName(tailHash, hsize, st.tails, [DOT], k, x);
      if !free { return BUSY; }
      tailHash := table;
      tails := tails + [WKey(x, value)];
      LogTail(st.log, x, value);
      st := next.0;
      return OK;
    }

    /** ngx_hash_add_key. */
    method AddKey(key: array<char>, value: Word, wildcard: bool, readonly: bool) returns (rc: Code)
      requires Valid()
      modifies this, key
      ensures Valid()
      ensures (st, rc) == Add(old(st), LowerForm(Classify(old(key[..]), wildcard), readonly), value)
      ensures var f := Classify(old(key[..]), wildcard);
              key[..] == if f.Invalid? || (f.Exact? && readonly) then old(key[..]) else Lower(old(key[..]))
    {
      AddInvalid(st, value);
      hide HashKeysArrays.Valid;
      hide Add, Lower;
      var len := key.Length;
      if wildcard {
        var bad, n := ScanStars(key[..]);
        if bad { return DECLINED; }
        if len > 1 && key[0] == DOT {
          rc := AddHeadKey(key, 1, value);
          return;
        }
        if len > 2 {
          if key[0] == '*' && key[1] == DOT {
            rc := AddHeadKey(key, 2, value);
            return;
          }
          if key[len - 2] == DOT && key[len - 1] == '*' {
            rc := AddTailKey(key, value);
            return;
          }
        }
        if n > 0 { return DECLINED; }
      }
      rc := AddExactKey(key, readonly, value);
    }

    method AddExactKey(key: array<char>, readonly: bool, value: Word) returns (rc: Code)
      requires Valid()
      modifies this, key
      ensures Valid() && key[..] == if readonly then old(key[..]) else Lower(old(key[..]))
      ensures (st, rc) == Add(old(st), Exact(key[..]), value)
    {
      var k;
      if readonly {
        k := HashText(key[..]);
      } else {
        k := StrLow(key, 0, key.Length);
        assert old(key[0..key.Length]) == old(key[..]);
        assert key[..] == Lower(old(key[..]));
      }
      SlotIsMod(k, hsize);
      rc := AddExact(k % hsize, key[..], value);
    }

    method AddTailKey(key: array<char>, value: Word) returns (rc: Code)
      requires Valid() && key.Length > 2 && key[key.Length - 2] == DOT && key[key.Length - 1] == '*'
      modifies this, key
      ensures Valid() && key[..] == Lower(old(key[..]))
      ensures (st, rc) == Add(old(st), TailOf(Lower(old(key[..key.Length - 2]))), value)
    {
      var n := key.Length - 2;
      ghost var text := key[..n];
      assert key[0..n] == text;
      var k := StrLow(key, 0, n);
      assert key[..] == Lower(old(key[..]));
      var x := key[..n];
      assert x == Lower(text);
      SlotIsMod(k, hsize);
      rc := AddTail(k % hsize, x, value);
    }

    method AddHeadKey(key: array<char>, skip: nat, value: Word) returns (rc: Code)
      requires Valid() && key.Length > skip
      requires (skip == 1 && key[0] == DOT) || (skip == 2 && key[0] == '*' && key[1] == DOT)
      modifies this, key
      ensures Valid() && key[..] == Lower(old(key[..]))
      ensures (st, rc) == Add(old(st), HeadForm(Lower(old(key[skip..])), skip == 2), value)
    {
      assert hsize > 0;
      hide HashKeysArrays.Valid;
      hide Add, HeadKey, HashOf;
      var k := LowerFrom(key, skip);
      var x := key[skip..];
      var p := new char[key.Length];
      assert key[..][skip..] == x;
      var n := ReverseInto(key[..], p);
      SlotIsMod(k, hsize);
      rc := AddHeadForm(k % hsize, x, skip == 2, p[..n], value);
    }
  }

  /** ngx_hash over a text that is left as it is. */
  method HashText(s: string) returns (key: nat)
    ensures key == HashOf(s)
  {
    key := 0;
    for i := 0 to |s|
      invariant key == HashRange(s, 0, i)
    {
      key := HashStep(key, s[i]);
    }
  }
}
