/** The flat hash table of ngx_hash.c: ngx_hash_init packs every bucket into one
    byte-addressed block, ngx_hash_find walks it. */
module HashLayout {
  import opened Common
  import opened Text

  /** A machine word that holds a pointer; 0 is NULL. */
  type Word = nat

  const NULL: Word := 0
  const PTR: nat := 8
  const USHORT: nat := 0x1_0000

  /** ngx_hash_key_t.  `live` is false when key.data is NULL (a deleted key). */
  datatype HashKey = HashKey(live: bool, name: string, hash: nat, value: Word)

  /** One byte of the element block.  A pointer or a u_short occupies its first
      byte with its value and the following bytes with `Tail`, so that any
      overlapping store destroys it. */
  datatype Cell = Junk | Ptr(word: Word) | Short(n: nat) | Tail | Ch(c: char)

  datatype Bucket = Empty | At(offset: nat)

  datatype Table = Table(size: nat, buckets: seq<Bucket>, mem: seq<Cell>)

  /** ngx_align(d, a): the least multiple of `a` that is not below `d`. */
  function Align(d: nat, a: nat): (r: nat)
    requires a > 0
    ensures d <= r < d + a
  {
    if d == 0 then 0 else if d <= a then a else a + Align(d - a, a)
  }

  lemma {:induction false} AlignIsRounding(d: nat, a: nat)
    requires a > 0
    ensures exists k: nat :: Align(d, a) == k * a
  {
    if d == 0 {
      assert Align(d, a) == 0 * a;
    } else if d <= a {
      assert Align(d, a) == 1 * a;
    } else {
      AlignIsRounding(d - a, a);
      var k: nat :| Align(d - a, a) == k * a;
      assert Align(d, a) == (k + 1) * a;
    }
  }

  /** So it is a multiple of the pointer size if the alignment is one. */
  lemma AlignMultiple(d: nat, a: nat)
    requires a > 0 && a % PTR == 0
    ensures Align(d, a) % PTR == 0
  {
    AlignIsRounding(d, a);
    var k: nat :| Align(d, a) == k * a;
    MultipleOf(k, a / PTR);
  }

  lemma MultipleOf(k: nat, m: nat)
    ensures k * (PTR * m) % PTR == 0
  {
    assert k * (PTR * m) == PTR * (k * m);
  }

  lemma {:induction false} Align8Shift(k: nat, d: nat)
    requires d > 0
    ensures Align(8 * k + d, 8) == 8 * k + Align(d, 8)
  {
    if k > 0 {
      Align8Shift(k - 1, d);
      assert 8 * k + d - 8 == 8 * (k - 1) + d;
    }
  }

  /** The cache line is a multiple of the pointer size. */
  predicate Alignment(a: nat) {
    a > 0 && a % 8 == 0 && a <= USHORT / 2
  }

  /** The bucket of a hash value, `hash % size`. */
  function Slot(hash: nat, size: nat): (r: nat)
    requires size > 0
    ensures r < size
  {
    if hash < size then hash else Slot(hash - size, size)
  }

  lemma {:induction false} SlotIsMod(hash: nat, size: nat)
    requires size > 0
    ensures Slot(hash, size) == hash % size
  {
    if hash >= size {
      SlotIsMod(hash - size, size);
      ModSub(hash, size);
    }
  }

  /** NGX_HASH_ELT_SIZE. */
  function EltSize(len: nat): (r: nat)
    ensures r >= 16 && len + 10 <= r < len + 18 && r % PTR == 0
  {
    AlignMultiple(len + 2, PTR);
    PTR + Align(len + 2, PTR)
  }

  predicate InBucket(k: HashKey, size: nat, b: nat)
    requires size > 0
  {
    k.live && Slot(k.hash, size) == b
  }

  /** Bytes that the first `n` names put into bucket `b`. */
  function Load(names: seq<HashKey>, size: nat, b: nat, n: nat): nat
    requires size > 0 && n <= |names|
  {
    if n == 0 then 0
    else Load(names, size, b, n - 1) + if InBucket(names[n - 1], size, b) then EltSize(|names[n - 1].name|) else 0
  }

  lemma {:induction false} LoadMono(names: seq<HashKey>, size: nat, b: nat, m: nat, n: nat)
    requires size > 0 && m <= n <= |names|
    ensures Load(names, size, b, m) <= Load(names, size, b, n)
    ensures m < n && InBucket(names[m], size, b) ==>
              Load(names, size, b, m) + EltSize(|names[m].name|) <= Load(names, size, b, n)
  {
    if m < n { LoadMono(names, size, b, m, n - 1); }
  }

  // ----- choosing the number of buckets

  /** The u_short test that one pass of the size search applies to every name. */
  ghost predicate PassOk(names: seq<HashKey>, size: nat, bucketSize: nat)
    requires size > 0 && bucketSize >= PTR
  {
    forall n :: 0 <= n < |names| && names[n].live ==> PassOkAt(names, size, bucketSize, n)
  }

  ghost predicate PassOkAt(names: seq<HashKey>, size: nat, bucketSize: nat, n: nat)
    requires size > 0 && bucketSize >= PTR && n < |names|
  {
    Load(names, size, Slot(names[n].hash, size), n + 1) % USHORT <= (bucketSize - PTR) % USHORT
  }

  /** What the test is meant to say: every bucket and its terminator fit. */
  ghost predicate Fits(names: seq<HashKey>, size: nat, bucketSize: nat)
    requires size > 0
  {
    forall b :: 0 <= b < size ==> Load(names, size, b, |names|) + PTR <= bucketSize
  }

  ghost predicate NamesFit(names: seq<HashKey>, bucketSize: nat) {
    forall n :: 0 <= n < |names| ==> EltSize(|names[n].name|) + PTR <= bucketSize
  }

  function Start(nelts: nat, bucketSize: nat, maxSize: nat): nat
    requires bucketSize >= 24
  {
    if maxSize > 10000 && nelts > 0 && maxSize / nelts < 100 then maxSize - 1000
    else if nelts / ((bucketSize - PTR) / (2 * PTR)) > 0 then nelts / ((bucketSize - PTR) / (2 * PTR)) else 1
  }

  /** How many of the first n names are in the buckets before b. */
  ghost function InBelow(names: seq<HashKey>, size: nat, b: nat, n: nat): nat
    requires size > 0 && n <= |names|
  {
    if n == 0 then 0
    else InBelow(names, size, b, n - 1) + if names[n - 1].live && Slot(names[n - 1].hash, size) < b then 1 else 0
  }

  lemma {:induction false} BelowStep(names: seq<HashKey>, size: nat, b: nat, n: nat)
    requires size > 0 && n <= |names|
    ensures 16 * InBelow(names, size, b + 1, n) <= 16 * InBelow(names, size, b, n) + Load(names, size, b, n)
  {
    if n > 0 { BelowStep(names, size, b, n - 1); }
  }

  lemma {:induction false} BelowNone(names: seq<HashKey>, size: nat, n: nat)
    requires size > 0 && n <= |names|
    ensures InBelow(names, size, 0, n) == 0
  {
    if n > 0 { BelowNone(names, size, n - 1); }
  }

  lemma {:induction false} BelowAll(names: seq<HashKey>, size: nat, n: nat)
    requires size > 0 && n <= |names| && forall i :: 0 <= i < |names| ==> names[i].live
    ensures InBelow(names, size, size, n) == n
  {
    if n > 0 { BelowAll(names, size, n - 1); }
  }

  lemma Sixteenth(x: nat, y: nat, load: nat, room: nat)
    requires 16 * x <= 16 * y + load && load <= room
    ensures x <= y + room / 16
  {
  }

  lemma {:induction false} BelowBound(names: seq<HashKey>, size: nat, bucketSize: nat, b: nat)
    requires size > 0 && bucketSize >= 24 && b <= size && Fits(names, size, bucketSize)
    ensures InBelow(names, size, b, |names|) <= b * ((bucketSize - PTR) / 16)
  {
    hide InBelow, Load, Fits;
    var q := (bucketSize - PTR) / 16;
    if b == 0 {
      BelowNone(names, size, |names|);
    } else {
      BelowBound(names, size, bucketSize, b - 1);
      BelowStep(names, size, b - 1, |names|);
      OneFits(names, size, bucketSize, b - 1);
      Sixteenth(InBelow(names, size, b, |names|), InBelow(names, size, b - 1, |names|),
                Load(names, size, b - 1, |names|), bucketSize - PTR);
      OneMore(b, q);
    }
  }

  lemma OneMore(b: nat, q: nat)
    requires b > 0
    ensures b * q == (b - 1) * q + q
  {
  }

  lemma OneFits(names: seq<HashKey>, size: nat, bucketSize: nat, b: nat)
    requires b < size && Fits(names, size, bucketSize)
    ensures Load(names, size, b, |names|) + PTR <= bucketSize
  {
  }

  /** The search misses nothing by where it starts: with fewer buckets the names cannot fit. Only for very large limits
      does it start later. */
  lemma StartMisses(names: seq<HashKey>, bucketSize: nat, maxSize: nat, size: nat)
    requires bucketSize >= 24 && 0 < size < Start(|names|, bucketSize, maxSize)
    requires forall i :: 0 <= i < |names| ==> names[i].live
    requires maxSize <= 10000 || |names| == 0 || maxSize / |names| >= 100
    ensures !Fits(names, size, bucketSize)
  {
    var q := (bucketSize - PTR) / 16;
    if Fits(names, size, bucketSize) {
      BelowBound(names, size, bucketSize, size);
      BelowAll(names, size, |names|);
      NotEnough(|names|, q, size);
    }
  }

  lemma NotEnough(n: nat, q: nat, size: nat)
    requires q > 0 && size < n / q
    ensures size * q < n
  {
    var d := n / q;
    assert d * q <= n;
    assert (size + 1) * q <= d * q by { Monotone(size + 1, d, q); }
    assert (size + 1) * q == size * q + q;
  }

  lemma {:induction false} Monotone(a: nat, b: nat, q: nat)
    requires a <= b
    ensures a * q <= b * q
  {
    if a < b {
      Monotone(a, b - 1, q);
      assert b * q == (b - 1) * q + q;
    }
  }

  /** The size that the search settles on, and whether it was found. */
  ghost predicate IsChosen(names: seq<HashKey>, bucketSize: nat, maxSize: nat, size: nat, found: bool)
    requires bucketSize >= 24 && maxSize > 0
  {
    var start := Start(|names|, bucketSize, maxSize);
    (forall s :: start <= s <= maxSize && s > 0 && s < (if found then size else maxSize + 1) ==>
       !PassOk(names, s, bucketSize)) &&
    if found then 0 < size && start <= size <= maxSize && PassOk(names, size, bucketSize) else size == maxSize
  }

  method ChooseSize(names: seq<HashKey>, bucketSize: nat, maxSize: nat) returns (size: nat, found: bool)
    requires bucketSize >= 24 && maxSize > 0
    ensures IsChosen(names, bucketSize, maxSize, size, found)
  {
    var start := Start(|names|, bucketSize, maxSize);
    size := start;
    while size <= maxSize
      invariant start <= size && size > 0
      invariant forall s :: start <= s < size && s <= maxSize && s > 0 ==> !PassOk(names, s, bucketSize)
    {
      var ok := TryPass(names, size, bucketSize);
      if ok { return size, true; }
      size := size + 1;
    }
    return maxSize, false;
  }

  /** Wrapping at every step is wrapping once. */
  lemma WrapStep(load: nat, elt: nat)
    ensures (load % USHORT + elt) % USHORT == (load + elt) % USHORT
  {}

  method TryPass(names: seq<HashKey>, size: nat, bucketSize: nat) returns (ok: bool)
    requires size > 0 && bucketSize >= 24
    ensures ok <==> PassOk(names, size, bucketSize)
  {
    var test := new nat[size](_ => 0);
    for n := 0 to |names|
      invariant forall b :: 0 <= b < size ==> test[b] == Load(names, size, b, n) % USHORT
      invariant forall m :: 0 <= m < n && names[m].live ==> PassOkAt(names, size, bucketSize, m)
    {
      if !names[n].live { continue; }
      var key := names[n].hash % size;
      SlotIsMod(names[n].hash, size);
      WrapStep(Load(names, size, key, n), EltSize(|names[n].name|));
      var sum := (test[key] + EltSize(|names[n].name|)) % USHORT;
      assert sum == Load(names, size, key, n + 1) % USHORT;
      test[key] := sum;
      if test[key] > (bucketSize - PTR) % USHORT {
        assert !PassOkAt(names, size, bucketSize, n);
        return false;
      }
    }
    return true;
  }

  /** Below this bucket size the u_short test means what it says. */
  const SAFE: nat := USHORT / 2 + PTR

  lemma {:induction false} PassMeansFits(names: seq<HashKey>, size: nat, bucketSize: nat)
    requires size > 0 && PTR <= bucketSize < SAFE && NamesFit(names, bucketSize)
    ensures PassOk(names, size, bucketSize) <==> Fits(names, size, bucketSize)
  {
    if PassOk(names, size, bucketSize) {
      forall b | 0 <= b < size
        ensures Load(names, size, b, |names|) + PTR <= bucketSize
      {
        PassBounds(names, size, bucketSize, b, |names|);
      }
    }
    if Fits(names, size, bucketSize) {
      forall n | 0 <= n < |names| && names[n].live
        ensures PassOkAt(names, size, bucketSize, n)
      {
        FitsPasses(names, size, bucketSize, n);
      }
    }
  }

  lemma FitsPasses(names: seq<HashKey>, size: nat, bucketSize: nat, n: nat)
    requires size > 0 && PTR <= bucketSize < SAFE && Fits(names, size, bucketSize)
    requires n < |names| && names[n].live
    ensures PassOkAt(names, size, bucketSize, n)
  {
    var b := Slot(names[n].hash, size);
    assert Load(names, size, b, |names|) + PTR <= bucketSize;
    LoadMono(names, size, b, n + 1, |names|);
  }

  /** Both sums are multiples of the pointer size, and so below half of the u_short range. */
  lemma NoWrap(load: nat, elt: nat, bucketSize: nat)
    requires load % PTR == 0 && elt % PTR == 0
    requires load + PTR <= bucketSize && elt + PTR <= bucketSize < SAFE
    requires (load + elt) % USHORT <= (bucketSize - PTR) % USHORT
    ensures load + elt + PTR <= bucketSize
  {}

  lemma {:induction false} PassBounds(names: seq<HashKey>, size: nat, bucketSize: nat, b: nat, n: nat)
    requires size > 0 && PTR <= bucketSize < SAFE && NamesFit(names, bucketSize)
    requires PassOk(names, size, bucketSize) && n <= |names|
    ensures Load(names, size, b, n) + PTR <= bucketSize
  {
    if n > 0 {
      PassBounds(names, size, bucketSize, b, n - 1);
      if InBucket(names[n - 1], size, b) {
        assert PassOkAt(names, size, bucketSize, n - 1);
        LoadAligned(names, size, b, n - 1);
        NoWrap(Load(names, size, b, n - 1), EltSize(|names[n - 1].name|), bucketSize);
      }
    }
  }

  /** Does the test accept exactly the sizes for which all buckets fit, whatever the names are? */
  ghost predicate TestMeansFits(bucketSize: nat)
    requires bucketSize >= PTR
  {
    forall names: seq<HashKey>, size: nat :: size > 0 && NamesFit(names, bucketSize) ==>
      (PassOk(names, size, bucketSize) <==> Fits(names, size, bucketSize))
  }

  /** A name whose element takes `elt` bytes. */
  function LongKey(elt: nat): HashKey
    requires elt >= 16
  {
    HashKey(true, seq(elt - 10, _ => 'a'), 0, NULL)
  }

  lemma LongKeySize(elt: nat)
    requires elt >= 16 && elt % PTR == 0
    ensures EltSize(|LongKey(elt).name|) == elt
  {
  }

  lemma OneLoad(k: HashKey)
    requires k.live
    ensures Load([k], 1, 0, 1) == EltSize(|k.name|) && Slot(k.hash, 1) == 0
  {
    assert Load([k], 1, 0, 0) == 0;
    assert InBucket(k, 1, 0);
  }

  lemma TwoLoads(k: HashKey)
    requires k.live
    ensures Load([k, k], 1, 0, 1) == EltSize(|k.name|) && Load([k, k], 1, 0, 2) == 2 * EltSize(|k.name|)
    ensures Slot(k.hash, 1) == 0
  {
    assert Load([k, k], 1, 0, 0) == 0;
    assert InBucket(k, 1, 0);
  }

  /** One name in one bucket that fits, and is refused because the limit has wrapped. */
  lemma OneRefused(bucketSize: nat, elt: nat)
    requires elt >= 16 && elt % PTR == 0 && (bucketSize - PTR) % USHORT < elt < USHORT && elt + PTR <= bucketSize
    ensures NamesFit([LongKey(elt)], bucketSize) && Fits([LongKey(elt)], 1, bucketSize)
    ensures !PassOk([LongKey(elt)], 1, bucketSize)
  {
    LongKeySize(elt);
    OneLoad(LongKey(elt));
    assert !PassOkAt([LongKey(elt)], 1, bucketSize, 0);
  }

  /** Two equal names in one bucket that do not fit, and pass because the sum, or the limit, has wrapped. */
  lemma TwoPass(bucketSize: nat, elt: nat)
    requires elt >= 16 && elt % PTR == 0 && elt + PTR <= bucketSize < 2 * elt + PTR
    requires elt % USHORT <= (bucketSize - PTR) % USHORT && 2 * elt % USHORT <= (bucketSize - PTR) % USHORT
    ensures NamesFit([LongKey(elt), LongKey(elt)], bucketSize) && PassOk([LongKey(elt), LongKey(elt)], 1, bucketSize)
    ensures !Fits([LongKey(elt), LongKey(elt)], 1, bucketSize)
  {
    LongKeySize(elt);
    TwoLoads(LongKey(elt));
    var names := [LongKey(elt), LongKey(elt)];
    assert PassOkAt(names, 1, bucketSize, 0) && PassOkAt(names, 1, bucketSize, 1);
  }

  lemma TestFails(bucketSize: nat)
    requires bucketSize >= SAFE
    ensures !TestMeansFits(bucketSize)
  {
    if bucketSize - PTR < USHORT {
      SumWraps(bucketSize);
    } else if (bucketSize - PTR) % USHORT < USHORT - PTR {
      LimitWraps(bucketSize);
    } else {
      NoLimit(bucketSize);
    }
  }

  lemma SumWraps(bucketSize: nat)
    requires SAFE <= bucketSize < USHORT + PTR
    ensures !TestMeansFits(bucketSize)
  {
    TwoPass(bucketSize, USHORT / 2);
    hide PassOk, Fits;
    assert NamesFit([LongKey(USHORT / 2), LongKey(USHORT / 2)], bucketSize);
  }

  lemma LimitWraps(bucketSize: nat)
    requires bucketSize >= USHORT + PTR && (bucketSize - PTR) % USHORT < USHORT - PTR
    ensures !TestMeansFits(bucketSize)
  {
    var r := (bucketSize - PTR) % USHORT;
    var elt := if r < 16 then 16 + PTR else r - r % PTR + PTR;
    OneRefused(bucketSize, elt);
    hide PassOk, Fits;
    assert NamesFit([LongKey(elt)], bucketSize);
  }

  lemma NoLimit(bucketSize: nat)
    requires bucketSize >= USHORT + PTR && (bucketSize - PTR) % USHORT >= USHORT - PTR
    ensures !TestMeansFits(bucketSize)
  {
    var elt := Largest(bucketSize);
    TwoPass(bucketSize, elt);
    hide PassOk, Fits;
    assert NamesFit([LongKey(elt), LongKey(elt)], bucketSize);
  }

  /** The largest element that a bucket of this size holds beside its end. */
  lemma Largest(bucketSize: nat) returns (elt: nat)
    requires bucketSize >= USHORT + PTR
    ensures elt % PTR == 0 && 16 <= elt && elt + PTR <= bucketSize < 2 * elt + PTR
    ensures elt % USHORT <= USHORT - PTR && 2 * elt % USHORT <= USHORT - PTR
  {
    var q := (bucketSize - PTR) / PTR;
    elt := PTR * q;
    Multiples(q);
    Multiples(2 * q);
  }

  lemma Multiples(q: nat)
    ensures PTR * q % PTR == 0 && PTR * q % USHORT <= USHORT - PTR
  {
    var h, r := q / 8192, q % 8192;
    assert PTR * q == USHORT * h + PTR * r && PTR * r <= USHORT - PTR;
  }

  /** The test means what it says, for all names and sizes, exactly for bucket sizes below 32776. */
  lemma TestExact(bucketSize: nat)
    requires bucketSize >= PTR
    ensures TestMeansFits(bucketSize) <==> bucketSize < SAFE
  {
    if bucketSize < SAFE {
      forall names: seq<HashKey>, size: nat | size > 0 && NamesFit(names, bucketSize)
        ensures PassOk(names, size, bucketSize) <==> Fits(names, size, bucketSize)
      {
        PassMeansFits(names, size, bucketSize);
      }
    } else {
      TestFails(bucketSize);
    }
  }

  /** The size that the search is meant to settle on: the least one in range for which all buckets fit. */
  ghost predicate IsLeast(names: seq<HashKey>, bucketSize: nat, maxSize: nat, size: nat, found: bool)
    requires bucketSize >= 24 && maxSize > 0
  {
    var start := Start(|names|, bucketSize, maxSize);
    (forall s :: start <= s <= maxSize && s > 0 && s < (if found then size else maxSize + 1) ==>
       !Fits(names, s, bucketSize)) &&
    if found then 0 < size && start <= size <= maxSize && Fits(names, size, bucketSize) else size == maxSize
  }

  lemma ChosenIsLeast(names: seq<HashKey>, bucketSize: nat, maxSize: nat, size: nat, found: bool)
    requires 24 <= bucketSize < SAFE && maxSize > 0 && NamesFit(names, bucketSize)
    requires IsChosen(names, bucketSize, maxSize, size, found)
    ensures IsLeast(names, bucketSize, maxSize, size, found)
  {
    forall s: nat | 0 < s ensures PassOk(names, s, bucketSize) <==> Fits(names, s, bucketSize) {
      PassMeansFits(names, s, bucketSize);
    }
  }

  // ----- the layout

  /** Bytes that bucket `b` needs: its elements and the NULL word that ends it. */
  function Need(names: seq<HashKey>, size: nat, b: nat): nat
    requires size > 0
  {
    Load(names, size, b, |names|) + PTR
  }

  /** The reserved width of a bucket, as the u_short `test[i]` computes it. */
  function Width(names: seq<HashKey>, size: nat, b: nat, cacheline: nat): nat
    requires size > 0 && Alignment(cacheline)
  {
    if Need(names, size, b) % USHORT == PTR then 0
    else Align(Need(names, size, b) % USHORT, cacheline) % USHORT
  }

  /** The offset of bucket `b` in the element block. */
  function Offset(names: seq<HashKey>, size: nat, b: nat, cacheline: nat): nat
    requires size > 0 && Alignment(cacheline)
  {
    if b == 0 then 0 else Offset(names, size, b - 1, cacheline) + Width(names, size, b - 1, cacheline)
  }

  /** No bucket outgrows the u_short in which its width is kept. */
  ghost predicate LayoutFits(names: seq<HashKey>, size: nat, cacheline: nat)
    requires size > 0 && Alignment(cacheline)
  {
    forall b :: 0 <= b < size ==> BucketFits(names, size, b, cacheline)
  }

  ghost predicate BucketFits(names: seq<HashKey>, size: nat, b: nat, cacheline: nat)
    requires size > 0 && Alignment(cacheline)
  {
    Load(names, size, b, |names|) > 0 ==> Align(Need(names, size, b), cacheline) < USHORT
  }

  /** A bucket gets room for all its elements and its terminator exactly when its
      aligned size does not reach 64 KB. */
  lemma WidthSuffices(names: seq<HashKey>, size: nat, b: nat, cacheline: nat)
    requires size > 0 && Alignment(cacheline)
    requires Load(names, size, b, |names|) > 0
    ensures Need(names, size, b) <= Width(names, size, b, cacheline) <==> BucketFits(names, size, b, cacheline)
  {
    var need := Need(names, size, b);
    if need < USHORT {
      assert need % USHORT == need;
      var a := Align(need, cacheline);
      if a >= USHORT {
        assert a < 2 * USHORT;
        assert a % USHORT == a - USHORT;
      }
    }
  }

  /** An untouched counter marks exactly the empty buckets. */
  lemma EmptyWidth(names: seq<HashKey>, size: nat, b: nat, cacheline: nat)
    requires size > 0 && Alignment(cacheline) && BucketFits(names, size, b, cacheline)
    ensures Need(names, size, b) % USHORT == PTR <==> Load(names, size, b, |names|) == 0
  {}

  lemma {:induction false} OffsetMono(names: seq<HashKey>, size: nat, b: nat, c: nat, cacheline: nat)
    requires size > 0 && Alignment(cacheline) && b < c
    ensures Offset(names, size, b, cacheline) + Width(names, size, b, cacheline) <= Offset(names, size, c, cacheline)
  {
    if b + 1 < c { OffsetMono(names, size, b, c - 1, cacheline); }
  }

  /** The size found by the search never overruns; only the "could not build
      optimal" fallback can. */
  lemma FoundLayoutFits(names: seq<HashKey>, size: nat, bucketSize: nat, cacheline: nat)
    requires size > 0 && PTR <= bucketSize < SAFE && Alignment(cacheline)
    requires NamesFit(names, bucketSize) && PassOk(names, size, bucketSize)
    ensures LayoutFits(names, size, cacheline)
  {
    PassMeansFits(names, size, bucketSize);
    forall b | 0 <= b < size ensures BucketFits(names, size, b, cacheline) {
      assert Load(names, size, b, |names|) + PTR <= bucketSize;
      LoadAligned(names, size, b, |names|);
    }
  }

  // ----- filling the table

  /** The element of `k` occupies mem[o .. o + EltSize). */
  ghost predicate EltAt(mem: seq<Cell>, o: nat, k: HashKey) {
    o + EltSize(|k.name|) <= |mem| &&
    mem[o] == Ptr(k.value) && mem[o + PTR] == Short(|k.name|) &&
    forall i :: 0 <= i < |k.name| ==> mem[o + 10 + i] == Ch(LowerChar(k.name[i]))
  }

  /** A NULL value word ends the bucket. */
  ghost predicate EndAt(mem: seq<Cell>, o: nat) {
    o + PTR <= |mem| && mem[o] == Ptr(NULL)
  }

  /** Where ngx_hash_init puts the element of names[n]. */
  ghost function Pos(names: seq<HashKey>, size: nat, n: nat, cacheline: nat): nat
    requires size > 0 && Alignment(cacheline) && n < |names|
  {
    Offset(names, size, Slot(names[n].hash, size), cacheline) + Load(names, size, Slot(names[n].hash, size), n)
  }

  ghost function EndPos(names: seq<HashKey>, size: nat, b: nat, cacheline: nat): nat
    requires size > 0 && Alignment(cacheline)
  {
    Offset(names, size, b, cacheline) + Load(names, size, b, |names|)
  }

  ghost function HeadOf(names: seq<HashKey>, size: nat, b: nat, cacheline: nat): Bucket
    requires size > 0 && Alignment(cacheline)
  {
    if Load(names, size, b, |names|) == 0 then Empty else At(Offset(names, size, b, cacheline))
  }

  ghost predicate HeadsLaid(t: Table, names: seq<HashKey>, cacheline: nat)
    requires t.size > 0 && Alignment(cacheline)
  {
    |t.buckets| == t.size &&
    forall b :: 0 <= b < t.size ==> t.buckets[b] == HeadOf(names, t.size, b, cacheline)
  }

  ghost predicate EltsLaid(mem: seq<Cell>, names: seq<HashKey>, size: nat, n: nat, cacheline: nat)
    requires size > 0 && Alignment(cacheline) && n <= |names|
  {
    forall m :: 0 <= m < n && names[m].live ==> EltAt(mem, Pos(names, size, m, cacheline), names[m])
  }

  ghost predicate EndsLaid(mem: seq<Cell>, names: seq<HashKey>, size: nat, b: nat, cacheline: nat)
    requires size > 0 && Alignment(cacheline) && b <= size
  {
    forall c :: 0 <= c < b && Load(names, size, c, |names|) > 0 ==> EndAt(mem, EndPos(names, size, c, cacheline))
  }

  /** The table that ngx_hash_init leaves behind for `names`. */
  ghost predicate Laid(t: Table, names: seq<HashKey>, cacheline: nat) {
    t.size > 0 && Alignment(cacheline) && HeadsLaid(t, names, cacheline) &&
    EltsLaid(t.mem, names, t.size, |names|, cacheline) && EndsLaid(t.mem, names, t.size, t.size, cacheline)
  }

  /** Elements stay inside their bucket, in front of its terminator. */
  lemma EltInside(names: seq<HashKey>, size: nat, n: nat, cacheline: nat)
    requires size > 0 && Alignment(cacheline) && LayoutFits(names, size, cacheline)
    requires n < |names| && names[n].live
    ensures var b := Slot(names[n].hash, size);
            Load(names, size, b, |names|) > 0 &&
            Pos(names, size, n, cacheline) + EltSize(|names[n].name|) <= EndPos(names, size, b, cacheline) &&
            EndPos(names, size, b, cacheline) + PTR <=
              Offset(names, size, b, cacheline) + Width(names, size, b, cacheline) &&
            Offset(names, size, b, cacheline) + Width(names, size, b, cacheline) <= Offset(names, size, size, cacheline)
  {
    var b := Slot(names[n].hash, size);
    LoadMono(names, size, b, n, |names|);
    BucketInside(names, size, b, cacheline);
  }

  lemma BucketInside(names: seq<HashKey>, size: nat, b: nat, cacheline: nat)
    requires size > 0 && Alignment(cacheline) && LayoutFits(names, size, cacheline)
    requires b < size && Load(names, size, b, |names|) > 0
    ensures EndPos(names, size, b, cacheline) + PTR <=
            Offset(names, size, b, cacheline) + Width(names, size, b, cacheline)
    ensures Offset(names, size, b, cacheline) + Width(names, size, b, cacheline) <= Offset(names, size, size, cacheline)
  {
    assert BucketFits(names, size, b, cacheline);
    WidthSuffices(names, size, b, cacheline);
    OffsetMono(names, size, b, size, cacheline);
  }

  /** No two elements overlap, and no element overlaps a terminator. */
  lemma NoOverlap(names: seq<HashKey>, size: nat, m: nat, n: nat, cacheline: nat)
    requires size > 0 && Alignment(cacheline) && LayoutFits(names, size, cacheline)
    requires m < n < |names| && names[m].live && names[n].live
    ensures Pos(names, size, m, cacheline) + EltSize(|names[m].name|) <= Pos(names, size, n, cacheline) ||
            Pos(names, size, n, cacheline) + EltSize(|names[n].name|) <= Pos(names, size, m, cacheline)
  {
    var b, c := Slot(names[m].hash, size), Slot(names[n].hash, size);
    EltInside(names, size, m, cacheline);
    EltInside(names, size, n, cacheline);
    if b == c {
      LoadMono(names, size, b, m, n);
    } else if b < c {
      OffsetMono(names, size, b, c, cacheline);
    } else {
      OffsetMono(names, size, c, b, cacheline);
    }
  }

  lemma EndsApart(names: seq<HashKey>, size: nat, n: nat, b: nat, cacheline: nat)
    requires size > 0 && Alignment(cacheline) && LayoutFits(names, size, cacheline)
    requires n < |names| && names[n].live && b < size && Load(names, size, b, |names|) > 0
    ensures Pos(names, size, n, cacheline) + EltSize(|names[n].name|) <= EndPos(names, size, b, cacheline) ||
            EndPos(names, size, b, cacheline) + PTR <= Pos(names, size, n, cacheline)
  {
    var c := Slot(names[n].hash, size);
    EltInside(names, size, n, cacheline);
    BucketInside(names, size, b, cacheline);
    if c < b {
      OffsetMono(names, size, c, b, cacheline);
    } else if b < c {
      OffsetMono(names, size, b, c, cacheline);
    }
  }

  lemma EndsDistinct(names: seq<HashKey>, size: nat, b: nat, c: nat, cacheline: nat)
    requires size > 0 && Alignment(cacheline) && LayoutFits(names, size, cacheline)
    requires b < c < size && Load(names, size, b, |names|) > 0 && Load(names, size, c, |names|) > 0
    ensures EndPos(names, size, b, cacheline) + PTR <= EndPos(names, size, c, cacheline)
  {
    BucketInside(names, size, b, cacheline);
    OffsetMono(names, size, b, c, cacheline);
  }

  /** Equal outside [lo, hi). */
  ghost predicate SameOutside(a: seq<Cell>, b: seq<Cell>, lo: nat, hi: nat) {
    |a| == |b| && forall i :: 0 <= i < |a| && !(lo <= i < hi) ==> a[i] == b[i]
  }

  lemma EltKept(a: seq<Cell>, b: seq<Cell>, lo: nat, hi: nat, o: nat, k: HashKey)
    requires SameOutside(a, b, lo, hi) && EltAt(a, o, k)
    requires o + EltSize(|k.name|) <= lo || hi <= o
    ensures EltAt(b, o, k)
  {}

  method StoreWord(mem: array<Cell>, o: nat, w: Word)
    requires o + PTR <= mem.Length
    modifies mem
    ensures SameOutside(old(mem[..]), mem[..], o, o + PTR) && mem[o] == Ptr(w)
  {
    mem[o] := Ptr(w);
    for i := 1 to PTR
      invariant mem[o] == Ptr(w)
      invariant forall j :: 0 <= j < mem.Length && !(o <= j < o + PTR) ==> mem[j] == old(mem[j])
    {
      mem[o + i] := Tail;
    }
  }

  method StoreElt(mem: array<Cell>, o: nat, k: HashKey)
    requires o + EltSize(|k.name|) <= mem.Length
    modifies mem
    ensures SameOutside(old(mem[..]), mem[..], o, o + EltSize(|k.name|))
    ensures EltAt(mem[..], o, k)
  {
    StoreWord(mem, o, k.value);
    mem[o + PTR] := Short(|k.name|);
    mem[o + PTR + 1] := Tail;
    for i := 0 to |k.name|
      invariant mem[o] == Ptr(k.value) && mem[o + PTR] == Short(|k.name|)
      invariant forall j :: 0 <= j < i ==> mem[o + 10 + j] == Ch(LowerChar(k.name[j]))
      invariant forall j :: 0 <= j < mem.Length && !(o <= j < o + EltSize(|k.name|)) ==> mem[j] == old(mem[j])
    {
      mem[o + 10 + i] := Ch(LowerChar(k.name[i]));
    }
  }

  /** The `found:` part of ngx_hash_init: reserve the buckets, copy the names,
      terminate every bucket. */
  method Fill(names: seq<HashKey>, size: nat, cacheline: nat) returns (t: Table)
    requires size > 0 && Alignment(cacheline) && LayoutFits(names, size, cacheline)
    ensures t.size == size && Laid(t, names, cacheline)
  {
    var test := SumUp(names, size);
    var buckets, len := Reserve(names, size, cacheline, test);
    var mem := new Cell[len](_ => Junk);
    var ends := PutElts(mem, names, size, buckets, cacheline);
    PutEnds(mem, names, size, buckets, ends, cacheline);
    t := Table(size, buckets, mem[..]);
  }

  /** The byte sum of every bucket with its terminator, in u_short arithmetic. */
  method SumUp(names: seq<HashKey>, size: nat) returns (sums: seq<nat>)
    requires size > 0
    ensures |sums| == size && forall b :: 0 <= b < size ==> sums[b] == Need(names, size, b) % USHORT
  {
    var test := new nat[size](_ => PTR);
    for n := 0 to |names|
      invariant forall b :: 0 <= b < size ==> test[b] == (Load(names, size, b, n) + PTR) % USHORT
    {
      if !names[n].live { continue; }
      var key := names[n].hash % size;
      SlotIsMod(names[n].hash, size);
      WrapStep(Load(names, size, key, n) + PTR, EltSize(|names[n].name|));
      var sum := (test[key] + EltSize(|names[n].name|)) % USHORT;
      assert sum == (Load(names, size, key, n + 1) + PTR) % USHORT;
      test[key] := sum;
    }
    sums := test[..];
  }

  /** The bucket heads and the length of the element block. */
  method Reserve(names: seq<HashKey>, size: nat, cacheline: nat, test: seq<nat>)
    returns (buckets: seq<Bucket>, len: nat)
    requires size > 0 && Alignment(cacheline) && LayoutFits(names, size, cacheline)
    requires |test| == size && forall b :: 0 <= b < size ==> test[b] == Need(names, size, b) % USHORT
    ensures HeadsLaid(Table(size, buckets, []), names, cacheline)
    ensures len == Offset(names, size, size, cacheline)
  {
    buckets, len := [], 0;
    for b := 0 to size
      invariant |buckets| == b && len == Offset(names, size, b, cacheline)
      invariant forall c :: 0 <= c < b ==> buckets[c] == HeadOf(names, size, c, cacheline)
    {
      assert BucketFits(names, size, b, cacheline);
      EmptyWidth(names, size, b, cacheline);
      var head, width := Empty, 0;
      if test[b] != PTR {
        head, width := At(len), Align(test[b], cacheline) % USHORT;
      }
      assert head == HeadOf(names, size, b, cacheline) && width == Width(names, size, b, cacheline);
      buckets, len := buckets + [head], len + width;
    }
  }

  method PutElts(mem: array<Cell>, names: seq<HashKey>, size: nat, buckets: seq<Bucket>, cacheline: nat)
    returns (ends: seq<nat>)
    requires size > 0 && Alignment(cacheline) && LayoutFits(names, size, cacheline)
    requires HeadsLaid(Table(size, buckets, []), names, cacheline)
    requires mem.Length == Offset(names, size, size, cacheline)
    modifies mem
    ensures |ends| == size && forall b :: 0 <= b < size ==> ends[b] == Load(names, size, b, |names|)
    ensures EltsLaid(mem[..], names, size, |names|, cacheline)
  {
    var test := new nat[size](_ => 0);
    for n := 0 to |names|
      invariant forall b :: 0 <= b < size ==> test[b] == Load(names, size, b, n)
      invariant EltsLaid(mem[..], names, size, n, cacheline)
    {
      if !names[n].live { continue; }
      var key := names[n].hash % size;
      SlotIsMod(names[n].hash, size);
      PutElt(mem, buckets[key], test[key], names, size, n, cacheline);
      var sum := test[key] + EltSize(|names[n].name|);
      assert sum == Load(names, size, key, n + 1);
      test[key] := sum;
    }
    ends := test[..];
  }

  method PutElt(mem: array<Cell>, head: Bucket, fill: nat, names: seq<HashKey>, size: nat, n: nat, cacheline: nat)
    requires size > 0 && Alignment(cacheline) && LayoutFits(names, size, cacheline)
    requires n < |names| && names[n].live && head == HeadOf(names, size, Slot(names[n].hash, size), cacheline)
    requires fill == Load(names, size, Slot(names[n].hash, size), n)
    requires mem.Length == Offset(names, size, size, cacheline) && EltsLaid(mem[..], names, size, n, cacheline)
    modifies mem
    ensures EltsLaid(mem[..], names, size, n + 1, cacheline)
  {
    EltInside(names, size, n, cacheline);
    ghost var before := mem[..];
    StoreElt(mem, head.offset + fill, names[n]);
    EltsKept(before, mem[..], names, size, n, cacheline);
  }

  lemma EltsKept(a: seq<Cell>, b: seq<Cell>, names: seq<HashKey>, size: nat, n: nat, cacheline: nat)
    requires size > 0 && Alignment(cacheline) && LayoutFits(names, size, cacheline)
    requires n < |names| && names[n].live && EltsLaid(a, names, size, n, cacheline)
    requires SameOutside(a, b, Pos(names, size, n, cacheline),
                         Pos(names, size, n, cacheline) + EltSize(|names[n].name|))
    ensures EltsLaid(b, names, size, n, cacheline)
  {
    var lo := Pos(names, size, n, cacheline);
    forall m | 0 <= m < n && names[m].live
      ensures EltAt(b, Pos(names, size, m, cacheline), names[m])
    {
      NoOverlap(names, size, m, n, cacheline);
      EltKept(a, b, lo, lo + EltSize(|names[n].name|), Pos(names, size, m, cacheline), names[m]);
    }
  }

  method PutEnds(mem: array<Cell>, names: seq<HashKey>, size: nat, buckets: seq<Bucket>, ends: seq<nat>, cacheline: nat)
    requires size > 0 && Alignment(cacheline) && LayoutFits(names, size, cacheline)
    requires HeadsLaid(Table(size, buckets, []), names, cacheline)
    requires mem.Length == Offset(names, size, size, cacheline)
    requires EltsLaid(mem[..], names, size, |names|, cacheline)
    requires |ends| == size && forall b :: 0 <= b < size ==> ends[b] == Load(names, size, b, |names|)
    modifies mem
    ensures EltsLaid(mem[..], names, size, |names|, cacheline)
    ensures EndsLaid(mem[..], names, size, size, cacheline)
  {
    for b := 0 to size
      invariant EltsLaid(mem[..], names, size, |names|, cacheline)
      invariant EndsLaid(mem[..], names, size, b, cacheline)
    {
      if buckets[b] == Empty { continue; }
      BucketInside(names, size, b, cacheline);
      ghost var before := mem[..];
      StoreWord(mem, buckets[b].offset + ends[b], NULL);
      EndKept(before, mem[..], names, size, b, cacheline);
    }
  }

  lemma EndKept(a: seq<Cell>, z: seq<Cell>, names: seq<HashKey>, size: nat, b: nat, cacheline: nat)
    requires size > 0 && Alignment(cacheline) && LayoutFits(names, size, cacheline)
    requires b < size && Load(names, size, b, |names|) > 0
    requires EltsLaid(a, names, size, |names|, cacheline) && EndsLaid(a, names, size, b, cacheline)
    requires SameOutside(a, z, EndPos(names, size, b, cacheline), EndPos(names, size, b, cacheline) + PTR)
    ensures EltsLaid(z, names, size, |names|, cacheline) && EndsLaid(z, names, size, b, cacheline)
  {
    var lo := EndPos(names, size, b, cacheline);
    forall m | 0 <= m < |names| && names[m].live
      ensures EltAt(z, Pos(names, size, m, cacheline), names[m])
    {
      EndsApart(names, size, m, b, cacheline);
      EltKept(a, z, lo, lo + PTR, Pos(names, size, m, cacheline), names[m]);
    }
    forall c | 0 <= c < b && Load(names, size, c, |names|) > 0
      ensures EndAt(z, EndPos(names, size, c, cacheline))
    {
      EndsDistinct(names, size, c, b, cacheline);
    }
  }

  // ----- ngx_hash_init

  datatype Status = Ok | TooSmall | NoMemory | Overrun

  /** ngx_hash_init.  `memory` says whether the allocations succeed.  Overrun
      stands for the fallback case in which a bucket outgrows its u_short width and
      the C code would write past it; the model stops there. */
  method Init(names: seq<HashKey>, bucketSize: nat, maxSize: nat, cacheline: nat, memory: bool)
    returns (status: Status, t: Table)
    requires (names != [] || bucketSize >= 24) && maxSize > 0 && Alignment(cacheline)
    ensures status == TooSmall <==> !NamesFit(names, bucketSize)
    ensures status == NoMemory <==> NamesFit(names, bucketSize) && !memory
    ensures NamesFit(names, bucketSize) && memory ==>
              bucketSize >= 24 &&
              exists size, found :: IsChosen(names, bucketSize, maxSize, size, found) &&
                                    (bucketSize < SAFE ==> IsLeast(names, bucketSize, maxSize, size, found)) &&
                                    (bucketSize < SAFE && found ==> status == Ok) &&
                                    (status == Ok <==> LayoutFits(names, size, cacheline)) &&
                                    (status == Ok ==> t.size == size && Laid(t, names, cacheline))
  {
    t := Table(0, [], []);
    for n := 0 to |names|
      invariant forall m :: 0 <= m < n ==> EltSize(|names[m].name|) + PTR <= bucketSize
    {
      if bucketSize < EltSize(|names[n].name|) + PTR { return TooSmall, t; }
    }
    if |names| > 0 { assert bucketSize >= EltSize(|names[0].name|) + PTR; }
    if !memory { return NoMemory, t; }
    var size, found := ChooseSize(names, bucketSize, maxSize);
    if bucketSize < SAFE {
      ChosenIsLeast(names, bucketSize, maxSize, size, found);
      if found { FoundLayoutFits(names, size, bucketSize, cacheline); }
    }
    var fits := CheckLayout(names, size, cacheline);
    if !fits { return Overrun, t; }
    t := Fill(names, size, cacheline);
    status := Ok;
  }

  method CheckLayout(names: seq<HashKey>, size: nat, cacheline: nat) returns (fits: bool)
    requires size > 0 && Alignment(cacheline)
    ensures fits <==> LayoutFits(names, size, cacheline)
  {
    for b := 0 to size
      invariant forall c :: 0 <= c < b ==> BucketFits(names, size, c, cacheline)
    {
      var load := Load(names, size, b, |names|);
      if load > 0 && Align(load + PTR, cacheline) >= USHORT {
        assert !BucketFits(names, size, b, cacheline);
        return false;
      }
    }
    return true;
  }

  // ----- ngx_hash_find

  ghost predicate NameAt(mem: seq<Cell>, o: nat, q: string) {
    o + |q| <= |mem| && forall i :: 0 <= i < |q| ==> mem[o + i] == Ch(q[i])
  }

  /** From `o` on there is a chain of elements that ends in a NULL word. */
  ghost predicate Chain(mem: seq<Cell>, o: nat)
    decreases |mem| - o
  {
    o < |mem| && mem[o].Ptr? &&
    (mem[o].word != NULL ==>
       o + PTR < |mem| && mem[o + PTR].Short? && o + 10 + mem[o + PTR].n <= |mem| &&
       Chain(mem, Align(o + 10 + mem[o + PTR].n, PTR)))
  }

  /** The value that the chain at `o` gives to the name `q`. */
  ghost function Walk(mem: seq<Cell>, o: nat, q: string): Word
    requires Chain(mem, o)
    decreases |mem| - o
  {
    if mem[o].word == NULL then NULL
    else if mem[o + PTR].n == |q| && NameAt(mem, o + 10, q) then mem[o].word
    else Walk(mem, Align(o + 10 + mem[o + PTR].n, PTR), q)
  }

  ghost predicate WellFormed(t: Table) {
    t.size > 0 && |t.buckets| == t.size &&
    forall b :: 0 <= b < t.size && t.buckets[b].At? ==> Chain(t.mem, t.buckets[b].offset)
  }

  ghost function Lookup(t: Table, key: nat, q: string): Word
    requires WellFormed(t)
  {
    match t.buckets[Slot(key, t.size)]
    case Empty => NULL
    case At(o) => Walk(t.mem, o, q)
  }

  /** ngx_hash_find. */
  method Find(t: Table, key: nat, q: string) returns (value: Word)
    requires WellFormed(t)
    ensures value == Lookup(t, key, q)
  {
    var b := key % t.size;
    SlotIsMod(key, t.size);
    if t.buckets[b] == Empty { return NULL; }
    var o := t.buckets[b].offset;
    while t.mem[o].word != NULL
      invariant Chain(t.mem, o)
      invariant Walk(t.mem, o, q) == Lookup(t, key, q)
      decreases |t.mem| - o
    {
      var len := t.mem[o + PTR].n;
      var same := len == |q|;
      var i := 0;
      while same && i < |q|
        invariant same ==> len == |q| && i <= |q| && NameAt(t.mem, o + 10, q[..i])
        invariant !same ==> !(len == |q| && NameAt(t.mem, o + 10, q))
      {
        if t.mem[o + 10 + i] != Ch(q[i]) { same := false; }
        i := i + 1;
      }
      if same {
        assert q[..i] == q;
        return t.mem[o].word;
      }
      o := Align(o + 10 + len, PTR);
    }
    return NULL;
  }

  /** What a plain scan of one bucket's names, from index `n`, would return. */
  ghost function FirstIn(names: seq<HashKey>, size: nat, b: nat, q: string, n: nat): Word
    requires size > 0 && n <= |names|
    decreases |names| - n
  {
    if n == |names| then NULL
    else if InBucket(names[n], size, b) && Lower(names[n].name) == q then names[n].value
    else FirstIn(names, size, b, q, n + 1)
  }

  /** What a plain scan of all names would return. */
  ghost function First(names: seq<HashKey>, q: string, n: nat): Word
    requires n <= |names|
    decreases |names| - n
  {
    if n == |names| then NULL
    else if names[n].live && Lower(names[n].name) == q then names[n].value
    else First(names, q, n + 1)
  }

  ghost predicate ValuesSet(names: seq<HashKey>) {
    forall n :: 0 <= n < |names| && names[n].live ==> names[n].value != NULL
  }

  /** The stored hash is that of the folded name, as the callers compute it. */
  ghost predicate HashesAgree(names: seq<HashKey>) {
    forall n :: 0 <= n < |names| && names[n].live ==> names[n].hash == HashOf(Lower(names[n].name))
  }

  lemma {:induction false} LoadAligned(names: seq<HashKey>, size: nat, b: nat, n: nat)
    requires size > 0 && n <= |names|
    ensures Load(names, size, b, n) % 8 == 0
  {
    if n > 0 {
      LoadAligned(names, size, b, n - 1);
      SumAligned(Load(names, size, b, n - 1), EltSize(|names[n - 1].name|));
    }
  }

  lemma {:induction false} OffsetAligned(names: seq<HashKey>, size: nat, b: nat, cacheline: nat)
    requires size > 0 && Alignment(cacheline)
    ensures Offset(names, size, b, cacheline) % 8 == 0
  {
    if b > 0 {
      OffsetAligned(names, size, b - 1, cacheline);
      WidthAligned(names, size, b - 1, cacheline);
      SumAligned(Offset(names, size, b - 1, cacheline), Width(names, size, b - 1, cacheline));
    }
  }

  lemma SumAligned(x: nat, y: nat)
    requires x % 8 == 0 && y % 8 == 0
    ensures (x + y) % 8 == 0
  {}

  lemma WidthAligned(names: seq<HashKey>, size: nat, b: nat, cacheline: nat)
    requires size > 0 && Alignment(cacheline)
    ensures Width(names, size, b, cacheline) % 8 == 0
  {
    var a := Align(Need(names, size, b) % USHORT, cacheline);
    AlignMultiple(Need(names, size, b) % USHORT, cacheline);
    assert a < 2 * USHORT;
    assert a % USHORT == a || a % USHORT == a - USHORT;
  }

  /** The stride that ngx_hash_find recomputes is NGX_HASH_ELT_SIZE. */
  lemma Stride(o: nat, len: nat)
    requires o % 8 == 0
    ensures Align(o + 10 + len, PTR) == o + EltSize(len)
  {
    assert o + 10 + len == 8 * (o / 8 + 1) + (len + 2);
    Align8Shift(o / 8 + 1, len + 2);
  }

  lemma NameAtElt(mem: seq<Cell>, o: nat, k: HashKey, q: string)
    requires EltAt(mem, o, k)
    ensures |k.name| == |q| && NameAt(mem, o + 10, q) <==> Lower(k.name) == q
  {
    if |k.name| == |q| && NameAt(mem, o + 10, q) {
      forall i | 0 <= i < |q| ensures Lower(k.name)[i] == q[i] {
        assert mem[o + 10 + i] == Ch(q[i]);
      }
    }
  }

  lemma WalkElt(mem: seq<Cell>, o: nat, k: HashKey, q: string)
    requires EltAt(mem, o, k) && o % 8 == 0 && k.value != NULL && Chain(mem, o + EltSize(|k.name|))
    ensures Chain(mem, o)
    ensures Walk(mem, o, q) == if Lower(k.name) == q then k.value else Walk(mem, o + EltSize(|k.name|), q)
  {
    Stride(o, |k.name|);
    NameAtElt(mem, o, k, q);
  }

  lemma WalkEnd(mem: seq<Cell>, o: nat, q: string)
    requires EndAt(mem, o)
    ensures Chain(mem, o) && Walk(mem, o, q) == NULL
  {
  }

  lemma {:induction false} WalkFrom(mem: seq<Cell>, names: seq<HashKey>, size: nat, cacheline: nat, b: nat, n: nat,
                                    q: string)
    requires size > 0 && Alignment(cacheline) && ValuesSet(names) && b < size && n <= |names|
    requires EltsLaid(mem, names, size, |names|, cacheline) && EndAt(mem, EndPos(names, size, b, cacheline))
    ensures var o := Offset(names, size, b, cacheline) + Load(names, size, b, n);
            Chain(mem, o) && Walk(mem, o, q) == FirstIn(names, size, b, q, n)
    decreases |names| - n
  {
    hide Chain, Walk, EltAt, EndAt, EltSize;
    if n == |names| {
      WalkEnd(mem, EndPos(names, size, b, cacheline), q);
    } else {
      WalkFrom(mem, names, size, cacheline, b, n + 1, q);
      if InBucket(names[n], size, b) {
        var o := Offset(names, size, b, cacheline) + Load(names, size, b, n);
        assert EltAt(mem, Pos(names, size, n, cacheline), names[n]);
        OffsetAligned(names, size, b, cacheline);
        LoadAligned(names, size, b, n);
        WalkElt(mem, o, names[n], q);
      }
    }
  }

  lemma {:induction false} EmptyBucket(names: seq<HashKey>, size: nat, b: nat, n: nat, q: string)
    requires size > 0 && n <= |names| && Load(names, size, b, |names|) == 0
    ensures FirstIn(names, size, b, q, n) == NULL
    decreases |names| - n
  {
    if n < |names| {
      LoadMono(names, size, b, n, |names|);
      EmptyBucket(names, size, b, n + 1, q);
    }
  }

  lemma LaidLookup(t: Table, names: seq<HashKey>, cacheline: nat, key: nat, q: string)
    requires Laid(t, names, cacheline) && ValuesSet(names)
    ensures WellFormed(t) && Lookup(t, key, q) == FirstIn(names, t.size, Slot(key, t.size), q, 0)
  {
    forall b | 0 <= b < t.size && t.buckets[b].At? ensures Chain(t.mem, t.buckets[b].offset) {
      LaidBucket(t, names, cacheline, b, q);
    }
    LaidBucket(t, names, cacheline, Slot(key, t.size), q);
  }

  lemma LaidBucket(t: Table, names: seq<HashKey>, cacheline: nat, b: nat, q: string)
    requires Laid(t, names, cacheline) && ValuesSet(names) && b < t.size
    ensures t.buckets[b].At? ==> Chain(t.mem, t.buckets[b].offset)
    ensures FirstIn(names, t.size, b, q, 0) == if t.buckets[b].At? then Walk(t.mem, t.buckets[b].offset, q) else NULL
  {
    assert t.buckets[b] == HeadOf(names, t.size, b, cacheline);
    if Load(names, t.size, b, |names|) > 0 {
      assert EndAt(t.mem, EndPos(names, t.size, b, cacheline));
      WalkFrom(t.mem, names, t.size, cacheline, b, 0, q);
    } else {
      EmptyBucket(names, t.size, b, 0, q);
    }
  }

  lemma {:induction false} BucketScan(names: seq<HashKey>, size: nat, q: string, n: nat)
    requires size > 0 && n <= |names| && HashesAgree(names)
    ensures FirstIn(names, size, Slot(HashOf(q), size), q, n) == First(names, q, n)
    decreases |names| - n
  {
    if n < |names| { BucketScan(names, size, q, n + 1); }
  }

  /** ngx_hash_find on a table built by ngx_hash_init agrees with a scan of the names. */
  lemma FindIsScan(t: Table, names: seq<HashKey>, cacheline: nat, q: string)
    requires Laid(t, names, cacheline) && ValuesSet(names) && HashesAgree(names)
    ensures WellFormed(t) && Lookup(t, HashOf(q), q) == First(names, q, 0)
  {
    LaidLookup(t, names, cacheline, HashOf(q), q);
    BucketScan(names, t.size, q, 0);
  }

  /** The scan misses exactly the names that are not there. */
  lemma {:induction false} FirstNull(names: seq<HashKey>, q: string, n: nat)
    requires n <= |names| && ValuesSet(names)
    ensures First(names, q, n) == NULL <==>
            forall m :: n <= m < |names| && names[m].live ==> Lower(names[m].name) != q
    decreases |names| - n
  {
    if n < |names| { FirstNull(names, q, n + 1); }
  }
}
