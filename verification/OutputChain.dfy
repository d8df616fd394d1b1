/** The output chain: a pump that passes buffers on as they are or copies them, through a bounded pool of buffers. */
module OutputChain {
  import opened Common
  import opened Bufs
  import opened OutputState
  import opened OutputRecord

  datatype Result = Ok | Again | Error | Done

  datatype Copying = OneMore | PoolFull | Broken

  datatype Acquired = Taken(id: Id) | Full | Failed

  /** What the next filter can take, and what the copying needs to know. */
  datatype Settings = Settings(tag: int, num: nat, size: nat, alignment: nat,
                               sendfile: bool, needInMemory: bool, needInTemp: bool)

  predicate Sane(c: Settings) {
    c.size > 0 && c.alignment > 0
  }

  /** Must the buffer not be passed on as it is? */
  predicate MustCopy(c: Settings, b: Buf) {
    && !Special(b)
    && ((b.inFile && b.directio) || (!c.sendfile && !InMemory(b)) || (c.needInMemory && !InMemory(b))
        || (c.needInTemp && (b.memory || b.mmap)))
  }

  /** Decides whether a buffer can be passed on; without sendfile the file behind memory is forgotten. */
  method AsIs(ghost files: Files, c: Settings, b: Buf) returns (r: bool, b': Buf)
    requires GoodBuf(files, b) && Matched(b)
    ensures r <==> !MustCopy(c, b)
    ensures !r ==> MustCopy(c, b')
    ensures SameData(files, b, b') && b' == b.(inFile := b'.inFile)
    ensures r && !c.sendfile ==> !b'.inFile || Special(b)
    ensures b' == b || (InMemory(b) && !Special(b))
  {
    b' := b;
    if Special(b) { return true, b; }
    if b.inFile && b.directio { return false, b; }
    if !c.sendfile {
      if !InMemory(b) { return false, b; }
      b' := b.(inFile := false);
    }
    if c.needInMemory && !InMemory(b') { return false, b'; }
    if c.needInTemp && (b'.memory || b'.mmap) { return false, b'; }
    return true, b';
  }

  /** A new buffer over `size` bytes of memory. */
  function Temp(mem: seq<Byte>, tag: int, recycled: bool): Buf {
    Buf(mem, 0, 0, true, false, false, false, 0, 0, 0, false, false, false, false, false, tag, recycled)
  }

  /** The end of the last buffer of a chain gets a buffer of its own size, if that is smaller than usual or, with a pool
      of one buffer, little larger. */
  predicate SmallLast(b: Buf, bsize: nat, c: Settings, directio: bool) {
    b.lastInChain && (bsize < c.size || (!directio && c.num == 1 && bsize < c.size + c.size / 4))
  }

  /** How many bytes go in one fragment. */
  function Piece(src: Buf, dst: Buf): int {
    if Size(src) < |dst.mem| - dst.pos then Size(src) else |dst.mem| - dst.pos
  }

  /** The flags travel with the last fragment of a buffer; other fragments keep what the memory carried before. */
  function Flagged(src: Buf, dst: Buf, last: bool): Buf {
    if last then dst.(flush := src.flush, lastBuf := src.lastBuf, lastInChain := src.lastInChain) else dst
  }

  /** Puts `data` at the beginning of the memory. */
  function Fill(dst: Buf, data: seq<Byte>): Buf
    requires |data| <= |dst.mem|
  {
    dst.(mem := data + dst.mem[|data|..], last := |data|)
  }

  /** Where the fragment lies in the file, if the next filter may use that. */
  function Placed(src: Buf, d: Buf, n: nat, sendfile: bool): Buf {
    if src.inFile && sendfile
    then d.(inFile := true, file := src.file, filePos := src.filePos, fileLast := src.filePos + n)
    else d.(inFile := false)
  }

  /** The flags of the fragment: those of the buffer it is the end of, and otherwise the old ones of the memory. */
  predicate FlagsOf(d: Buf, b: Buf) {
    d.flush == b.flush && d.lastBuf == b.lastBuf && d.lastInChain == b.lastInChain
  }

  lemma FillIs(files: Files, dst: Buf, data: seq<Byte>)
    requires IdleBuf(files, dst) && 0 < |data| <= |dst.mem|
    ensures var d := Fill(dst, data);
      && PoolBuf(files, d) && Bytes(files, d) == data && d.pos == 0 && d.last == |data| && d.tag == dst.tag
      && FlagsOf(d, dst)
  {
    assert Fill(dst, data).mem[0..|data|] == data;
  }

  lemma PlacedIs(files: Files, src: Buf, d: Buf, n: nat, sendfile: bool)
    requires GoodBuf(files, src) && Matched(src) && 0 < n <= Size(src)
    requires PoolBuf(files, d) && d.pos == 0 && d.last == n
    ensures var e := Placed(src, d, n, sendfile);
      && PoolBuf(files, e) && Matched(e) && Bytes(files, e) == Bytes(files, d) && Size(e) == n && e.tag == d.tag
      && FlagsOf(e, d)
  {
  }

  lemma FlaggedIs(files: Files, src: Buf, d: Buf, last: bool)
    requires PoolBuf(files, d) && Matched(d)
    ensures var e := Flagged(src, d, last);
      && PoolBuf(files, e) && Matched(e) && Bytes(files, e) == Bytes(files, d) && Size(e) == Size(d) && e.tag == d.tag
      && FlagsOf(e, if last then src else d)
  {
  }

  /** The fragment: its bytes, its place, and the flags. */
  function Loaded(files: Files, sendfile: bool, src: Buf, dst: Buf): Buf
    requires GoodBuf(files, src) && IdleBuf(files, dst) && Size(src) > 0
  {
    var n := Piece(src, dst);
    Flagged(src, Placed(src, Fill(dst, Bytes(files, src)[..n]), n, sendfile), n == Size(src))
  }

  lemma {:induction false} LoadedBuf(files: Files, sendfile: bool, src: Buf, dst: Buf)
    requires GoodBuf(files, src) && Matched(src) && IdleBuf(files, dst) && Size(src) > 0
    ensures var d, n := Loaded(files, sendfile, src, dst), Piece(src, dst);
      && 0 < n <= Size(src) && PoolBuf(files, d) && Matched(d) && Bytes(files, d) == Bytes(files, src)[..n]
      && Size(d) == n && d.tag == dst.tag && FlagsOf(d, if n == Size(src) then src else dst)
  {
    var n := Piece(src, dst);
    var data := Bytes(files, src)[..n];
    FillIs(files, dst, data);
    var e := Fill(dst, data);
    PlacedIs(files, src, e, n, sendfile);
    var f := Placed(src, e, n, sendfile);
    FlaggedIs(files, src, f, n == Size(src));
    FlagsAlong(f, e, dst);
    hide Bytes, Fill, GoodBuf, InMemory, Matched, PoolBuf, Placed, Flagged, FlagsOf;
  }

  lemma FlagsAlong(a: Buf, b: Buf, c: Buf)
    requires FlagsOf(a, b) && FlagsOf(b, c)
    ensures FlagsOf(a, c) && forall d :: FlagsOf(d, a) ==> FlagsOf(d, c)
  {
  }

  /** A fragment `dst` has gone from `b` to the memory `mem`, and `src` is what is left of `b`. */
  predicate Copies(files: Files, b: Buf, mem: Buf, src: Buf, dst: Buf) {
    && Fragment(files, b, src, dst) && PoolBuf(files, dst) && dst.tag == mem.tag && 0 <= Size(src) < Size(b)
    && FlagsOf(dst, if Size(src) == 0 then b else mem) && FlagsOf(src, b) && src.tag == b.tag
    && !Special(b) && !Special(src)
    && Size(dst) == (if Size(b) < |mem.mem| then Size(b) else |mem.mem|)
    && (dst.inFile ==>
          b.inFile && dst.file == b.file && dst.filePos == b.filePos && dst.fileLast == b.filePos + Size(dst))
    && (b.inFile ==> src.filePos == b.filePos + Size(dst) && src.fileLast == b.fileLast)
  }

  /** A copied fragment is the first part of the buffer, and what is left is the rest. */
  lemma {:induction false} LoadedIs(files: Files, sendfile: bool, src: Buf, dst: Buf)
    requires GoodBuf(files, src) && Matched(src) && IdleBuf(files, dst) && Size(src) > 0
    ensures Copies(files, src, dst, Advanced(src, Piece(src, dst)), Loaded(files, sendfile, src, dst))
  {
    LoadedBuf(files, sendfile, src, dst);
    var n := Piece(src, dst);
    AdvancedBytes(files, src, n);
    AdvancedLeft(src, n, files);
    CutIs(Bytes(files, src), n);
    AdvancedFlags(src, n);
    HasData(files, src, n);
    LoadedWhere(files, sendfile, src, dst);
    hide Bytes, Loaded, Advanced, Matched, Size, Piece, FlagsOf, InMemory;
  }

  lemma LoadedWhere(files: Files, sendfile: bool, b: Buf, mem: Buf)
    requires GoodBuf(files, b) && Matched(b) && IdleBuf(files, mem) && Size(b) > 0
    ensures var n, d, src := Piece(b, mem), Loaded(files, sendfile, b, mem), Advanced(b, Piece(b, mem));
      && n == (if Size(b) < |mem.mem| then Size(b) else |mem.mem|)
      && (d.inFile <==> b.inFile && sendfile)
      && (d.inFile ==> d.file == b.file && d.filePos == b.filePos && d.fileLast == b.filePos + n)
      && (b.inFile ==> src.filePos == b.filePos + n && src.fileLast == b.fileLast)
  {
    hide Bytes, GoodBuf, Fill, Flagged, Placed, Matched;
    PlacedWhere(b, Fill(mem, Bytes(files, b)[..Piece(b, mem)]), Piece(b, mem), sendfile, Piece(b, mem) == Size(b))
      by { IdleFits(files, b, mem); }
    IdleFits(files, b, mem);
  }

  lemma IdleFits(files: Files, b: Buf, mem: Buf)
    requires GoodBuf(files, b) && IdleBuf(files, mem) && Size(b) > 0
    ensures mem.pos == 0 && 0 < Piece(b, mem) <= Size(b) && Piece(b, mem) <= |mem.mem|
  {
  }

  lemma PlacedWhere(b: Buf, e: Buf, n: nat, sendfile: bool, last: bool)
    ensures var d := Flagged(b, Placed(b, e, n, sendfile), last);
      && (d.inFile <==> b.inFile && sendfile)
      && (d.inFile ==> d.file == b.file && d.filePos == b.filePos && d.fileLast == b.filePos + n)
  {
  }

  lemma HasData(files: Files, b: Buf, n: nat)
    requires GoodBuf(files, b) && Size(b) > 0
    ensures !Special(b) && !Special(Advanced(b, n))
  {
  }

  lemma CopiesGo(files: Files, b: Buf, mem: Buf, src: Buf, dst: Buf)
    requires Copies(files, b, mem, src, dst)
    ensures Fragment(files, b, src, dst) && FlagsGo(b, src, dst)
  {
  }

  lemma AsIsTokens(files: Files, b: Buf, d: Buf)
    requires SameData(files, b, d) && d == b.(inFile := d.inFile) && (d == b || (InMemory(b) && !Special(b)))
    ensures SameTokens(files, b, d)
  {
  }

  predicate NoFlags(b: Buf) {
    !b.flush && !b.lastBuf && !b.lastInChain
  }

  /** Does the fragment `d` carry the flags of the buffer if it is the end of it, and none otherwise? */
  predicate RightFlags(src: Buf, left: Buf, d: Buf) {
    if Size(left) == 0 then FlagsOf(d, src) else NoFlags(d)
  }

  /** Does the fragment `d`, if it is the end of the buffer, carry its flags? */
  predicate EndsRight(src: Buf, left: Buf, d: Buf) {
    Size(left) == 0 ==> FlagsOf(d, src)
  }

  lemma EndFlags(files: Files, b: Buf, mem: Buf, src: Buf, dst: Buf)
    requires Copies(files, b, mem, src, dst)
    ensures EndsRight(b, src, dst)
  {
  }

  /** A free buffer gives every fragment the right flags exactly if it has none itself. */
  lemma {:induction false} FlagsRight(files: Files, sendfile: bool, dst: Buf)
    requires IdleBuf(files, dst)
    ensures NoFlags(dst) <==> forall src: Buf :: GoodBuf(files, src) && Matched(src) && Size(src) > 0 ==>
      RightFlags(src, Advanced(src, Piece(src, dst)), Loaded(files, sendfile, src, dst))
  {
    forall src: Buf | GoodBuf(files, src) && Matched(src) && Size(src) > 0
      ensures NoFlags(dst) ==> RightFlags(src, Advanced(src, Piece(src, dst)), Loaded(files, sendfile, src, dst))
    {
      LoadedIs(files, sendfile, src, dst);
    }
    if !NoFlags(dst) {
      var src := Temp(seq(|dst.mem| + 1, _ => 0), 0, false).(last := |dst.mem| + 1);
      assert GoodBuf(files, src) && Matched(src) && Size(src) == |dst.mem| + 1;
      LoadedIs(files, sendfile, src, dst);
      assert Size(Advanced(src, Piece(src, dst))) == 1;
    }
  }

  /** Flags that stay behind: a flushed buffer of one byte is copied into memory of two bytes, which is sent and comes
      back; the first fragment of the next buffer then asks for a flush as well, although that buffer does not. */
  lemma StaleFlags(tag: int)
    ensures var c := Settings(tag, 1, 2, 1, false, false, true);
      var mem := Temp([0, 0], tag, true);
      var first := Temp([7], 0, false).(last := 1, temporary := false, memory := true, flush := true);
      var second := Temp([1, 2, 3], 0, false).(last := 3, temporary := false, memory := true);
      var back := Loaded(map[], false, first, mem).(pos := 0, last := 0);
      var d, left := Loaded(map[], false, second, back), Advanced(second, Piece(second, back));
      && MustCopy(c, first) && MustCopy(c, second) && NoFlags(mem) && NoFlags(second)
      && Size(left) == 1 && d.flush && !RightFlags(second, left, d)
  {
  }

  /** No buffer of the pool, and not the one being filled, has flags. */
  ghost predicate CleanPool(t: Table, tag: int, buf: Id) {
    (forall id :: Has(t, id, tag) ==> NoFlags(t[id])) && (buf != NONE && buf in t ==> NoFlags(t[buf]))
  }

  /** No buffer that waits to be copied has flags. */
  ghost predicate CleanInput(c: Settings, t: Table, chain: seq<Id>) {
    forall id :: id in chain && id in t && MustCopy(c, t[id]) ==> NoFlags(t[id])
  }

  /** Every buffer's number has been given out. */
  ghost predicate Numbered(t: Table, next: Id) {
    next >= 0 && forall id :: id in t ==> id < next
  }

  lemma NumberedSame(t: Table, u: Table, next: Id)
    requires Numbered(t, next) && u.Keys == t.Keys
    ensures Numbered(u, next)
  {
  }

  /** The buffers of the pool. */
  ghost function Pool(t: Table, tag: int): set<Id> {
    set id | id in t && Has(t, id, tag)
  }

  lemma LargerPool(t: Table, tag: int, id: Id, b: Buf)
    requires id !in t && b.tag == tag
    ensures Pool(t[id := b], tag) == Pool(t, tag) + {id} && id !in Pool(t, tag)
  {
  }

  /** A buffer that keeps its tag and its flags. */
  lemma PutClean(t: Table, tag: int, buf: Id, x: Id, b: Buf)
    requires x in t && b.tag == t[x].tag && FlagsOf(b, t[x])
    ensures Pool(t[x := b], tag) == Pool(t, tag)
    ensures CleanPool(t, tag, buf) ==> CleanPool(t[x := b], tag, buf)
  {
    forall id ensures Has(t[x := b], id, tag) <==> Has(t, id, tag) {}
  }

  /** A new buffer without flags, or one that is not of the pool. */
  lemma NewClean(c: Settings, t: Table, input: seq<Id>, buf: Id, id: Id, b: Buf, buf': Id)
    requires id !in t && id !in input && (b.tag != c.tag || NoFlags(b))
    requires if buf' == id then NoFlags(b) else buf' == buf
    ensures CleanPool(t, c.tag, buf) ==> CleanPool(t[id := b], c.tag, buf')
    ensures CleanInput(c, t, input) ==> CleanInput(c, t[id := b], input)
    ensures b.tag != c.tag ==> Pool(t[id := b], c.tag) == Pool(t, c.tag)
  {
    if b.tag != c.tag {
      forall x ensures Has(t[id := b], x, c.tag) <==> Has(t, x, c.tag) {}
    }
  }

  /** The first buffer stays, and must be copied before as after. */
  lemma StayClean(c: Settings, t: Table, input: seq<Id>, x: Id, b: Buf)
    requires x in t && CleanInput(c, t, input) && FlagsOf(b, t[x]) && (MustCopy(c, t[x]) || x !in input)
    ensures CleanInput(c, t[x := b], input)
  {
    hide MustCopy;
  }

  lemma TailClean(c: Settings, t: Table, input: seq<Id>)
    requires input != [] && CleanInput(c, t, input)
    ensures CleanInput(c, t, input[1..])
  {
  }

  lemma MoreClean(c: Settings, t: Table, a: seq<Id>, b: seq<Id>)
    ensures CleanInput(c, t, a + b) <==> CleanInput(c, t, a) && CleanInput(c, t, b)
  {
    hide MustCopy, NoFlags;
    forall id ensures id in a + b <==> id in a || id in b {}
  }

  /** Copying a fragment: the pool stays clean exactly if the fragment is not the end of a buffer with flags. */
  lemma CopyClean(t: Table, tag: int, x: Id, cur: Id, src: Buf, dst: Buf)
    requires x in t && cur in t && x != cur && cur != NONE && t[x].tag != tag && Size(src) >= 0
    requires src.tag == t[x].tag && FlagsOf(src, t[x]) && dst.tag == t[cur].tag
    requires FlagsOf(dst, if Size(src) == 0 then t[x] else t[cur]) && CleanPool(t, tag, cur)
    ensures var u := t[x := src][cur := dst];
      && Pool(u, tag) == Pool(t, tag)
      && (CleanPool(u, tag, NONE) <==> Size(src) > 0 || NoFlags(t[x]) || t[cur].tag != tag)
    ensures RightFlags(t[x], src, dst)
  {
    var u := t[x := src][cur := dst];
    forall id ensures Has(u, id, tag) <==> Has(t, id, tag) {}
    if t[cur].tag == tag { assert Has(u, cur, tag); }
    if Size(src) > 0 || NoFlags(t[x]) || t[cur].tag != tag {
      forall id | Has(u, id, tag) ensures NoFlags(u[id]) {
        if id != cur { assert Has(t, id, tag) && u[id] == t[id]; }
      }
    }
  }

  /** Sending changes neither tags nor flags. */
  lemma SentClean(t: Table, u: Table, chain: seq<Id>, tag: int)
    requires OnlySent(t, u, chain) && forall id :: Has(u, id, tag) <==> Has(t, id, tag)
    ensures Pool(u, tag) == Pool(t, tag)
    ensures CleanPool(t, tag, NONE) ==> CleanPool(u, tag, NONE)
  {
  }

  lemma SentInput(c: Settings, t: Table, u: Table, input: seq<Id>)
    requires CleanInput(c, t, input) && forall id :: id in input ==> id in u && id in t && u[id] == t[id]
    ensures CleanInput(c, u, input)
  {
  }

  lemma CutIs(data: seq<Byte>, n: nat)
    requires n <= |data|
    ensures data == data[..n] + data[n..]
  {
  }

  lemma AdvancedLeft(b: Buf, n: nat, files: Files)
    requires GoodBuf(files, b) && 0 < n <= Size(b)
    ensures Size(Advanced(b, n)) == Size(b) - n
  {
  }

  /** Copies a fragment from memory or from the file; reading the file may fail. */
  method CopyBuf(files: Files, sendfile: bool, src: Buf, dst: Buf) returns (ok: bool, src': Buf, dst': Buf)
    requires GoodBuf(files, src) && Matched(src) && IdleBuf(files, dst) && Size(src) > 0
    ensures ok ==> dst' == Loaded(files, sendfile, src, dst) && src' == Advanced(src, Piece(src, dst))
  {
    var size := Piece(src, dst);
    var data: seq<Byte>;
    if InMemory(src) {
      SliceOf(src.mem, src.pos, src.last, size);
      data := src.mem[src.pos..src.pos + size];
    } else {
      if * { return false, src, dst; }
      SliceOf(files[src.file], src.filePos, src.fileLast, size);
      data := files[src.file][src.filePos..src.filePos + size];
    }
    assert data == Bytes(files, src)[..size];
    hide Bytes, Fill, Placed, Flagged, Advanced;
    dst' := Placed(src, Fill(dst, data), size, sendfile);
    dst' := Flagged(src, dst', size == Size(src));
    src' := Advanced(src, size);
    ok := true;
  }

  lemma SliceOf(m: seq<Byte>, i: nat, j: nat, n: nat)
    requires i + n <= j <= |m|
    ensures m[i..j][..n] == m[i..i + n]
  {
  }

  lemma SameSize(files: Files, b: Buf, d: Buf)
    requires SameData(files, b, d)
    ensures Size(d) == Size(b)
  {
  }

  lemma {:induction false} WorkStay(t: Table, x: Id, b: Buf, chain: seq<Id>)
    requires x in t && Size(b) == Size(t[x])
    ensures Work(t[x := b], chain) == Work(t, chain)
  {
    if chain != [] {
      WorkStay(t, x, b, chain[1..]);
    }
  }

  lemma DownFacts(files: Files, s: State, tag: int)
    requires Inv(files, s, tag, NONE)
    ensures GoodChain(files, s.t, s.down + s.out) && Distinct(s.down + s.out) && AllMatched(s.t, s.down + s.out)
  {
    DownOut(files, s);
  }

  /** The state after `UpdateSent`. */
  lemma Handed(files: Files, s: State, tag: int, u: Table, k: nat, sent: nat)
    requires Inv(files, s, tag, NONE) && GoodChain(files, s.t, s.down + s.out)
    requires OutputState.Taken(files, s.t, u, s.down + s.out, k, sent)
    ensures var d := Sent(s, u, k, Flow(files, s.t, s.down + s.out)[..sent]);
      && Inv(files, d, tag, NONE) && Sum(files, d) == Sum(files, s) && Work(u, s.input) == Work(s.t, s.input)
      && u.Keys == s.t.Keys && k <= |s.down + s.out| && sent <= |Flow(files, s.t, s.down + s.out)|
      && (forall id :: Has(u, id, tag) <==> Has(s.t, id, tag))
  {
    SentKeeps(files, s, tag, u, k, sent);
    SentTags(files, s, u, k, tag);
    assert All(s) == (s.down + s.out) + s.input;
    TwoParts(files, s.t, s.down + s.out, s.input);
    InputUntouched(files, s.t, u, s.down + s.out, s.input);
    assert forall j :: 0 <= j < |s.input| ==> s.input[j] in s.input;
    WorkSame(s.t, u, s.input);
  }

  lemma NoFlow(files: Files, t: Table)
    ensures GoodChain(files, t, []) && Flow(files, t, []) == []
  {
  }

  lemma NothingMore(a: seq<Id>, b: seq<Byte>)
    ensures a + [] == a && b + [] == b
  {
  }

  /** The short path does not wait for its buffer to come back. */
  lemma Untracked(files: Files, s: State, tag: int, d: State)
    requires Inv(files, d.(busy := s.out), tag, NONE) && |s.out| <= 1 && d.busy == []
    requires forall id :: id in s.out ==> !Has(d.t, id, tag)
    ensures Inv(files, d, tag, NONE) && Sum(files, d) == Sum(files, d.(busy := s.out))
  {
    if s.out != [] {
      var e := d.(busy := s.out);
      assert s.out[0] in s.out;
      ReturnForgets(files, e, tag);
      assert s.out[1..] == [] && Returned(e, tag) == d;
    } else {
      assert d.(busy := s.out) == d;
    }
  }

  lemma BusyFacts(files: Files, s: State, tag: int)
    requires Inv(files, s, tag, NONE) && s.busy != []
    ensures s.busy[0] in s.t
  {
    var x := s.busy[0];
    assert BusyOk(files, s, tag, NONE) && x in s.busy;
    assert x in s.t && GoodBuf(files, s.t[x]);
  }

  lemma Boundary(pos: nat, a: nat)
    requires a > 0
    ensures (pos + (a - pos % a)) % a == 0
  {
    var q := pos / a;
    assert pos + (a - pos % a) == (q + 1) * a;
    ModTimes(q + 1, a);
  }

  lemma InputKnown(files: Files, s: State, tag: int, cur: Id)
    requires Inv(files, s, tag, cur)
    ensures forall id :: id in s.input ==> id in s.t
  {
    if s.input != [] { FirstFacts(files, s, tag, cur); }
  }

  /** Taking a buffer off the free list. */
  lemma FreeClean(files: Files, s: State, tag: int)
    requires Inv(files, s, tag, NONE) && s.free != []
    ensures CleanPool(s.t, tag, NONE) ==> CleanPool(s.t, tag, s.free[0])
  {
    assert s.free[0] in s.free;
  }

  lemma AdvancedFlags(b: Buf, n: nat)
    ensures Advanced(b, n).tag == b.tag && FlagsOf(Advanced(b, n), b)
  {
  }

  /** What copying a fragment does to the flags of the pool and of what waits. */
  lemma CopyFlags(c: Settings, t: Table, input: seq<Id>, cur: Id, src: Buf, dst: Buf)
    requires input != [] && input[0] in t && cur in t && cur !in input && cur != NONE && t[input[0]].tag != c.tag
    requires Size(src) >= 0
    requires src.tag == t[input[0]].tag && FlagsOf(src, t[input[0]]) && dst.tag == t[cur].tag
    requires FlagsOf(dst, if Size(src) == 0 then t[input[0]] else t[cur])
    ensures var x, u := input[0], t[input[0] := src][cur := dst];
      && Pool(u, c.tag) == Pool(t, c.tag)
      && (CleanPool(t, c.tag, cur) ==> RightFlags(t[x], src, dst))
      && (CleanPool(t, c.tag, cur) ==>
          (CleanPool(u, c.tag, NONE) <==> Size(src) > 0 || NoFlags(t[x]) || t[cur].tag != c.tag))
      && (CleanInput(c, t, input) && MustCopy(c, t[x]) ==>
            CleanInput(c, u, input) && CleanInput(c, u, input[1..]) && NoFlags(t[x]))
  {
    hide CleanPool, CleanInput, RightFlags, MustCopy;
    CopyPool(t, c.tag, input[0], cur, src, dst);
    if CleanPool(t, c.tag, cur) { CopyClean(t, c.tag, input[0], cur, src, dst); }
    if CleanInput(c, t, input) && MustCopy(c, t[input[0]]) { CopyInput(c, t, input, cur, src, dst); }
  }

  /** What copying a fragment means for the flags: the fragment's own, and those of the pool, which stays clean
      exactly if the fragment is not the end of a buffer with flags. */
  ghost predicate FlagsCopied(c: Settings, t: Table, input: seq<Id>, buf: Id, u: Table, right: bool)
    requires input != []
  {
    && input[0] in t && buf in t && input[0] in u && buf in u
    && FlagsOf(u[buf], if Size(u[input[0]]) == 0 then t[input[0]] else t[buf])
    && (right ==> RightFlags(t[input[0]], u[input[0]], u[buf]))
    && (CleanPool(t, c.tag, buf) ==>
          (CleanPool(u, c.tag, NONE) <==> Size(u[input[0]]) > 0 || NoFlags(t[input[0]]) || t[buf].tag != c.tag))
  }

  lemma BothBufs(files: Files, s: State, tag: int, cur: Id)
    requires Inv(files, s, tag, cur) && s.input != [] && cur != NONE
    ensures s.input[0] in s.t && cur in s.t && cur != s.input[0] && IdleBuf(files, s.t[cur])
    ensures GoodBuf(files, s.t[s.input[0]]) && Matched(s.t[s.input[0]])
  {
    FirstFacts(files, s, tag, cur);
    CurFacts(files, s, tag, cur);
  }

  lemma CopyStep(files: Files, s: State, c: Settings, cur: Id, src: Buf, dst: Buf, right: bool)
    requires Inv(files, s, c.tag, cur) && cur != NONE && s.input != []
    requires s.input[0] in s.t && cur in s.t && Copies(files, s.t[s.input[0]], s.t[cur], src, dst)
    ensures var x, d := s.input[0], Copied(s, cur, src, dst);
      && Inv(files, d, c.tag, NONE) && Sum(files, d) == Sum(files, s) && Work(d.t, d.input) < Work(s.t, s.input)
      && Pool(d.t, c.tag) == Pool(s.t, c.tag)
      && FlagsCopied(c, s.t, s.input, cur, d.t, right && RightFlags(s.t[x], src, dst))
      && (CleanPool(s.t, c.tag, cur) ==> RightFlags(s.t[x], src, dst))
      && (CleanPool(s.t, c.tag, cur) && CleanInput(c, s.t, s.input) && MustCopy(c, s.t[x]) ==>
            CleanPool(d.t, c.tag, NONE) && CleanInput(c, d.t, d.input))
  {
    FirstFacts(files, s, c.tag, cur);
    hide Inv, Sum, Work, Fragment, FlagsOf, Pool, CleanPool, CleanInput, NoFlags, RightFlags, MustCopy,
      GoodBuf, PoolBuf, Size;
    CopyFlags(c, s.t, s.input, cur, src, dst);
    CopyKeeps(files, s, c.tag, cur, src, dst);
    WorkLess(s.t, s.t[s.input[0] := src][cur := dst], s.input);
  }

  lemma CopyPool(t: Table, tag: int, x: Id, cur: Id, src: Buf, dst: Buf)
    requires x in t && cur in t && x != cur && src.tag == t[x].tag && dst.tag == t[cur].tag
    ensures Pool(t[x := src][cur := dst], tag) == Pool(t, tag)
  {
    forall id ensures Has(t[x := src][cur := dst], id, tag) <==> Has(t, id, tag) {}
  }

  /** What waits, after a fragment of the first buffer has been copied. */
  lemma CopyInput(c: Settings, t: Table, input: seq<Id>, cur: Id, src: Buf, dst: Buf)
    requires input != [] && input[0] in t && cur !in input && CleanInput(c, t, input) && MustCopy(c, t[input[0]])
    requires FlagsOf(src, t[input[0]])
    ensures var u := t[input[0] := src][cur := dst];
      CleanInput(c, u, input) && CleanInput(c, u, input[1..]) && NoFlags(t[input[0]])
  {
    StayClean(c, t, input, input[0], src);
    hide MustCopy;
    var u := t[input[0] := src][cur := dst];
    assert CleanInput(c, u, input);
    TailClean(c, u, input);
  }

  lemma HandedClean(files: Files, s: State, c: Settings, u: Table, k: nat, sent: nat)
    requires Inv(files, s, c.tag, NONE) && GoodChain(files, s.t, s.down + s.out)
    requires OutputState.Taken(files, s.t, u, s.down + s.out, k, sent)
    ensures Pool(u, c.tag) == Pool(s.t, c.tag)
    ensures CleanPool(s.t, c.tag, NONE) ==> CleanPool(u, c.tag, NONE)
    ensures CleanInput(c, s.t, s.input) ==> CleanInput(c, u, s.input)
  {
    SentTags(files, s, u, k, c.tag);
    SentClean(s.t, u, s.down + s.out, c.tag);
    assert All(s) == (s.down + s.out) + s.input;
    TwoParts(files, s.t, s.down + s.out, s.input);
    InputUntouched(files, s.t, u, s.down + s.out, s.input);
    if CleanInput(c, s.t, s.input) { SentInput(c, s.t, u, s.input); }
  }

  lemma SameKeys(files: Files, s: State, u: Table, k: nat, sent: nat)
    requires GoodChain(files, s.t, s.down + s.out) && OutputState.Taken(files, s.t, u, s.down + s.out, k, sent)
    ensures u.Keys == s.t.Keys
  {
  }

  lemma InputStays(files: Files, s: State, tag: int, u: Table, k: nat, sent: nat)
    requires Inv(files, s, tag, NONE) && GoodChain(files, s.t, s.down + s.out)
    requires OutputState.Taken(files, s.t, u, s.down + s.out, k, sent)
    ensures forall id :: id in s.input ==> id in s.t && id in u && u[id] == s.t[id]
  {
    assert All(s) == (s.down + s.out) + s.input;
    TwoParts(files, s.t, s.down + s.out, s.input);
    InputUntouched(files, s.t, u, s.down + s.out, s.input);
  }

  /** A pool buffer is not among those that wait. */
  lemma FirstNot(files: Files, s: State, tag: int, x: Id)
    requires Inv(files, s, tag, NONE) && Has(s.t, x, tag)
    ensures forall k :: 0 <= k < |s.input| ==> s.input[k] != x && s.input[k] in s.t
  {
    if s.input != [] { FirstFacts(files, s, tag, NONE); }
  }

  class OutputChain {
    const files: Files
    const c: Settings
    var t: Table
    /** What waits to be passed on. */
    var input: seq<Id>
    /** What the current call has made ready; empty between calls. */
    var out: seq<Id>
    var free: seq<Id>
    var busy: seq<Id>
    /** The buffer being filled, if there is one. */
    var buf: Id
    var directio: bool
    /** How many buffers the pool has. */
    var made: nat
    var nextId: Id
    /** What the next filter holds, and what it has got rid of. */
    var down: seq<Id>
    ghost var wire: seq<Byte>
    /** Have all fragments had the right flags so far? */
    ghost var right: bool
    /** Has every fragment that was the end of a buffer had the flags of that buffer? */
    ghost var ends: bool
    /** What has been handed to the next filter. */
    ghost var handed: seq<Token>
    /** The fragments in `out` that are not the end of a buffer. */
    ghost var parts: set<Id>

    constructor (files: Files, c: Settings)
      requires Sane(c) && c.tag != 0
      ensures Valid() && this.files == files && this.c == c && Pending() == [] && Said() == []
      ensures Clean() && right && ends
    {
      this.files, this.c := files, c;
      t, input, out, free, busy, down := map[], [], [], [], [], [];
      buf, directio, made, nextId, wire, right, ends := NONE, false, 0, 0, [], true, true;
      handed, parts := [], {};
    }

    ghost function S(): State
      reads this
    {
      State(t, input, out, free, busy, down, wire)
    }

    ghost predicate Good()
      reads this
    {
      && Sane(c) && c.tag != 0 && Inv(files, S(), c.tag, buf)
      && made == |Pool(t, c.tag)| && made <= c.num && Numbered(t, nextId)
      && PartsOut(parts, out)
    }

    ghost predicate Valid()
      reads this
    {
      Good() && out == [] && buf == NONE
    }

    /** Nothing in the pool has flags, and nothing that waits to be copied. */
    ghost predicate Clean()
      reads this
    {
      CleanPool(t, c.tag, buf) && CleanInput(c, t, input)
    }

    /** The bytes that have gone down the wire, are on their way, or wait. */
    ghost function Pending(): seq<Byte>
      requires Good()
      reads this
    {
      Sum(files, S())
    }

    /** All bytes and flags that have been handed down, are made ready, or wait, in order. */
    ghost function Said(): seq<Token>
      reads this
    {
      Record(files, S(), handed, parts)
    }

    /** A caller's buffer. */
    method NewBuf(b: Buf) returns (id: Id)
      requires Valid() && b.tag != c.tag && GoodBuf(files, b)
      modifies this`t, this`nextId
      ensures Valid() && id !in old(t) && t == old(t)[id := b] && Pending() == old(Pending()) && Said() == old(Said())
      ensures old(Clean()) ==> Clean()
    {
      hide Inv, Sum, Pool, CleanPool, CleanInput, Record, GoodBuf, PartsOut;
      ghost var s := S();
      InputKnown(files, s, c.tag, NONE);
      ChainsKnown(files, s, c.tag, NONE);
      id := nextId;
      NewClean(c, t, input, NONE, id, b, NONE);
      NewUserKeeps(files, S(), c.tag, id, b);
      t, nextId := t[id := b], nextId + 1;
      SameRecord(files, s, S(), handed, parts);
    }

    method Drop()
      requires Good() && input != [] && buf == NONE && input[0] in t && Size(t[input[0]]) == 0
      requires !Special(t[input[0]])
      modifies this`input
      ensures Good() && input == old(input)[1..] && Pending() == old(Pending()) && Said() == old(Said())
      ensures Work(t, input) < Work(t, old(input))
      ensures old(Clean()) ==> Clean()
    {
      hide Inv, Sum, Work, Pool, CleanPool, CleanInput, Record;
      DropRecord(files, S(), handed, parts);
      if CleanInput(c, t, input) { TailClean(c, t, input); }
      DropKeeps(files, S(), c.tag);
      WorkDrop(t, input);
      input := input[1..];
    }

    /** Looks at the first buffer: passes it on, or leaves it to be copied. */
    method PassOrStay() returns (passed: bool)
      requires Good() && input != [] && buf == NONE && input[0] in t
      modifies this`t, this`input, this`out
      ensures Good() && Pending() == old(Pending()) && Said() == old(Said())
      ensures !passed ==> input == old(input) && input[0] in t
      ensures !passed ==> !Special(old(t[input[0]])) && Size(t[input[0]]) == old(Size(t[input[0]]))
      ensures passed ==>
        input == old(input)[1..] && out == old(out) + [old(input)[0]] && Work(t, input) < old(Work(t, input))
      ensures passed ==> !Has(t, old(input)[0], c.tag)
      ensures !passed ==> input == old(input) && out == old(out) && Work(t, input) == old(Work(t, input))
      ensures !passed ==> MustCopy(c, t[input[0]])
      ensures old(Clean()) ==> Clean()
    {
      hide Inv, Sum, Work, SameData, Pool, CleanPool, CleanInput, Record, Apart, SameTokens, PartsOut;
      FirstFacts(files, S(), c.tag, NONE);
      FirstApart(files, S(), c.tag, NONE, parts);
      hide GoodBuf, Matched;
      var b: Buf;
      passed, b := AsIs(files, c, t[input[0]]);
      AsIsTokens(files, t[input[0]], b);
      assert !passed ==> !Special(t[input[0]]);
      hide Special, MustCopy;
      if passed {
        Pass(b);
      } else {
        PutClean(t, c.tag, NONE, input[0], b);
        if CleanInput(c, t, input) { StayClean(c, t, input, input[0], b); }
        StayKeeps(files, S(), c.tag, b);
        StayRecord(files, S(), b, handed, parts);
        SameSize(files, t[input[0]], b);
        WorkStay(t, input[0], b, input);
        t := t[input[0] := b];
      }
    }

    /** Moves the first buffer to `out`. */
    method Pass(b: Buf)
      requires Good() && input != [] && buf == NONE && input[0] in t && SameData(files, t[input[0]], b)
      requires FlagsOf(b, t[input[0]]) && SameTokens(files, t[input[0]], b) && Apart(S(), parts, input[0])
      modifies this`t, this`input, this`out
      ensures Good() && Pending() == old(Pending()) && Said() == old(Said())
      ensures input == old(input)[1..] && out == old(out) + [old(input)[0]] && Work(t, input) < old(Work(t, input))
      ensures !Has(t, old(input)[0], c.tag)
      ensures old(Clean()) ==> Clean()
    {
      hide Inv, Sum, Work, Pool, CleanPool, CleanInput, FlagsOf, Record, Apart, SameTokens, PartsOut;
      ghost var s := S();
      var x := input[0];
      PassRecord(files, s, b, handed, parts);
      PartsMore(parts, out, x);
      FirstFacts(files, s, c.tag, NONE);
      assert b.tag == t[x].tag != c.tag;
      PutClean(t, c.tag, NONE, x, b);
      if CleanInput(c, t, input) {
        TailClean(c, t, input);
        StayClean(c, t, input[1..], x, b);
      }
      PassKeeps(files, s, c.tag, b);
      SameSize(files, t[x], b);
      hide SameData;
      WorkStay(t, x, b, input);
      WorkDrop(t[x := b], input);
      t, out, input := t[x := b], out + [x], input[1..];
      assert S() == Passed(s, b);
    }

    /** A new buffer to fill. */
    method Provide(b: Buf)
      requires Good() && buf == NONE && IdleBuf(files, b) && NoFlags(b)
      modifies this`t, this`buf, this`nextId
      ensures buf != NONE && buf !in old(t) && t == old(t)[buf := b] && Numbered(t, nextId)
      ensures Inv(files, S(), c.tag, buf) && Sum(files, S()) == old(Pending()) && Said() == old(Said())
      ensures |Pool(t, c.tag)| == made + if b.tag == c.tag then 1 else 0
      ensures old(Clean()) ==> Clean()
    {
      hide Inv, Sum, Pool, CleanPool, CleanInput, IdleBuf, NoFlags, Record;
      ghost var s := S();
      InputKnown(files, s, c.tag, NONE);
      ChainsKnown(files, s, c.tag, NONE);
      NewClean(c, t, input, NONE, nextId, b, nextId);
      if b.tag == c.tag { LargerPool(t, c.tag, nextId, b); }
      NewCurKeeps(files, S(), c.tag, nextId, b);
      t, buf, nextId := t[nextId := b], nextId, nextId + 1;
      SameRecord(files, s, S(), handed, parts);
    }

    /** How much is missing to the next block boundary, or the whole rest; 0 if a buffer of the pool will do. */
    method AlignedSize(pos: nat, bsize: nat) returns (size: nat)
      requires Sane(c) && bsize > 0
      ensures size <= bsize && (size == 0 || size == bsize || (pos + size) % c.alignment == 0)
      ensures size == 0 <==> pos % c.alignment == 0 && bsize >= c.size
    {
      size := pos % c.alignment;
      if size == 0 {
        if bsize >= c.size { return 0; }
        size := bsize;
      } else {
        Boundary(pos, c.alignment);
        size := c.alignment - size;
        if size > bsize {
          size := bsize;
        }
      }
    }

    /** For direct I/O: a small buffer up to the next block boundary, or one that holds the whole rest. */
    method AlignFileBuf(bsize: nat, memory: bool) returns (r: Acquired)
      requires Good() && input != [] && buf == NONE && input[0] in t && bsize > 0
      modifies this`t, this`buf, this`directio, this`nextId
      ensures Good() && Pending() == old(Pending()) && Said() == old(Said())
      ensures forall id :: id in old(t) ==> id in t && t[id] == old(t)[id]
      ensures if r.Taken? then buf == r.id != NONE else buf == NONE
      ensures r.Taken? ==> buf in t && t[buf].tag != c.tag && 0 < |t[buf].mem| <= bsize && NoFlags(t[buf])
      ensures r.Taken? ==> |t[buf].mem| == bsize || (old(t[input[0]]).filePos + |t[buf].mem|) % c.alignment == 0
      ensures old(Clean()) ==> Clean()
    {
      hide Inv, Sum, Pool, CleanPool, CleanInput, Record;
      if !t[input[0]].directio { return Full; }
      directio := true;
      var size := AlignedSize(t[input[0]].filePos, bsize);
      if size == 0 { return Full; }
      if !memory { return Failed; }
      Provide(Temp(seq(size, _ => 0), 0, false));
      r := Taken(buf);
    }

    /** A new buffer of the pool; the last one of a chain may be small. */
    method GetBuf(bsize: nat, memory: bool) returns (r: Acquired)
      requires Good() && input != [] && buf == NONE && input[0] in t && bsize > 0 && made < c.num
      modifies this`t, this`buf, this`made, this`nextId
      ensures Good() && Pending() == old(Pending()) && Said() == old(Said())
      ensures forall id :: id in old(t) ==> id in t && t[id] == old(t)[id]
      ensures if r.Taken? then buf == r.id != NONE else buf == NONE && r == Failed
      ensures r.Taken? ==> made == old(made) + 1 && buf !in old(t) && buf in t && t[buf].tag == c.tag && NoFlags(t[buf])
      ensures r.Taken? ==> |t[buf].mem| == if SmallLast(old(t[input[0]]), bsize, c, directio) then bsize else c.size
      ensures old(Clean()) ==> Clean()
    {
      hide Inv, Sum, Pool, CleanPool, CleanInput, Record;
      var size, recycled := c.size, true;
      if t[input[0]].lastInChain {
        if bsize < size {
          size, recycled := bsize, false;
        } else if !directio && c.num == 1 && bsize < size + size / 4 {
          size, recycled := bsize, false;
        }
      }
      if !memory { return Failed; }
      Provide(Temp(seq(size, _ => 0), c.tag, recycled));
      made := made + 1;
      r := Taken(buf);
    }

    /** A buffer to copy into: one for direct I/O, a free one, or a new one if the pool allows it. */
    method Acquire(bsize: nat, memory: bool) returns (r: Acquired)
      requires Good() && input != [] && buf == NONE && input[0] in t && bsize > 0
      modifies this`t, this`buf, this`directio, this`made, this`nextId, this`free
      ensures Good() && Pending() == old(Pending()) && Said() == old(Said())
      ensures forall id :: id in old(t) ==> id in t && t[id] == old(t)[id]
      ensures if r.Taken? then buf == r.id != NONE else buf == NONE
      ensures r.Full? ==> free == [] && (out != [] || made == c.num)
      ensures old(Clean()) ==> Clean()
    {
      hide Inv, Sum, Pool, CleanPool, CleanInput, Stream;
      ghost var x := input[0];
      r := AlignFileBuf(bsize, memory);
      if !r.Full? { return; }
      assert x in t;
      if free != [] {
        TakeFreeKeeps(files, S(), c.tag);
        FreeClean(files, S(), c.tag);
        buf, free := free[0], free[1..];
        return Taken(buf);
      }
      if out != [] || made == c.num { return Full; }
      r := GetBuf(bsize, memory);
    }

    /** Copies from the first buffer into the one that has been acquired, and puts that behind `out`. */
    method CopyFirst() returns (ok: bool)
      requires Good() && input != [] && buf != NONE && input[0] in t && Size(t[input[0]]) > 0
      modifies this`t, this`buf, this`input, this`out, this`right, this`ends, this`parts
      ensures ok ==> Good() && buf == NONE && Pending() == old(Pending()) && Said() == old(Said())
      ensures ok ==> Work(t, input) < old(Work(t, input)) && out == old(out) + [old(buf)]
      ensures ok ==> old(buf) in t && old(buf) in old(t) && old(input)[0] in t
      ensures ok ==> FlagsCopied(c, old(t), old(input), old(buf), t, right)
      ensures ok && old(CleanPool(t, c.tag, buf)) ==> right == old(right)
      ensures ok ==> ends == old(ends)
      ensures ok && old(Clean()) && old(MustCopy(c, t[input[0]])) ==> Clean()
    {
      hide Inv, Sum, Work, Loaded, Advanced, Copies, FlagsCopied, Pool, CleanPool, CleanInput, RightFlags, MustCopy,
        GoodBuf, IdleBuf, Matched, Size, Piece, Sane, Numbered, Record, PartsOut;
      ghost var s := S();
      BothBufs(files, s, c.tag, buf);
      var x, cur := input[0], buf;
      var src: Buf, dst: Buf;
      ok, src, dst := CopyBuf(files, c.sendfile && !directio, t[x], t[cur]);
      if !ok { return; }
      LoadedIs(files, c.sendfile && !directio, t[x], t[cur]);
      CopyStep(files, s, c, cur, src, dst, right);
      Judge(t[x], t[cur], src, dst);
      Note(src, dst);
      NumberedSame(t, t[x := src][cur := dst], nextId);
      Ready(src, dst);
    }

    /** Takes down what flags the fragment has. */
    ghost method Judge(b: Buf, mem: Buf, src: Buf, dst: Buf)
      requires Copies(files, b, mem, src, dst)
      modifies this`right, this`ends
      ensures right == (old(right) && RightFlags(b, src, dst)) && ends == old(ends)
    {
      EndFlags(files, b, mem, src, dst);
      right, ends := right && RightFlags(b, src, dst), ends && EndsRight(b, src, dst);
    }

    /** Takes down whether the fragment is the end of its buffer. */
    ghost method Note(src: Buf, dst: Buf)
      requires Inv(files, S(), c.tag, buf) && buf != NONE && input != [] && input[0] in t && buf in t
      requires Copies(files, t[input[0]], t[buf], src, dst) && Size(t[input[0]]) > 0 && PartsOut(parts, out)
      modifies this`parts
      ensures PartsOut(parts, out + [buf])
      ensures Record(files, Copied(S(), buf, src, dst), handed, parts) == old(Said())
    {
      hide Inv, Copies, Record, Fragment, FlagsGo, Apart, PartsOut, Size;
      BothBufs(files, S(), c.tag, buf);
      CopiesGo(files, t[input[0]], t[buf], src, dst);
      FirstApart(files, S(), c.tag, buf, parts);
      CurApart(files, S(), c.tag, buf, parts);
      CopyRecord(files, S(), buf, src, dst, handed, parts);
      PartsMore(parts, out, buf);
      parts := PartsWith(parts, buf, src);
    }

    /** The fragment goes behind `out`, and the first buffer goes if nothing is left of it. */
    method Ready(src: Buf, dst: Buf)
      requires input != [] && input[0] in t && buf in t
      modifies this`t, this`buf, this`input, this`out
      ensures S() == Copied(old(S()), old(buf), src, dst) && buf == NONE
    {
      t, out, buf := t[input[0] := src][buf := dst], out + [buf], NONE;
      if Size(src) == 0 {
        input := input[1..];
      }
    }

    /** Copies one fragment of the first buffer, if there is a buffer for it. */
    method CopyOne(memory: bool) returns (r: Copying)
      requires Good() && input != [] && buf == NONE && input[0] in t && Size(t[input[0]]) > 0
      modifies this`t, this`buf, this`directio, this`made, this`nextId, this`free, this`input, this`out
      modifies this`right, this`ends, this`parts
      ensures !r.Broken? ==> Good() && buf == NONE && Pending() == old(Pending()) && Said() == old(Said())
      ensures r.OneMore? ==> Work(t, input) < old(Work(t, input)) && out != []
      ensures r.PoolFull? ==> input == old(input) && out == old(out) && Work(t, input) == old(Work(t, input))
      ensures r.PoolFull? ==> free == [] && (out != [] || made == c.num)
      ensures !r.Broken? && old(Clean()) && old(MustCopy(c, t[input[0]])) ==> Clean() && right == old(right)
      ensures !r.Broken? ==> ends == old(ends)
    {
      hide Inv, Sum, Work, Pool, CleanPool, CleanInput, NoFlags, MustCopy, FlagsOf, Record;
      ghost var s := S();
      FirstFacts(files, s, c.tag, NONE);
      var got := Acquire(Size(t[input[0]]), memory);
      assert input[0] in t && t[input[0]] == s.t[s.input[0]];
      WorkSame(s.t, t, input);
      if got.Failed? { return Broken; }
      if got.Full? { return PoolFull; }
      var ok := CopyFirst();
      r := if ok then OneMore else Broken;
    }

    /** Moves what it can from `input` to `out`, until the input or the pool is exhausted. */
    method FillOut() returns (ok: bool)
      requires Good() && buf == NONE && out == []
      modifies this`t, this`buf, this`directio, this`made, this`nextId, this`free, this`input, this`out
      modifies this`right, this`ends, this`parts
      ensures ok ==> Good() && buf == NONE && Pending() == old(Pending()) && Said() == old(Said())
      ensures ok && old(Clean()) ==> Clean() && right == old(right)
      ensures ok ==> ends == old(ends)
      ensures ok ==> Work(t, input) <= old(Work(t, input))
      ensures ok && out != [] ==> Work(t, input) < old(Work(t, input))
      ensures ok && out == [] && input != [] ==> free == [] && made == c.num
    {
      hide Inv, Sum, Work, Pool, CleanPool, CleanInput, MustCopy, Record;
      while input != []
        invariant Good() && buf == NONE && Pending() == old(Pending()) && Said() == old(Said())
        invariant Work(t, input) <= old(Work(t, input))
        invariant out != [] ==> Work(t, input) < old(Work(t, input))
        invariant old(Clean()) ==> Clean() && right == old(right)
        invariant ends == old(ends)
        decreases Work(t, input)
      {
        FirstFacts(files, S(), c.tag, NONE);
        var b := t[input[0]];
        if Size(b) == 0 && !Special(b) {
          Drop();
          continue;
        }
        var passed := PassOrStay();
        if passed { continue; }
        var memory: bool := *;
        var r := CopyOne(memory);
        if r.Broken? { return false; }
        if r.PoolFull? { return true; }
      }
      ok := true;
    }

    /** Hands `out` to the next filter. The filter takes any number of bytes from the front of all that it holds.
        `track` says whether the buffers are to come back. */
    method HandDown(track: bool) returns (rc: Result)
      requires Good() && buf == NONE
      requires !track ==> busy == [] && |out| <= 1 && forall id :: id in out ==> !Has(t, id, c.tag)
      modifies this`t, this`down, this`wire, this`out, this`busy, this`handed, this`parts
      ensures rc == Ok || rc == Again ==> Good() && out == [] && Pending() == old(Pending()) && Said() == old(Said())
      ensures rc == Ok || rc == Again ==> handed == old(handed + Stream(files, t, out, parts))
      ensures rc == Ok || rc == Again ==> Work(t, input) == old(Work(t, input))
      ensures !track ==> busy == []
      ensures (rc == Ok || rc == Again) && old(Clean()) ==> Clean()
    {
      hide Inv, Sum, Work, OutputState.Taken, Flow, GoodChain, Has, Pool, CleanPool, CleanInput, Record, Stream;
      rc :| true;
      if rc == Error || rc == Done { return; }
      var u, k, sent := TakeSome();
      MoveDown(u, k, sent, track);
    }

    /** The output belongs to the next filter now, which has taken the first buffers. */
    method MoveDown(u: Table, k: nat, ghost sent: nat, track: bool)
      requires Good() && buf == NONE && k <= |down + out| && GoodChain(files, t, down + out)
      requires OutputState.Taken(files, t, u, down + out, k, sent)
      requires !track ==> busy == [] && |out| <= 1 && forall id :: id in out ==> !Has(t, id, c.tag)
      modifies this`t, this`down, this`wire, this`out, this`busy, this`handed, this`parts
      ensures Good() && out == [] && Pending() == old(Pending()) && Said() == old(Said())
      ensures handed == old(handed + Stream(files, t, out, parts)) && Work(t, input) == old(Work(t, input))
      ensures !track ==> busy == []
      ensures old(Clean()) ==> Clean()
    {
      hide Inv, Sum, Work, OutputState.Taken, Flow, GoodChain, Has, Pool, CleanPool, CleanInput, Record, Stream,
        PartsOut, Sane, Numbered;
      ghost var s := S();
      NoParts([]);
      Handed(files, s, c.tag, u, k, sent);
      HandedClean(files, s, c, u, k, sent);
      InputStays(files, s, c.tag, u, k, sent);
      SameKeys(files, s, u, k, sent);
      NumberedSame(t, u, nextId);
      ghost var taken := Flow(files, t, down + out)[..sent];
      ghost var d := Sent(s, u, k, taken);
      assert !track ==> d.(busy := []).(busy := s.out) == d;
      if !track { Untracked(files, s, c.tag, d.(busy := [])); }
      busy := if track then busy + out else busy;
      t, down, out := u, (down + out)[k..], [];
      wire := wire + taken;
      assert S() == if track then d else d.(busy := []);
      TakeDown(s);
    }

    /** Takes down that all of the output has been handed down. */
    ghost method TakeDown(s: State)
      requires S().out == [] && S().input == s.input
      requires forall id :: id in s.input ==> id in s.t && id in t && t[id] == s.t[id]
      modifies this`handed, this`parts
      ensures handed == old(handed) + Stream(files, s.t, s.out, old(parts)) && parts == {}
      ensures Said() == Record(files, s, old(handed), old(parts))
    {
      HandRecord(files, s, S(), handed, parts);
      handed, parts := handed + Stream(files, s.t, s.out, parts), {};
    }

    /** The next filter gets rid of some bytes. */
    method TakeSome() returns (u: Table, k: nat, ghost sent: nat)
      requires Good() && buf == NONE
      ensures k <= |down + out| && GoodChain(files, t, down + out)
      ensures OutputState.Taken(files, t, u, down + out, k, sent)
    {
      hide Inv, Flow, GoodChain, AllMatched, Distinct, OnlySent;
      var chain := down + out;
      DownFacts(files, S(), c.tag);
      WholeTotal(files, t, chain);
      var n: nat :| 0 <= n <= Total(t, chain, 0);
      u, k := UpdateSent(files, t, chain, n);
      sent := n;
    }

    /** Takes back the buffers that have been sent. */
    method TakeBack()
      requires Good() && buf == NONE && out == []
      modifies this`t, this`busy, this`free
      ensures Good() && Pending() == old(Pending()) && Work(t, input) == old(Work(t, input)) && Said() == old(Said())
      ensures busy != [] ==> busy[0] in t && Size(t[busy[0]]) != 0
      ensures old(Clean()) ==> Clean()
    {
      hide Inv, Sum, Work, Pool, CleanPool, CleanInput, Record;
      while busy != []
        invariant Good() && Pending() == old(Pending()) && Said() == old(Said())
        invariant Work(t, input) == old(Work(t, input))
        invariant old(Clean()) ==> Clean()
        decreases |busy|
      {
        ghost var s := S();
        BusyFacts(files, s, c.tag);
        var x := busy[0];
        if Size(t[x]) != 0 { return; }
        ReturnKeeps(files, s, c.tag);
        ChainsKnown(files, s, c.tag, NONE);
        busy := busy[1..];
        if t[x].tag == c.tag {
          FirstNot(files, s, c.tag, x);
          ghost var b := t[x].(pos := 0, last := 0);
          PutClean(t, c.tag, NONE, x, b);
          if CleanInput(c, t, input) { StayClean(c, t, input, x, b); }
          t, free := t[x := t[x].(pos := 0, last := 0)], [x] + free;
          WorkSame(s.t, t, input);
        }
        assert S() == Returned(s, c.tag);
        SameRecord(files, s, S(), handed, parts);
      }
    }

    /** One call: everything that came in has gone down the wire, is on its way, or waits, in order. */
    method Output(chain: seq<Id>, memory: bool) returns (rc: Result)
      requires Valid() && GoodChain(files, t, chain) && AllMatched(t, chain)
      requires Distinct(All(S()) + chain) && forall id :: id in chain ==> !Has(t, id, c.tag)
      modifies this
      ensures rc == Ok || rc == Again ==> Valid() && Pending() == old(Pending()) + old(Flow(files, t, chain))
      ensures rc == Ok || rc == Again ==> Said() == old(Said()) + old(Stream(files, t, chain, {}))
      ensures rc == Ok ==> input == [] && Said() == handed
      ensures (rc == Ok || rc == Again) && old(Clean()) && old(CleanInput(c, t, chain)) ==>
        Clean() && right == old(right)
      ensures rc == Ok || rc == Again ==> ends == old(ends)
    {
      hide Inv, Sum, Work, Flow, GoodChain, AllMatched, Distinct, OnlySent, Pool, CleanPool, CleanInput, MustCopy;
      hide Record, Stream;
      MoreClean(c, t, input, chain);
      AddRecord(files, S(), chain, handed, parts);
      var short := input == [] && busy == [];
      AddKeeps(files, S(), c.tag, chain);
      input := input + chain;
      if short && chain == [] {
        NoFlow(files, t);
        NothingMore(input, Pending());
        EmptyStream(files, t);
        rc := HandDown(false);
        if rc == Ok { AllHanded(files, S(), handed, parts); }
        return;
      }
      if short && |chain| == 1 {
        FirstFacts(files, S(), c.tag, NONE);
        var passed := PassOrStay();
        if passed {
          rc := HandDown(false);
          if rc == Ok { AllHanded(files, S(), handed, parts); }
          return;
        }
      }
      if chain != [] && !memory { return Error; }
      rc := Pump();
      if rc == Ok { AllHanded(files, S(), handed, parts); }
    }

    /** The loop that fills the output and hands it down, until nothing moves. */
    method Pump() returns (rc: Result)
      requires Valid()
      modifies this
      ensures rc == Ok || rc == Again ==> Valid() && Pending() == old(Pending()) && Said() == old(Said())
      ensures rc == Ok ==> input == []
      ensures (rc == Ok || rc == Again) && old(Clean()) ==> Clean() && right == old(right)
      ensures rc == Ok || rc == Again ==> ends == old(ends)
    {
      hide Inv, Sum, Work, Flow, GoodChain, AllMatched, Distinct, OnlySent, Pool, CleanPool, CleanInput, MustCopy;
      hide Record, Stream;
      var last: Result, called := Ok, false;
      while true
        invariant Valid() && Pending() == old(Pending()) && Said() == old(Said())
        invariant last == Ok || last == Again
        invariant old(Clean()) ==> Clean() && right == old(right)
        invariant ends == old(ends)
        decreases !called, Work(t, input)
      {
        var ok := FillOut();
        if !ok { return Error; }
        if out == [] && called {
          return if input != [] then Again else last;
        }
        last := HandDown(true);
        called := true;
        if last == Error || last == Done { return last; }
        TakeBack();
      }
    }
  }
}
