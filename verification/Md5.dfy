/** MD5 (RFC 1321): messages that come in pieces, through a buffer of one block. */
module Md5 {
  import opened Md5Rounds

  const INIT := Registers(0x67452301, 0xefcdab89, 0x98badcfe, 0x10325476)

  const TWO64 := 0x1_0000_0000_0000_0000

  /** The registers after k blocks of `data` from `from` on. */
  function Fold(s: Registers, data: seq<bv8>, from: nat, k: nat): Registers
    requires from + 64 * k <= |data|
  {
    if k == 0 then s else Block(Fold(s, data, from, k - 1), data, from + 64 * (k - 1))
  }

  /** The i-th byte of a length, the low-order byte first. */
  function LengthByte(bits: nat, i: nat): bv8 {
    if i == 0 then (bits % 256) as bv8 else LengthByte(bits / 256, i - 1)
  }

  function LengthBytes(bits: nat): (s: seq<bv8>)
    ensures |s| == 8
  {
    seq(8, i requires 0 <= i < 8 => LengthByte(bits, i))
  }

  function Zeros(n: nat): (s: seq<bv8>)
    ensures |s| == n
  {
    seq(n, _ => 0)
  }

  /** How many zero bytes make the padded message a whole number of blocks. */
  function Filler(n: nat): (k: nat)
    ensures k < 64 && (n + 1 + k + 8) % 64 == 0
  {
    var r := n % 64;
    if r <= 55 then 55 - r else 119 - r
  }

  /** The padded message (sections 3.1 and 3.2): a one bit, zeros, and the number of bits modulo two to the 64. */
  function Padded(m: seq<bv8>): (p: seq<bv8>)
    ensures |p| % 64 == 0
  {
    m + [0x80] + Zeros(Filler(|m|)) + LengthBytes(8 * |m| % TWO64)
  }

  /** The k-th byte of a word, the low-order byte first. */
  function ByteOf(w: bv32, k: nat): bv8
    requires k < 4
  {
    ((w >> (8 * k)) & 0xff) as bv8
  }

  function WordBytes(w: bv32): (s: seq<bv8>)
    ensures |s| == 4
  {
    [ByteOf(w, 0), ByteOf(w, 1), ByteOf(w, 2), ByteOf(w, 3)]
  }

  function Output(s: Registers): (r: seq<bv8>)
    ensures |r| == 16
  {
    WordBytes(s.a) + WordBytes(s.b) + WordBytes(s.c) + WordBytes(s.d)
  }

  /** The digest of a message (sections 3.3 to 3.5). */
  function Digest(m: seq<bv8>): seq<bv8> {
    Output(Fold(INIT, Padded(m), 0, |Padded(m)| / 64))
  }

  // Blocks depend on their bytes only.

  /** Are the n bytes of a at i the n bytes of b at j? */
  ghost predicate Same(a: seq<bv8>, i: nat, b: seq<bv8>, j: nat, n: nat) {
    i + n <= |a| && j + n <= |b| && forall x :: i <= x < i + n ==> a[x] == b[x - i + j]
  }

  lemma SamePart(a: seq<bv8>, i: nat, b: seq<bv8>, j: nat, n: nat, k: nat, l: nat)
    requires Same(a, i, b, j, n) && k + l <= n
    ensures Same(a, i + k, b, j + k, l)
  {
  }

  lemma SameWord(a: seq<bv8>, i: nat, b: seq<bv8>, j: nat, k: nat)
    requires Same(a, i, b, j, 64) && k < 16
    ensures WordAt(a, i + 4 * k) == WordAt(b, j + 4 * k)
  {
    hide Join;
    var x, y := i + 4 * k, j + 4 * k;
    assert a[x] == b[y] && a[x + 1] == b[y + 1] && a[x + 2] == b[y + 2] && a[x + 3] == b[y + 3];
  }

  lemma {:induction false} SameRounds(s: Registers, a: seq<bv8>, i: nat, b: seq<bv8>, j: nat, n: nat)
    requires Same(a, i, b, j, 64) && n <= 64
    ensures Rounds(s, a, i, n) == Rounds(s, b, j, n)
    decreases n
  {
    hide WordAt, Plus, DefSum, Rotate, Mix, Constant, Shift, Index, Same;
    if n > 0 {
      SameRounds(s, a, i, b, j, n - 1);
      SameWord(a, i, b, j, Index(n - 1));
    }
  }

  lemma SameBounds(a: seq<bv8>, i: nat, b: seq<bv8>, j: nat, n: nat)
    requires Same(a, i, b, j, n)
    ensures i + n <= |a| && j + n <= |b|
  {
  }

  lemma SameBlock(s: Registers, a: seq<bv8>, i: nat, b: seq<bv8>, j: nat)
    requires Same(a, i, b, j, 64)
    ensures i + 64 <= |a| && j + 64 <= |b| && Block(s, a, i) == Block(s, b, j)
  {
    hide Rounds, Plus, Same;
    SameBounds(a, i, b, j, 64);
    SameRounds(s, a, i, b, j, 64);
  }

  lemma FoldStep(s: Registers, data: seq<bv8>, from: nat, k: nat)
    requires from + 64 * k <= |data|
    ensures Fold(s, data, from, k) ==
            if k == 0 then s else Block(Fold(s, data, from, k - 1), data, from + 64 * (k - 1))
  {
  }

  lemma {:induction false} SameFold(s: Registers, a: seq<bv8>, i: nat, b: seq<bv8>, j: nat, k: nat)
    requires Same(a, i, b, j, 64 * k)
    ensures Fold(s, a, i, k) == Fold(s, b, j, k)
    decreases k
  {
    hide Fold, Block, Same;
    SameBounds(a, i, b, j, 64 * k);
    FoldStep(s, a, i, k);
    FoldStep(s, b, j, k);
    if k > 0 {
      SamePart(a, i, b, j, 64 * k, 0, 64 * (k - 1));
      SamePart(a, i, b, j, 64 * k, 64 * (k - 1), 64);
      SameFold(s, a, i, b, j, k - 1);
      SameBlock(Fold(s, a, i, k - 1), a, i + 64 * (k - 1), b, j + 64 * (k - 1));
    }
  }

  lemma {:induction false} FoldMore(s: Registers, data: seq<bv8>, j: nat, k: nat)
    requires 64 * (j + k) <= |data|
    ensures Fold(Fold(s, data, 0, j), data, 64 * j, k) == Fold(s, data, 0, j + k)
    decreases k
  {
    hide Block;
    if k > 0 {
      FoldMore(s, data, j, k - 1);
    }
  }

  class Context {
    var bytes: nat
    var a: bv32
    var b: bv32
    var c: bv32
    var d: bv32
    const buffer: array<bv8>
    /** Everything that has come in. */
    ghost var msg: seq<bv8>

    constructor Init()
      ensures Valid() && fresh(buffer) && msg == []
    {
      a, b, c, d := 0x67452301, 0xefcdab89, 0x98badcfe, 0x10325476;
      bytes := 0;
      buffer := new bv8[64];
      msg := [];
    }

    function Regs(): Registers
      reads this
    {
      Registers(a, b, c, d)
    }

    ghost predicate Valid()
      reads this, buffer
    {
      && buffer.Length == 64 && bytes == |msg| % TWO64
      && Regs() == Fold(INIT, msg, 0, |msg| / 64)
      && buffer[..|msg| % 64] == msg[|msg| / 64 * 64..]
    }

    /** Processes `blocks` > 0 blocks of `data` from `from` on. */
    method Body(data: seq<bv8>, from: nat, size: nat)
      requires size > 0 && size % 64 == 0 && from + size <= |data|
      modifies this`a, this`b, this`c, this`d
      ensures Regs() == Fold(old(Regs()), data, from, size / 64)
    {
      hide Rounds, Plus;
      var p, left := from, size;
      ghost var k, s := 0, Regs();
      while left > 0
        invariant k <= size / 64 && p == from + 64 * k && left == size - 64 * k
        invariant Regs() == Fold(s, data, from, k)
      {
        OneBlock(data, p);
        p, left, k := p + 64, left - 64, k + 1;
      }
    }

    method OneBlock(data: seq<bv8>, p: nat)
      requires p + 64 <= |data|
      modifies this`a, this`b, this`c, this`d
      ensures Regs() == Block(old(Regs()), data, p)
    {
      hide Rounds, Plus;
      ghost var s := Regs();
      var x, y, z, w := a, b, c, d;
      RoundsStart(s, data, p);
      x, y, z, w := Round1Part1(data, p, x, y, z, w, s);
      x, y, z, w := Round1Part2(data, p, x, y, z, w, s);
      x, y, z, w := Round1Part3(data, p, x, y, z, w, s);
      x, y, z, w := Round1Part4(data, p, x, y, z, w, s);
      x, y, z, w := Round2Part1(data, p, x, y, z, w, s);
      x, y, z, w := Round2Part2(data, p, x, y, z, w, s);
      x, y, z, w := Round2Part3(data, p, x, y, z, w, s);
      x, y, z, w := Round2Part4(data, p, x, y, z, w, s);
      x, y, z, w := Round3Part1(data, p, x, y, z, w, s);
      x, y, z, w := Round3Part2(data, p, x, y, z, w, s);
      x, y, z, w := Round3Part3(data, p, x, y, z, w, s);
      x, y, z, w := Round3Part4(data, p, x, y, z, w, s);
      x, y, z, w := Round4Part1(data, p, x, y, z, w, s);
      x, y, z, w := Round4Part2(data, p, x, y, z, w, s);
      x, y, z, w := Round4Part3(data, p, x, y, z, w, s);
      x, y, z, w := Round4Part4(data, p, x, y, z, w, s);
      a, b, c, d := Plus(a, x), Plus(b, y), Plus(c, z), Plus(d, w);
    }

    /** Copies data[from..] into the buffer from `at` on. */
    method Keep(at: nat, data: seq<bv8>, from: nat, n: nat)
      requires buffer.Length == 64 && at + n <= 64 && from + n <= |data|
      modifies buffer
      ensures buffer[..at + n] == old(buffer[..at]) + data[from..from + n]
    {
      forall i | 0 <= i < n {
        buffer[at + i] := data[from + i];
      }
    }

    /** Takes in the next piece of the message. */
    method Update(data: seq<bv8>)
      requires Valid()
      modifies this, buffer
      ensures Valid() && msg == old(msg) + data
    {
      hide Fold;
      ghost var m := msg;
      var used := bytes % 64;
      ghost var q := |m| / 64;
      Counting(|m|, |data|);
      bytes := (bytes + |data|) % TWO64;
      msg := msg + data;
      var from := 0;
      if used > 0 {
        var room := 64 - used;
        if |data| < room {
          Keep(used, data, 0, |data|);
          Filled(m, data, q, used);
          return;
        }
        Keep(used, data, 0, room);
        FirstBlock(m, data, buffer[..], q, used);
        Body(buffer[..], 0, 64);
        from, q := room, q + 1;
      } else {
        Prefix(m, data, q);
      }
      TakeRest(m, data, from, q);
    }

    /** Takes the whole blocks of data[from..], and keeps what is behind them. */
    method TakeRest(ghost m: seq<bv8>, data: seq<bv8>, from: nat, ghost q: nat)
      requires buffer.Length == 64 && msg == m + data && bytes == |msg| % TWO64
      requires |m| + from == 64 * q && from <= |data| && Regs() == Fold(INIT, msg, 0, q)
      modifies this`a, this`b, this`c, this`d, buffer
      ensures Valid()
    {
      hide Fold;
      var size, p := |data| - from, from;
      ghost var n := q;
      if size >= 64 {
        var blocks := size / 64;
        WholeBlocks(m, data, from, q, blocks);
        Body(data, from, blocks * 64);
        p, size, n := from + blocks * 64, size - blocks * 64, q + blocks;
      }
      Keep(0, data, p, size);
      Rest(m, data, p, size, n);
    }

    /** Clears n bytes of the buffer. */
    method Clear(at: nat, n: nat)
      requires buffer.Length == 64 && at + n <= 64
      modifies buffer
      ensures buffer[..at + n] == old(buffer[..at]) + Zeros(n)
    {
      forall i | 0 <= i < n {
        buffer[at + i] := 0;
      }
    }

    /** Puts the length at the end of the buffer. */
    method PutLength(bits: nat)
      requires buffer.Length == 64
      modifies buffer
      ensures buffer[..] == old(buffer[..56]) + LengthBytes(bits)
    {
      hide LengthByte;
      forall i | 0 <= i < 8 {
        buffer[56 + i] := LengthByte(bits, i);
      }
    }

    /** Pads the message, with one block or two, and processes the rest of it. */
    method Close(start: nat, bits: nat, ghost m: seq<bv8>, ghost q: nat)
      requires buffer.Length == 64 && |m| == 64 * q + start - 1 && 0 < start <= 64 && bits == 8 * |m| % TWO64
      requires buffer[..start] == m[64 * q..] + [0x80] && Regs() == Fold(INIT, m, 0, q)
      modifies this`a, this`b, this`c, this`d, buffer
      ensures Regs() == Fold(INIT, Padded(m), 0, |Padded(m)| / 64)
    {
      hide Fold, Padded, LengthBytes, Zeros;
      var used, room := start, 64 - start;
      if room < 8 {
        Clear(used, room);
        ghost var full := buffer[..];
        assert full == m[64 * q..] + ([0x80] + Zeros(64 - start));
        Body(buffer[..], 0, 64);
        used, room := 0, 64;
        Clear(used, room - 8);
        PutLength(bits);
        PaddedTwo(m, q, start - 1, buffer[..]);
        LastTwo(m, [0x80] + Zeros(64 - start), q, full, buffer[..], Padded(m));
      } else {
        Clear(used, room - 8);
        PutLength(bits);
        LastOne(m, q, start - 1, buffer[..]);
      }
      Body(buffer[..], 0, 64);
    }

    /** The digest of everything that has come in, however it was cut up. The context cannot be used any more. */
    method Final() returns (result: seq<bv8>)
      requires Valid()
      modifies this, buffer
      ensures result == Digest(old(msg))
    {
      hide Fold, Padded, Output;
      ghost var m := msg;
      var used := bytes % 64;
      Counting(|m|, 0);
      buffer[used] := 0x80;
      Bits(|m|);
      Close(used + 1, bytes * 8 % TWO64, m, |m| / 64);
      result := Output(Regs());
      a, b, c, d, bytes := 0, 0, 0, 0, 0;
      Clear(0, 64);
    }
  }

  lemma Bits(n: nat)
    ensures n % TWO64 * 8 % TWO64 == 8 * n % TWO64
  {
  }

  lemma PaddedIs(m: seq<bv8>, q: nat, r: nat)
    requires |m| == 64 * q + r && r < 64
    ensures Padded(m) == m + ([0x80] + Zeros(if r <= 55 then 55 - r else 119 - r) + LengthBytes(8 * |m| % TWO64))
  {
    Quotient(|m|, q, r);
    hide Zeros, LengthBytes;
  }

  /** The rest of the message, the padding and the length fit into one block. */
  lemma LastOne(m: seq<bv8>, q: nat, r: nat, last: seq<bv8>)
    requires |m| == 64 * q + r && r <= 55
    requires last == m[64 * q..] + [0x80] + Zeros(55 - r) + LengthBytes(8 * |m| % TWO64)
    ensures |Padded(m)| == 64 * (q + 1)
    ensures Fold(Fold(INIT, m, 0, q), last, 0, 1) == Fold(INIT, Padded(m), 0, |Padded(m)| / 64)
  {
    PaddedIs(m, q, r);
    hide Padded, Zeros, LengthBytes, Fold;
    var tail := [0x80] + Zeros(55 - r) + LengthBytes(8 * |m| % TWO64);
    assert last == m[64 * q..] + tail;
    LastBlock(m, tail, q, last);
    Quotient(|m + tail|, q + 1, 0);
  }

  /** The last block of a message and its tail. */
  lemma LastBlock(m: seq<bv8>, tail: seq<bv8>, q: nat, last: seq<bv8>)
    requires 64 * q <= |m| && last == m[64 * q..] + tail && |last| == 64
    ensures |m + tail| == 64 * (q + 1)
    ensures Fold(Fold(INIT, m, 0, q), last, 0, 1) == Fold(INIT, m + tail, 0, q + 1)
  {
    hide Fold;
    Prefix(m, tail, q);
    SameFold(Fold(INIT, m, 0, q), last, 0, m + tail, 64 * q, 1);
    FoldMore(INIT, m + tail, q, 1);
  }

  lemma Reassociate(a: seq<bv8>, b: seq<bv8>, z: seq<bv8>, y: seq<bv8>, l: seq<bv8>)
    ensures a + (b + (z + y) + l) == (a + (b + z)) + (y + l)
  {
  }

  lemma PaddedTwo(m: seq<bv8>, q: nat, r: nat, last: seq<bv8>)
    requires |m| == 64 * q + r && 56 <= r < 64
    requires last == Zeros(56) + LengthBytes(8 * |m| % TWO64)
    ensures Padded(m) == (m + ([0x80] + Zeros(63 - r))) + last
  {
    PaddedIs(m, q, r);
    ZerosSplit(63 - r, 56);
    hide Padded, Zeros, LengthBytes;
    Reassociate(m, [0x80], Zeros(63 - r), Zeros(56), LengthBytes(8 * |m| % TWO64));
  }

  lemma AfterBlocks(all: seq<bv8>, n: nat, last: seq<bv8>)
    requires |all| == n
    ensures last == all[n..] + last
  {
  }

  /** Two more blocks. */
  lemma TwoBlocks(m: seq<bv8>, tail: seq<bv8>, q: nat, full: seq<bv8>, last: seq<bv8>)
    requires 64 * q <= |m| && full == m[64 * q..] + tail && |full| == 64 && |last| == 64
    ensures |m + tail + last| == 64 * (q + 2)
    ensures Fold(Fold(Fold(INIT, m, 0, q), full, 0, 1), last, 0, 1) == Fold(INIT, m + tail + last, 0, q + 2)
  {
    hide Fold;
    LastBlock(m, tail, q, full);
    AfterBlocks(m + tail, 64 * (q + 1), last);
    LastBlock(m + tail, last, q + 1, last);
  }

  /** The length needs a block of its own. */
  lemma LastTwo(m: seq<bv8>, tail: seq<bv8>, q: nat, full: seq<bv8>, last: seq<bv8>, p: seq<bv8>)
    requires 64 * q <= |m| && full == m[64 * q..] + tail && |full| == 64 && |last| == 64 && p == m + tail + last
    ensures |p| % 64 == 0
    ensures Fold(Fold(Fold(INIT, m, 0, q), full, 0, 1), last, 0, 1) == Fold(INIT, p, 0, |p| / 64)
  {
    hide Fold;
    TwoBlocks(m, tail, q, full, last);
    Quotient(|p|, q + 2, 0);
  }

  lemma ZerosSplit(a: nat, b: nat)
    ensures Zeros(a + b) == Zeros(a) + Zeros(b)
  {
  }

  /** The counter wraps, and its low-order bits do not notice. */
  lemma Counting(n: nat, k: nat)
    ensures n % TWO64 % 64 == n % 64 && (n % TWO64 + k) % TWO64 == (n + k) % TWO64
  {
    var h, r := n / TWO64, n % TWO64;
    Quotient(n, TWO64 / 64 * h + r / 64, r % 64);
    var g, s := (r + k) / TWO64, (r + k) % TWO64;
    Turns(n + k, h + g, s);
  }

  lemma Turns(n: nat, q: nat, r: nat)
    requires n == TWO64 * q + r && r < TWO64
    ensures n % TWO64 == r
  {
  }

  lemma Quotient(n: nat, q: nat, r: nat)
    requires n == 64 * q + r && r < 64
    ensures n / 64 == q && n % 64 == r
  {
  }

  /** The piece is too short to fill the block. */
  lemma Filled(m: seq<bv8>, data: seq<bv8>, q: nat, r: nat)
    requires |m| == 64 * q + r && r + |data| < 64
    ensures var all := m + data;
      && |all| / 64 == q && |all| % 64 == r + |data|
      && Fold(INIT, all, 0, q) == Fold(INIT, m, 0, q)
      && all[64 * q..] == m[64 * q..] + data
  {
    hide Fold;
    Quotient(|m + data|, q, r + |data|);
    SameFold(INIT, m + data, 0, m, 0, q);
  }

  /** Are the bytes of the filled buffer those of the message? */
  lemma BufferIsMessage(m: seq<bv8>, data: seq<bv8>, buffer: seq<bv8>, q: nat, r: nat)
    requires |m| == 64 * q + r && r < 64 && r + |data| >= 64
    requires |buffer| == 64 && buffer == m[64 * q..] + data[..64 - r]
    ensures Same(buffer, 0, m + data, 64 * q, 64)
  {
    forall x | 0 <= x < 64 ensures buffer[x] == (m + data)[x - 0 + 64 * q] {
    }
  }

  /** The block that the piece fills. */
  lemma FirstBlock(m: seq<bv8>, data: seq<bv8>, buffer: seq<bv8>, q: nat, r: nat)
    requires |m| == 64 * q + r && r < 64 && r + |data| >= 64
    requires |buffer| == 64 && buffer == m[64 * q..] + data[..64 - r]
    ensures Fold(Fold(INIT, m, 0, q), buffer, 0, 1) == Fold(INIT, m + data, 0, q + 1)
  {
    hide Fold;
    BufferIsMessage(m, data, buffer, q, r);
    Prefix(m, data, q);
    hide Same;
    SameFold(Fold(INIT, m, 0, q), buffer, 0, m + data, 64 * q, 1);
    FoldMore(INIT, m + data, q, 1);
  }

  lemma Prefix(m: seq<bv8>, data: seq<bv8>, q: nat)
    requires 64 * q <= |m|
    ensures Fold(INIT, m + data, 0, q) == Fold(INIT, m, 0, q)
  {
    hide Fold;
    SameFold(INIT, m + data, 0, m, 0, q);
  }

  /** The blocks that are taken straight from the piece. */
  lemma WholeBlocks(m: seq<bv8>, data: seq<bv8>, from: nat, q: nat, k: nat)
    requires |m| + from == 64 * q && from + 64 * k <= |data|
    ensures Fold(Fold(INIT, m + data, 0, q), data, from, k) == Fold(INIT, m + data, 0, q + k)
  {
    hide Fold;
    PieceIsMessage(m, data, from, q, k);
    hide Same;
    SameFold(Fold(INIT, m + data, 0, q), data, from, m + data, 64 * q, k);
    FoldMore(INIT, m + data, q, k);
  }

  lemma PieceIsMessage(m: seq<bv8>, data: seq<bv8>, from: nat, q: nat, k: nat)
    requires |m| + from == 64 * q && from + 64 * k <= |data|
    ensures Same(data, from, m + data, 64 * q, 64 * k)
  {
  }

  /** What is left goes into the buffer. */
  lemma Rest(m: seq<bv8>, data: seq<bv8>, from: nat, size: nat, q: nat)
    requires |m| + from == 64 * q && size < 64 && from + size == |data|
    ensures var all := m + data;
      |all| / 64 == q && |all| % 64 == size && all[64 * q..] == data[from..from + size]
  {
    Quotient(|m + data|, q, size);
  }

  lemma RoundsStart(s: Registers, data: seq<bv8>, p: nat)
    requires p + 64 <= |data|
    ensures Rounds(s, data, p, 0) == s
  {
  }
}
