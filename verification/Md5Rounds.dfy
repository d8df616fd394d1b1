/** MD5 (RFC 1321): the definition by rounds and the unrolled code. */
module Md5Rounds {

  /** The four registers. */
  datatype Registers = Registers(a: bv32, b: bv32, c: bv32, d: bv32)

  // The operations on words by name, so that proofs can use their laws without looking at bits.

  function Plus(x: bv32, y: bv32): bv32 {
    x + y
  }

  /** The sum of an operation, as it is defined. */
  function DefSum(a: bv32, f: bv32, x: bv32, t: bv32): bv32 {
    a + f + x + t
  }

  /** The sum of an operation, as the code adds it up. */
  function Sum(a: bv32, f: bv32, x: bv32, t: bv32): bv32 {
    a + (f + x + t)
  }

  /** A circular shift to the left. */
  function Rotate(x: bv32, s: nat): bv32
    requires 0 < s < 32
  {
    (x << s) | (x >> (32 - s))
  }

  /** Four bytes, the low-order byte first. */
  function Join(b0: bv8, b1: bv8, b2: bv8, b3: bv8): bv32 {
    b0 as bv32 | (b1 as bv32 << 8) | (b2 as bv32 << 16) | (b3 as bv32 << 24)
  }

  function WordAt(data: seq<bv8>, i: nat): bv32
    requires i + 4 <= |data|
  {
    Join(data[i], data[i + 1], data[i + 2], data[i + 3])
  }

  // The auxiliary functions as section 3.4 defines them.

  function DefF(x: bv32, y: bv32, z: bv32): bv32 {
    (x & y) | (!x & z)
  }

  function DefG(x: bv32, y: bv32, z: bv32): bv32 {
    (x & z) | (y & !z)
  }

  function DefH(x: bv32, y: bv32, z: bv32): bv32 {
    x ^ y ^ z
  }

  function DefI(x: bv32, y: bv32, z: bv32): bv32 {
    y ^ (x | !z)
  }

  // The same functions as the code computes them.

  function F(x: bv32, y: bv32, z: bv32): bv32 {
    z ^ (x & (y ^ z))
  }

  function G(x: bv32, y: bv32, z: bv32): bv32 {
    y ^ (z & (x ^ y))
  }

  function H(x: bv32, y: bv32, z: bv32): bv32 {
    x ^ y ^ z
  }

  function I(x: bv32, y: bv32, z: bv32): bv32 {
    y ^ (x | !z)
  }

  lemma FBits(x: bv32, y: bv32, z: bv32)
    ensures z ^ (x & (y ^ z)) == (x & y) | (!x & z)
  {
  }

  lemma GBits(x: bv32, y: bv32, z: bv32)
    ensures y ^ (z & (x ^ y)) == (x & z) | (y & !z)
  {
  }

  /** The optimized forms compute the defined functions. */
  lemma SameF(x: bv32, y: bv32, z: bv32)
    ensures F(x, y, z) == DefF(x, y, z)
  {
    FBits(x, y, z);
  }

  lemma SameG(x: bv32, y: bv32, z: bv32)
    ensures G(x, y, z) == DefG(x, y, z)
  {
    GBits(x, y, z);
  }

  lemma SameHI(x: bv32, y: bv32, z: bv32)
    ensures H(x, y, z) == DefH(x, y, z) && I(x, y, z) == DefI(x, y, z)
  {
  }

  // The definition: 64 operations, each described by its number.

  function Mix(n: nat, x: bv32, y: bv32, z: bv32): bv32 {
    if n < 16 then DefF(x, y, z)
    else if n < 32 then DefG(x, y, z)
    else if n < 48 then DefH(x, y, z)
    else DefI(x, y, z)
  }

  /** Which word of the block the operation uses. */
  function Index(n: nat): (k: nat)
    requires n < 64
    ensures k < 16
  {
    if n < 16 then n
    else if n < 32 then (5 * n + 1) % 16
    else if n < 48 then (3 * n + 5) % 16
    else 7 * n % 16
  }

  function Shift(n: nat): (s: nat)
    ensures 0 < s < 32
  {
    var k := n % 4;
    if n < 16 then if k == 0 then 7 else if k == 1 then 12 else if k == 2 then 17 else 22
    else if n < 32 then if k == 0 then 5 else if k == 1 then 9 else if k == 2 then 14 else 20
    else if n < 48 then if k == 0 then 4 else if k == 1 then 11 else if k == 2 then 16 else 23
    else if k == 0 then 6 else if k == 1 then 10 else if k == 2 then 15 else 21
  }

  // The constants: the integer parts of 4294967296 * |sin(n + 1)|.

  function Constants1(n: nat): bv32 {
    if n == 0 then 0xd76aa478 else if n == 1 then 0xe8c7b756
    else if n == 2 then 0x242070db else if n == 3 then 0xc1bdceee
    else if n == 4 then 0xf57c0faf else if n == 5 then 0x4787c62a
    else if n == 6 then 0xa8304613 else if n == 7 then 0xfd469501
    else if n == 8 then 0x698098d8 else if n == 9 then 0x8b44f7af
    else if n == 10 then 0xffff5bb1 else if n == 11 then 0x895cd7be
    else if n == 12 then 0x6b901122 else if n == 13 then 0xfd987193
    else if n == 14 then 0xa679438e else 0x49b40821
  }

  function Constants2(n: nat): bv32 {
    if n == 16 then 0xf61e2562 else if n == 17 then 0xc040b340
    else if n == 18 then 0x265e5a51 else if n == 19 then 0xe9b6c7aa
    else if n == 20 then 0xd62f105d else if n == 21 then 0x02441453
    else if n == 22 then 0xd8a1e681 else if n == 23 then 0xe7d3fbc8
    else if n == 24 then 0x21e1cde6 else if n == 25 then 0xc33707d6
    else if n == 26 then 0xf4d50d87 else if n == 27 then 0x455a14ed
    else if n == 28 then 0xa9e3e905 else if n == 29 then 0xfcefa3f8
    else if n == 30 then 0x676f02d9 else 0x8d2a4c8a
  }

  function Constants3(n: nat): bv32 {
    if n == 32 then 0xfffa3942 else if n == 33 then 0x8771f681
    else if n == 34 then 0x6d9d6122 else if n == 35 then 0xfde5380c
    else if n == 36 then 0xa4beea44 else if n == 37 then 0x4bdecfa9
    else if n == 38 then 0xf6bb4b60 else if n == 39 then 0xbebfbc70
    else if n == 40 then 0x289b7ec6 else if n == 41 then 0xeaa127fa
    else if n == 42 then 0xd4ef3085 else if n == 43 then 0x04881d05
    else if n == 44 then 0xd9d4d039 else if n == 45 then 0xe6db99e5
    else if n == 46 then 0x1fa27cf8 else 0xc4ac5665
  }

  function Constants4(n: nat): bv32 {
    if n == 48 then 0xf4292244 else if n == 49 then 0x432aff97
    else if n == 50 then 0xab9423a7 else if n == 51 then 0xfc93a039
    else if n == 52 then 0x655b59c3 else if n == 53 then 0x8f0ccc92
    else if n == 54 then 0xffeff47d else if n == 55 then 0x85845dd1
    else if n == 56 then 0x6fa87e4f else if n == 57 then 0xfe2ce6e0
    else if n == 58 then 0xa3014314 else if n == 59 then 0x4e0811a1
    else if n == 60 then 0xf7537e82 else if n == 61 then 0xbd3af235
    else if n == 62 then 0x2ad7d2bb else 0xeb86d391
  }

  function Constant(n: nat): bv32 {
    if n < 16 then Constants1(n)
    else if n < 32 then Constants2(n)
    else if n < 48 then Constants3(n)
    else Constants4(n)
  }

  /** The registers after the first n operations on the block at `off`. */
  function Rounds(s: Registers, data: seq<bv8>, off: nat, n: nat): Registers
    requires off + 64 <= |data| && n <= 64
  {
    if n == 0 then s
    else
      var r := Rounds(s, data, off, n - 1);
      var sum := DefSum(r.a, Mix(n - 1, r.b, r.c, r.d), WordAt(data, off + 4 * Index(n - 1)), Constant(n - 1));
      Registers(r.d, Plus(r.b, Rotate(sum, Shift(n - 1))), r.b, r.c)
  }

  /** The registers after a whole block. */
  function Block(s: Registers, data: seq<bv8>, off: nat): Registers
    requires off + 64 <= |data|
  {
    var r := Rounds(s, data, off, 64);
    Registers(Plus(s.a, r.a), Plus(s.b, r.b), Plus(s.c, r.c), Plus(s.d, r.d))
  }

  // The code.

  /** One operation: `f` is mixed into `a`. */
  function Step(f: bv32, a: bv32, b: bv32, x: bv32, t: bv32, s: nat): bv32
    requires 0 < s < 32
  {
    Plus(Rotate(Sum(a, f, x, t), s), b)
  }

  lemma SameSum(a: bv32, f: bv32, x: bv32, t: bv32)
    ensures Sum(a, f, x, t) == DefSum(a, f, x, t)
  {
  }

  lemma PlusEither(x: bv32, y: bv32)
    ensures Plus(x, y) == Plus(y, x)
  {
  }

  /** The next operation, as the code does it. */
  lemma Next(s: Registers, data: seq<bv8>, off: nat, n: nat, f: bv32, x: bv32, t: bv32, k: nat)
    requires off + 64 <= |data| && n < 64
    requires var r := Rounds(s, data, off, n); f == Mix(n, r.b, r.c, r.d)
    requires x == WordAt(data, off + 4 * Index(n)) && t == Constant(n) && k == Shift(n)
    ensures var r := Rounds(s, data, off, n);
      Rounds(s, data, off, n + 1) == Registers(r.d, Step(f, r.a, r.b, x, t, k), r.b, r.c)
  {
    hide Plus, Sum, DefSum, Rotate, WordAt, Mix, Constant, Index, Shift;
    var r := Rounds(s, data, off, n);
    SameSum(r.a, f, x, t);
    PlusEither(r.b, Rotate(Sum(r.a, f, x, t), k));
  }

  lemma Parameters1Part1()
    ensures Constant(0) == 0xd76aa478 && Index(0) == 0 && Shift(0) == 7
    ensures Constant(1) == 0xe8c7b756 && Index(1) == 1 && Shift(1) == 12
    ensures Constant(2) == 0x242070db && Index(2) == 2 && Shift(2) == 17
    ensures Constant(3) == 0xc1bdceee && Index(3) == 3 && Shift(3) == 22
  {
  }

  lemma Parameters1Part2()
    ensures Constant(4) == 0xf57c0faf && Index(4) == 4 && Shift(4) == 7
    ensures Constant(5) == 0x4787c62a && Index(5) == 5 && Shift(5) == 12
    ensures Constant(6) == 0xa8304613 && Index(6) == 6 && Shift(6) == 17
    ensures Constant(7) == 0xfd469501 && Index(7) == 7 && Shift(7) == 22
  {
  }

  lemma Parameters1Part3()
    ensures Constant(8) == 0x698098d8 && Index(8) == 8 && Shift(8) == 7
    ensures Constant(9) == 0x8b44f7af && Index(9) == 9 && Shift(9) == 12
    ensures Constant(10) == 0xffff5bb1 && Index(10) == 10 && Shift(10) == 17
    ensures Constant(11) == 0x895cd7be && Index(11) == 11 && Shift(11) == 22
  {
  }

  lemma Parameters1Part4()
    ensures Constant(12) == 0x6b901122 && Index(12) == 12 && Shift(12) == 7
    ensures Constant(13) == 0xfd987193 && Index(13) == 13 && Shift(13) == 12
    ensures Constant(14) == 0xa679438e && Index(14) == 14 && Shift(14) == 17
    ensures Constant(15) == 0x49b40821 && Index(15) == 15 && Shift(15) == 22
  {
  }

  lemma Mix1(n: nat, x: bv32, y: bv32, z: bv32)
    requires 0 <= n < 16
    ensures F(x, y, z) == Mix(n, x, y, z)
  {
    SameF(x, y, z);
  }

  /** Operations 0 to 3. */
  method Round1Part1(data: seq<bv8>, p: nat, a0: bv32, b0: bv32, c0: bv32, d0: bv32, ghost s: Registers)
    returns (a: bv32, b: bv32, c: bv32, d: bv32)
    requires p + 64 <= |data| && Registers(a0, b0, c0, d0) == Rounds(s, data, p, 0)
    ensures Registers(a, b, c, d) == Rounds(s, data, p, 4)
  {
    hide Rounds, Plus, Sum, Rotate, WordAt, Mix, Constant, Index, Shift, F, G, H, I, Step;
    Parameters1Part1();
    a, b, c, d := a0, b0, c0, d0;
    Mix1(0, b, c, d);
    Next(s, data, p, 0, F(b, c, d), WordAt(data, p + 0), 0xd76aa478, 7);
    a := Step(F(b, c, d), a, b, WordAt(data, p + 0), 0xd76aa478, 7);
    Mix1(1, a, b, c);
    Next(s, data, p, 1, F(a, b, c), WordAt(data, p + 4), 0xe8c7b756, 12);
    d := Step(F(a, b, c), d, a, WordAt(data, p + 4), 0xe8c7b756, 12);
    Mix1(2, d, a, b);
    Next(s, data, p, 2, F(d, a, b), WordAt(data, p + 8), 0x242070db, 17);
    c := Step(F(d, a, b), c, d, WordAt(data, p + 8), 0x242070db, 17);
    Mix1(3, c, d, a);
    Next(s, data, p, 3, F(c, d, a), WordAt(data, p + 12), 0xc1bdceee, 22);
    b := Step(F(c, d, a), b, c, WordAt(data, p + 12), 0xc1bdceee, 22);
  }

  /** Operations 4 to 7. */
  method Round1Part2(data: seq<bv8>, p: nat, a0: bv32, b0: bv32, c0: bv32, d0: bv32, ghost s: Registers)
    returns (a: bv32, b: bv32, c: bv32, d: bv32)
    requires p + 64 <= |data| && Registers(a0, b0, c0, d0) == Rounds(s, data, p, 4)
    ensures Registers(a, b, c, d) == Rounds(s, data, p, 8)
  {
    hide Rounds, Plus, Sum, Rotate, WordAt, Mix, Constant, Index, Shift, F, G, H, I, Step;
    Parameters1Part2();
    a, b, c, d := a0, b0, c0, d0;
    Mix1(4, b, c, d);
    Next(s, data, p, 4, F(b, c, d), WordAt(data, p + 16), 0xf57c0faf, 7);
    a := Step(F(b, c, d), a, b, WordAt(data, p + 16), 0xf57c0faf, 7);
    Mix1(5, a, b, c);
    Next(s, data, p, 5, F(a, b, c), WordAt(data, p + 20), 0x4787c62a, 12);
    d := Step(F(a, b, c), d, a, WordAt(data, p + 20), 0x4787c62a, 12);
    Mix1(6, d, a, b);
    Next(s, data, p, 6, F(d, a, b), WordAt(data, p + 24), 0xa8304613, 17);
    c := Step(F(d, a, b), c, d, WordAt(data, p + 24), 0xa8304613, 17);
    Mix1(7, c, d, a);
    Next(s, data, p, 7, F(c, d, a), WordAt(data, p + 28), 0xfd469501, 22);
    b := Step(F(c, d, a), b, c, WordAt(data, p + 28), 0xfd469501, 22);
  }

  /** Operations 8 to 11. */
  method Round1Part3(data: seq<bv8>, p: nat, a0: bv32, b0: bv32, c0: bv32, d0: bv32, ghost s: Registers)
    returns (a: bv32, b: bv32, c: bv32, d: bv32)
    requires p + 64 <= |data| && Registers(a0, b0, c0, d0) == Rounds(s, data, p, 8)
    ensures Registers(a, b, c, d) == Rounds(s, data, p, 12)
  {
    hide Rounds, Plus, Sum, Rotate, WordAt, Mix, Constant, Index, Shift, F, G, H, I, Step;
    Parameters1Part3();
    a, b, c, d := a0, b0, c0, d0;
    Mix1(8, b, c, d);
    Next(s, data, p, 8, F(b, c, d), WordAt(data, p + 32), 0x698098d8, 7);
    a := Step(F(b, c, d), a, b, WordAt(data, p + 32), 0x698098d8, 7);
    Mix1(9, a, b, c);
    Next(s, data, p, 9, F(a, b, c), WordAt(data, p + 36), 0x8b44f7af, 12);
    d := Step(F(a, b, c), d, a, WordAt(data, p + 36), 0x8b44f7af, 12);
    Mix1(10, d, a, b);
    Next(s, data, p, 10, F(d, a, b), WordAt(data, p + 40), 0xffff5bb1, 17);
    c := Step(F(d, a, b), c, d, WordAt(data, p + 40), 0xffff5bb1, 17);
    Mix1(11, c, d, a);
    Next(s, data, p, 11, F(c, d, a), WordAt(data, p + 44), 0x895cd7be, 22);
    b := Step(F(c, d, a), b, c, WordAt(data, p + 44), 0x895cd7be, 22);
  }

  /** Operations 12 to 15. */
  method Round1Part4(data: seq<bv8>, p: nat, a0: bv32, b0: bv32, c0: bv32, d0: bv32, ghost s: Registers)
    returns (a: bv32, b: bv32, c: bv32, d: bv32)
    requires p + 64 <= |data| && Registers(a0, b0, c0, d0) == Rounds(s, data, p, 12)
    ensures Registers(a, b, c, d) == Rounds(s, data, p, 16)
  {
    hide Rounds, Plus, Sum, Rotate, WordAt, Mix, Constant, Index, Shift, F, G, H, I, Step;
    Parameters1Part4();
    a, b, c, d := a0, b0, c0, d0;
    Mix1(12, b, c, d);
    Next(s, data, p, 12, F(b, c, d), WordAt(data, p + 48), 0x6b901122, 7);
    a := Step(F(b, c, d), a, b, WordAt(data, p + 48), 0x6b901122, 7);
    Mix1(13, a, b, c);
    Next(s, data, p, 13, F(a, b, c), WordAt(data, p + 52), 0xfd987193, 12);
    d := Step(F(a, b, c), d, a, WordAt(data, p + 52), 0xfd987193, 12);
    Mix1(14, d, a, b);
    Next(s, data, p, 14, F(d, a, b), WordAt(data, p + 56), 0xa679438e, 17);
    c := Step(F(d, a, b), c, d, WordAt(data, p + 56), 0xa679438e, 17);
    Mix1(15, c, d, a);
    Next(s, data, p, 15, F(c, d, a), WordAt(data, p + 60), 0x49b40821, 22);
    b := Step(F(c, d, a), b, c, WordAt(data, p + 60), 0x49b40821, 22);
  }

  lemma Parameters2Part1()
    ensures Constant(16) == 0xf61e2562 && Index(16) == 1 && Shift(16) == 5
    ensures Constant(17) == 0xc040b340 && Index(17) == 6 && Shift(17) == 9
    ensures Constant(18) == 0x265e5a51 && Index(18) == 11 && Shift(18) == 14
    ensures Constant(19) == 0xe9b6c7aa && Index(19) == 0 && Shift(19) == 20
  {
  }

  lemma Parameters2Part2()
    ensures Constant(20) == 0xd62f105d && Index(20) == 5 && Shift(20) == 5
    ensures Constant(21) == 0x02441453 && Index(21) == 10 && Shift(21) == 9
    ensures Constant(22) == 0xd8a1e681 && Index(22) == 15 && Shift(22) == 14
    ensures Constant(23) == 0xe7d3fbc8 && Index(23) == 4 && Shift(23) == 20
  {
  }

  lemma Parameters2Part3()
    ensures Constant(24) == 0x21e1cde6 && Index(24) == 9 && Shift(24) == 5
    ensures Constant(25) == 0xc33707d6 && Index(25) == 14 && Shift(25) == 9
    ensures Constant(26) == 0xf4d50d87 && Index(26) == 3 && Shift(26) == 14
    ensures Constant(27) == 0x455a14ed && Index(27) == 8 && Shift(27) == 20
  {
  }

  lemma Parameters2Part4()
    ensures Constant(28) == 0xa9e3e905 && Index(28) == 13 && Shift(28) == 5
    ensures Constant(29) == 0xfcefa3f8 && Index(29) == 2 && Shift(29) == 9
    ensures Constant(30) == 0x676f02d9 && Index(30) == 7 && Shift(30) == 14
    ensures Constant(31) == 0x8d2a4c8a && Index(31) == 12 && Shift(31) == 20
  {
  }

  lemma Mix2(n: nat, x: bv32, y: bv32, z: bv32)
    requires 16 <= n < 32
    ensures G(x, y, z) == Mix(n, x, y, z)
  {
    SameG(x, y, z);
  }

  /** Operations 16 to 19. */
  method Round2Part1(data: seq<bv8>, p: nat, a0: bv32, b0: bv32, c0: bv32, d0: bv32, ghost s: Registers)
    returns (a: bv32, b: bv32, c: bv32, d: bv32)
    requires p + 64 <= |data| && Registers(a0, b0, c0, d0) == Rounds(s, data, p, 16)
    ensures Registers(a, b, c, d) == Rounds(s, data, p, 20)
  {
    hide Rounds, Plus, Sum, Rotate, WordAt, Mix, Constant, Index, Shift, F, G, H, I, Step;
    Parameters2Part1();
    a, b, c, d := a0, b0, c0, d0;
    Mix2(16, b, c, d);
    Next(s, data, p, 16, G(b, c, d), WordAt(data, p + 4), 0xf61e2562, 5);
    a := Step(G(b, c, d), a, b, WordAt(data, p + 4), 0xf61e2562, 5);
    Mix2(17, a, b, c);
    Next(s, data, p, 17, G(a, b, c), WordAt(data, p + 24), 0xc040b340, 9);
    d := Step(G(a, b, c), d, a, WordAt(data, p + 24), 0xc040b340, 9);
    Mix2(18, d, a, b);
    Next(s, data, p, 18, G(d, a, b), WordAt(data, p + 44), 0x265e5a51, 14);
    c := Step(G(d, a, b), c, d, WordAt(data, p + 44), 0x265e5a51, 14);
    Mix2(19, c, d, a);
    Next(s, data, p, 19, G(c, d, a), WordAt(data, p + 0), 0xe9b6c7aa, 20);
    b := Step(G(c, d, a), b, c, WordAt(data, p + 0), 0xe9b6c7aa, 20);
  }

  /** Operations 20 to 23. */
  method Round2Part2(data: seq<bv8>, p: nat, a0: bv32, b0: bv32, c0: bv32, d0: bv32, ghost s: Registers)
    returns (a: bv32, b: bv32, c: bv32, d: bv32)
    requires p + 64 <= |data| && Registers(a0, b0, c0, d0) == Rounds(s, data, p, 20)
    ensures Registers(a, b, c, d) == Rounds(s, data, p, 24)
  {
    hide Rounds, Plus, Sum, Rotate, WordAt, Mix, Constant, Index, Shift, F, G, H, I, Step;
    Parameters2Part2();
    a, b, c, d := a0, b0, c0, d0;
    Mix2(20, b, c, d);
    Next(s, data, p, 20, G(b, c, d), WordAt(data, p + 20), 0xd62f105d, 5);
    a := Step(G(b, c, d), a, b, WordAt(data, p + 20), 0xd62f105d, 5);
    Mix2(21, a, b, c);
    Next(s, data, p, 21, G(a, b, c), WordAt(data, p + 40), 0x02441453, 9);
    d := Step(G(a, b, c), d, a, WordAt(data, p + 40), 0x02441453, 9);
    Mix2(22, d, a, b);
    Next(s, data, p, 22, G(d, a, b), WordAt(data, p + 60), 0xd8a1e681, 14);
    c := Step(G(d, a, b), c, d, WordAt(data, p + 60), 0xd8a1e681, 14);
    Mix2(23, c, d, a);
    Next(s, data, p, 23, G(c, d, a), WordAt(data, p + 16), 0xe7d3fbc8, 20);
    b := Step(G(c, d, a), b, c, WordAt(data, p + 16), 0xe7d3fbc8, 20);
  }

  /** Operations 24 to 27. */
  method Round2Part3(data: seq<bv8>, p: nat, a0: bv32, b0: bv32, c0: bv32, d0: bv32, ghost s: Registers)
    returns (a: bv32, b: bv32, c: bv32, d: bv32)
    requires p + 64 <= |data| && Registers(a0, b0, c0, d0) == Rounds(s, data, p, 24)
    ensures Registers(a, b, c, d) == Rounds(s, data, p, 28)
  {
    hide Rounds, Plus, Sum, Rotate, WordAt, Mix, Constant, Index, Shift, F, G, H, I, Step;
    Parameters2Part3();
    a, b, c, d := a0, b0, c0, d0;
    Mix2(24, b, c, d);
    Next(s, data, p, 24, G(b, c, d), WordAt(data, p + 36), 0x21e1cde6, 5);
    a := Step(G(b, c, d), a, b, WordAt(data, p + 36), 0x21e1cde6, 5);
    Mix2(25, a, b, c);
    Next(s, data, p, 25, G(a, b, c), WordAt(data, p + 56), 0xc33707d6, 9);
    d := Step(G(a, b, c), d, a, WordAt(data, p + 56), 0xc33707d6, 9);
    Mix2(26, d, a, b);
    Next(s, data, p, 26, G(d, a, b), WordAt(data, p + 12), 0xf4d50d87, 14);
    c := Step(G(d, a, b), c, d, WordAt(data, p + 12), 0xf4d50d87, 14);
    Mix2(27, c, d, a);
    Next(s, data, p, 27, G(c, d, a), WordAt(data, p + 32), 0x455a14ed, 20);
    b := Step(G(c, d, a), b, c, WordAt(data, p + 32), 0x455a14ed, 20);
  }

  /** Operations 28 to 31. */
  method Round2Part4(data: seq<bv8>, p: nat, a0: bv32, b0: bv32, c0: bv32, d0: bv32, ghost s: Registers)
    returns (a: bv32, b: bv32, c: bv32, d: bv32)
    requires p + 64 <= |data| && Registers(a0, b0, c0, d0) == Rounds(s, data, p, 28)
    ensures Registers(a, b, c, d) == Rounds(s, data, p, 32)
  {
    hide Rounds, Plus, Sum, Rotate, WordAt, Mix, Constant, Index, Shift, F, G, H, I, Step;
    Parameters2Part4();
    a, b, c, d := a0, b0, c0, d0;
    Mix2(28, b, c, d);
    Next(s, data, p, 28, G(b, c, d), WordAt(data, p + 52), 0xa9e3e905, 5);
    a := Step(G(b, c, d), a, b, WordAt(data, p + 52), 0xa9e3e905, 5);
    Mix2(29, a, b, c);
    Next(s, data, p, 29, G(a, b, c), WordAt(data, p + 8), 0xfcefa3f8, 9);
    d := Step(G(a, b, c), d, a, WordAt(data, p + 8), 0xfcefa3f8, 9);
    Mix2(30, d, a, b);
    Next(s, data, p, 30, G(d, a, b), WordAt(data, p + 28), 0x676f02d9, 14);
    c := Step(G(d, a, b), c, d, WordAt(data, p + 28), 0x676f02d9, 14);
    Mix2(31, c, d, a);
    Next(s, data, p, 31, G(c, d, a), WordAt(data, p + 48), 0x8d2a4c8a, 20);
    b := Step(G(c, d, a), b, c, WordAt(data, p + 48), 0x8d2a4c8a, 20);
  }

  lemma Parameters3Part1()
    ensures Constant(32) == 0xfffa3942 && Index(32) == 5 && Shift(32) == 4
    ensures Constant(33) == 0x8771f681 && Index(33) == 8 && Shift(33) == 11
    ensures Constant(34) == 0x6d9d6122 && Index(34) == 11 && Shift(34) == 16
    ensures Constant(35) == 0xfde5380c && Index(35) == 14 && Shift(35) == 23
  {
  }

  lemma Parameters3Part2()
    ensures Constant(36) == 0xa4beea44 && Index(36) == 1 && Shift(36) == 4
    ensures Constant(37) == 0x4bdecfa9 && Index(37) == 4 && Shift(37) == 11
    ensures Constant(38) == 0xf6bb4b60 && Index(38) == 7 && Shift(38) == 16
    ensures Constant(39) == 0xbebfbc70 && Index(39) == 10 && Shift(39) == 23
  {
  }

  lemma Parameters3Part3()
    ensures Constant(40) == 0x289b7ec6 && Index(40) == 13 && Shift(40) == 4
    ensures Constant(41) == 0xeaa127fa && Index(41) == 0 && Shift(41) == 11
    ensures Constant(42) == 0xd4ef3085 && Index(42) == 3 && Shift(42) == 16
    ensures Constant(43) == 0x04881d05 && Index(43) == 6 && Shift(43) == 23
  {
  }

  lemma Parameters3Part4()
    ensures Constant(44) == 0xd9d4d039 && Index(44) == 9 && Shift(44) == 4
    ensures Constant(45) == 0xe6db99e5 && Index(45) == 12 && Shift(45) == 11
    ensures Constant(46) == 0x1fa27cf8 && Index(46) == 15 && Shift(46) == 16
    ensures Constant(47) == 0xc4ac5665 && Index(47) == 2 && Shift(47) == 23
  {
  }

  lemma Mix3(n: nat, x: bv32, y: bv32, z: bv32)
    requires 32 <= n < 48
    ensures H(x, y, z) == Mix(n, x, y, z)
  {
    SameHI(x, y, z);
  }

  /** Operations 32 to 35. */
  method Round3Part1(data: seq<bv8>, p: nat, a0: bv32, b0: bv32, c0: bv32, d0: bv32, ghost s: Registers)
    returns (a: bv32, b: bv32, c: bv32, d: bv32)
    requires p + 64 <= |data| && Registers(a0, b0, c0, d0) == Rounds(s, data, p, 32)
    ensures Registers(a, b, c, d) == Rounds(s, data, p, 36)
  {
    hide Rounds, Plus, Sum, Rotate, WordAt, Mix, Constant, Index, Shift, F, G, H, I, Step;
    Parameters3Part1();
    a, b, c, d := a0, b0, c0, d0;
    Mix3(32, b, c, d);
    Next(s, data, p, 32, H(b, c, d), WordAt(data, p + 20), 0xfffa3942, 4);
    a := Step(H(b, c, d), a, b, WordAt(data, p + 20), 0xfffa3942, 4);
    Mix3(33, a, b, c);
    Next(s, data, p, 33, H(a, b, c), WordAt(data, p + 32), 0x8771f681, 11);
    d := Step(H(a, b, c), d, a, WordAt(data, p + 32), 0x8771f681, 11);
    Mix3(34, d, a, b);
    Next(s, data, p, 34, H(d, a, b), WordAt(data, p + 44), 0x6d9d6122, 16);
    c := Step(H(d, a, b), c, d, WordAt(data, p + 44), 0x6d9d6122, 16);
    Mix3(35, c, d, a);
    Next(s, data, p, 35, H(c, d, a), WordAt(data, p + 56), 0xfde5380c, 23);
    b := Step(H(c, d, a), b, c, WordAt(data, p + 56), 0xfde5380c, 23);
  }

  /** Operations 36 to 39. */
  method Round3Part2(data: seq<bv8>, p: nat, a0: bv32, b0: bv32, c0: bv32, d0: bv32, ghost s: Registers)
    returns (a: bv32, b: bv32, c: bv32, d: bv32)
    requires p + 64 <= |data| && Registers(a0, b0, c0, d0) == Rounds(s, data, p, 36)
    ensures Registers(a, b, c, d) == Rounds(s, data, p, 40)
  {
    hide Rounds, Plus, Sum, Rotate, WordAt, Mix, Constant, Index, Shift, F, G, H, I, Step;
    Parameters3Part2();
    a, b, c, d := a0, b0, c0, d0;
    Mix3(36, b, c, d);
    Next(s, data, p, 36, H(b, c, d), WordAt(data, p + 4), 0xa4beea44, 4);
    a := Step(H(b, c, d), a, b, WordAt(data, p + 4), 0xa4beea44, 4);
    Mix3(37, a, b, c);
    Next(s, data, p, 37, H(a, b, c), WordAt(data, p + 16), 0x4bdecfa9, 11);
    d := Step(H(a, b, c), d, a, WordAt(data, p + 16), 0x4bdecfa9, 11);
    Mix3(38, d, a, b);
    Next(s, data, p, 38, H(d, a, b), WordAt(data, p + 28), 0xf6bb4b60, 16);
    c := Step(H(d, a, b), c, d, WordAt(data, p + 28), 0xf6bb4b60, 16);
    Mix3(39, c, d, a);
    Next(s, data, p, 39, H(c, d, a), WordAt(data, p + 40), 0xbebfbc70, 23);
    b := Step(H(c, d, a), b, c, WordAt(data, p + 40), 0xbebfbc70, 23);
  }

  /** Operations 40 to 43. */
  method Round3Part3(data: seq<bv8>, p: nat, a0: bv32, b0: bv32, c0: bv32, d0: bv32, ghost s: Registers)
    returns (a: bv32, b: bv32, c: bv32, d: bv32)
    requires p + 64 <= |data| && Registers(a0, b0, c0, d0) == Rounds(s, data, p, 40)
    ensures Registers(a, b, c, d) == Rounds(s, data, p, 44)
  {
    hide Rounds, Plus, Sum, Rotate, WordAt, Mix, Constant, Index, Shift, F, G, H, I, Step;
    Parameters3Part3();
    a, b, c, d := a0, b0, c0, d0;
    Mix3(40, b, c, d);
    Next(s, data, p, 40, H(b, c, d), WordAt(data, p + 52), 0x289b7ec6, 4);
    a := Step(H(b, c, d), a, b, WordAt(data, p + 52), 0x289b7ec6, 4);
    Mix3(41, a, b, c);
    Next(s, data, p, 41, H(a, b, c), WordAt(data, p + 0), 0xeaa127fa, 11);
    d := Step(H(a, b, c), d, a, WordAt(data, p + 0), 0xeaa127fa, 11);
    Mix3(42, d, a, b);
    Next(s, data, p, 42, H(d, a, b), WordAt(data, p + 12), 0xd4ef3085, 16);
    c := Step(H(d, a, b), c, d, WordAt(data, p + 12), 0xd4ef3085, 16);
    Mix3(43, c, d, a);
    Next(s, data, p, 43, H(c, d, a), WordAt(data, p + 24), 0x04881d05, 23);
    b := Step(H(c, d, a), b, c, WordAt(data, p + 24), 0x04881d05, 23);
  }

  /** Operations 44 to 47. */
  method Round3Part4(data: seq<bv8>, p: nat, a0: bv32, b0: bv32, c0: bv32, d0: bv32, ghost s: Registers)
    returns (a: bv32, b: bv32, c: bv32, d: bv32)
    requires p + 64 <= |data| && Registers(a0, b0, c0, d0) == Rounds(s, data, p, 44)
    ensures Registers(a, b, c, d) == Rounds(s, data, p, 48)
  {
    hide Rounds, Plus, Sum, Rotate, WordAt, Mix, Constant, Index, Shift, F, G, H, I, Step;
    Parameters3Part4();
    a, b, c, d := a0, b0, c0, d0;
    Mix3(44, b, c, d);
    Next(s, data, p, 44, H(b, c, d), WordAt(data, p + 36), 0xd9d4d039, 4);
    a := Step(H(b, c, d), a, b, WordAt(data, p + 36), 0xd9d4d039, 4);
    Mix3(45, a, b, c);
    Next(s, data, p, 45, H(a, b, c), WordAt(data, p + 48), 0xe6db99e5, 11);
    d := Step(H(a, b, c), d, a, WordAt(data, p + 48), 0xe6db99e5, 11);
    Mix3(46, d, a, b);
    Next(s, data, p, 46, H(d, a, b), WordAt(data, p + 60), 0x1fa27cf8, 16);
    c := Step(H(d, a, b), c, d, WordAt(data, p + 60), 0x1fa27cf8, 16);
    Mix3(47, c, d, a);
    Next(s, data, p, 47, H(c, d, a), WordAt(data, p + 8), 0xc4ac5665, 23);
    b := Step(H(c, d, a), b, c, WordAt(data, p + 8), 0xc4ac5665, 23);
  }

  lemma Parameters4Part1()
    ensures Constant(48) == 0xf4292244 && Index(48) == 0 && Shift(48) == 6
    ensures Constant(49) == 0x432aff97 && Index(49) == 7 && Shift(49) == 10
    ensures Constant(50) == 0xab9423a7 && Index(50) == 14 && Shift(50) == 15
    ensures Constant(51) == 0xfc93a039 && Index(51) == 5 && Shift(51) == 21
  {
  }

  lemma Parameters4Part2()
    ensures Constant(52) == 0x655b59c3 && Index(52) == 12 && Shift(52) == 6
    ensures Constant(53) == 0x8f0ccc92 && Index(53) == 3 && Shift(53) == 10
    ensures Constant(54) == 0xffeff47d && Index(54) == 10 && Shift(54) == 15
    ensures Constant(55) == 0x85845dd1 && Index(55) == 1 && Shift(55) == 21
  {
  }

  lemma Parameters4Part3()
    ensures Constant(56) == 0x6fa87e4f && Index(56) == 8 && Shift(56) == 6
    ensures Constant(57) == 0xfe2ce6e0 && Index(57) == 15 && Shift(57) == 10
    ensures Constant(58) == 0xa3014314 && Index(58) == 6 && Shift(58) == 15
    ensures Constant(59) == 0x4e0811a1 && Index(59) == 13 && Shift(59) == 21
  {
  }

  lemma Parameters4Part4()
    ensures Constant(60) == 0xf7537e82 && Index(60) == 4 && Shift(60) == 6
    ensures Constant(61) == 0xbd3af235 && Index(61) == 11 && Shift(61) == 10
    ensures Constant(62) == 0x2ad7d2bb && Index(62) == 2 && Shift(62) == 15
    ensures Constant(63) == 0xeb86d391 && Index(63) == 9 && Shift(63) == 21
  {
  }

  lemma Mix4(n: nat, x: bv32, y: bv32, z: bv32)
    requires 48 <= n < 64
    ensures I(x, y, z) == Mix(n, x, y, z)
  {
    SameHI(x, y, z);
  }

  /** Operations 48 to 51. */
  method Round4Part1(data: seq<bv8>, p: nat, a0: bv32, b0: bv32, c0: bv32, d0: bv32, ghost s: Registers)
    returns (a: bv32, b: bv32, c: bv32, d: bv32)
    requires p + 64 <= |data| && Registers(a0, b0, c0, d0) == Rounds(s, data, p, 48)
    ensures Registers(a, b, c, d) == Rounds(s, data, p, 52)
  {
    hide Rounds, Plus, Sum, Rotate, WordAt, Mix, Constant, Index, Shift, F, G, H, I, Step;
    Parameters4Part1();
    a, b, c, d := a0, b0, c0, d0;
    Mix4(48, b, c, d);
    Next(s, data, p, 48, I(b, c, d), WordAt(data, p + 0), 0xf4292244, 6);
    a := Step(I(b, c, d), a, b, WordAt(data, p + 0), 0xf4292244, 6);
    Mix4(49, a, b, c);
    Next(s, data, p, 49, I(a, b, c), WordAt(data, p + 28), 0x432aff97, 10);
    d := Step(I(a, b, c), d, a, WordAt(data, p + 28), 0x432aff97, 10);
    Mix4(50, d, a, b);
    Next(s, data, p, 50, I(d, a, b), WordAt(data, p + 56), 0xab9423a7, 15);
    c := Step(I(d, a, b), c, d, WordAt(data, p + 56), 0xab9423a7, 15);
    Mix4(51, c, d, a);
    Next(s, data, p, 51, I(c, d, a), WordAt(data, p + 20), 0xfc93a039, 21);
    b := Step(I(c, d, a), b, c, WordAt(data, p + 20), 0xfc93a039, 21);
  }

  /** Operations 52 to 55. */
  method Round4Part2(data: seq<bv8>, p: nat, a0: bv32, b0: bv32, c0: bv32, d0: bv32, ghost s: Registers)
    returns (a: bv32, b: bv32, c: bv32, d: bv32)
    requires p + 64 <= |data| && Registers(a0, b0, c0, d0) == Rounds(s, data, p, 52)
    ensures Registers(a, b, c, d) == Rounds(s, data, p, 56)
  {
    hide Rounds, Plus, Sum, Rotate, WordAt, Mix, Constant, Index, Shift, F, G, H, I, Step;
    Parameters4Part2();
    a, b, c, d := a0, b0, c0, d0;
    Mix4(52, b, c, d);
    Next(s, data, p, 52, I(b, c, d), WordAt(data, p + 48), 0x655b59c3, 6);
    a := Step(I(b, c, d), a, b, WordAt(data, p + 48), 0x655b59c3, 6);
    Mix4(53, a, b, c);
    Next(s, data, p, 53, I(a, b, c), WordAt(data, p + 12), 0x8f0ccc92, 10);
    d := Step(I(a, b, c), d, a, WordAt(data, p + 12), 0x8f0ccc92, 10);
    Mix4(54, d, a, b);
    Next(s, data, p, 54, I(d, a, b), WordAt(data, p + 40), 0xffeff47d, 15);
    c := Step(I(d, a, b), c, d, WordAt(data, p + 40), 0xffeff47d, 15);
    Mix4(55, c, d, a);
    Next(s, data, p, 55, I(c, d, a), WordAt(data, p + 4), 0x85845dd1, 21);
    b := Step(I(c, d, a), b, c, WordAt(data, p + 4), 0x85845dd1, 21);
  }

  /** Operations 56 to 59. */
  method Round4Part3(data: seq<bv8>, p: nat, a0: bv32, b0: bv32, c0: bv32, d0: bv32, ghost s: Registers)
    returns (a: bv32, b: bv32, c: bv32, d: bv32)
    requires p + 64 <= |data| && Registers(a0, b0, c0, d0) == Rounds(s, data, p, 56)
    ensures Registers(a, b, c, d) == Rounds(s, data, p, 60)
  {
    hide Rounds, Plus, Sum, Rotate, WordAt, Mix, Constant, Index, Shift, F, G, H, I, Step;
    Parameters4Part3();
    a, b, c, d := a0, b0, c0, d0;
    Mix4(56, b, c, d);
    Next(s, data, p, 56, I(b, c, d), WordAt(data, p + 32), 0x6fa87e4f, 6);
    a := Step(I(b, c, d), a, b, WordAt(data, p + 32), 0x6fa87e4f, 6);
    Mix4(57, a, b, c);
    Next(s, data, p, 57, I(a, b, c), WordAt(data, p + 60), 0xfe2ce6e0, 10);
    d := Step(I(a, b, c), d, a, WordAt(data, p + 60), 0xfe2ce6e0, 10);
    Mix4(58, d, a, b);
    Next(s, data, p, 58, I(d, a, b), WordAt(data, p + 24), 0xa3014314, 15);
    c := Step(I(d, a, b), c, d, WordAt(data, p + 24), 0xa3014314, 15);
    Mix4(59, c, d, a);
    Next(s, data, p, 59, I(c, d, a), WordAt(data, p + 52), 0x4e0811a1, 21);
    b := Step(I(c, d, a), b, c, WordAt(data, p + 52), 0x4e0811a1, 21);
  }

  /** Operations 60 to 63. */
  method Round4Part4(data: seq<bv8>, p: nat, a0: bv32, b0: bv32, c0: bv32, d0: bv32, ghost s: Registers)
    returns (a: bv32, b: bv32, c: bv32, d: bv32)
    requires p + 64 <= |data| && Registers(a0, b0, c0, d0) == Rounds(s, data, p, 60)
    ensures Registers(a, b, c, d) == Rounds(s, data, p, 64)
  {
    hide Rounds, Plus, Sum, Rotate, WordAt, Mix, Constant, Index, Shift, F, G, H, I, Step;
    Parameters4Part4();
    a, b, c, d := a0, b0, c0, d0;
    Mix4(60, b, c, d);
    Next(s, data, p, 60, I(b, c, d), WordAt(data, p + 16), 0xf7537e82, 6);
    a := Step(I(b, c, d), a, b, WordAt(data, p + 16), 0xf7537e82, 6);
    Mix4(61, a, b, c);
    Next(s, data, p, 61, I(a, b, c), WordAt(data, p + 44), 0xbd3af235, 10);
    d := Step(I(a, b, c), d, a, WordAt(data, p + 44), 0xbd3af235, 10);
    Mix4(62, d, a, b);
    Next(s, data, p, 62, I(d, a, b), WordAt(data, p + 8), 0x2ad7d2bb, 15);
    c := Step(I(d, a, b), c, d, WordAt(data, p + 8), 0x2ad7d2bb, 15);
    Mix4(63, c, d, a);
    Next(s, data, p, 63, I(c, d, a), WordAt(data, p + 36), 0xeb86d391, 21);
    b := Step(I(c, d, a), b, c, WordAt(data, p + 36), 0xeb86d391, 21);
  }
}
