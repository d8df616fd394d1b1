/** The digest of "abc", as appendix A.5 of RFC 1321 gives it. */
module Md5Example {
  import opened Md5Rounds
  import opened Md5

  const ABC: seq<bv8> := [0x61, 0x62, 0x63]

  /** The words of the one block: the message with its one bit, and its length of 24 bits. */
  function WordOf(k: nat): bv32 {
    if k == 0 then 0x80636261 else if k == 14 then 24 else 0
  }

  lemma BlockIs()
    ensures |Padded(ABC)| == 64
    ensures forall k :: 0 <= k < 64 ==>
      Padded(ABC)[k] == if k < 3 then ABC[k] else if k == 3 then 0x80 else if k == 56 then 24 else 0
  {
    assert LengthBytes(24)[0] == 24;
    forall k | 1 <= k < 8 ensures LengthBytes(24)[k] == 0 { SmallLength(k); }
  }

  lemma {:induction false} SmallLength(k: nat)
    requires k > 0
    ensures LengthByte(24, k) == 0
  {
    NoLength(k - 1);
  }

  lemma {:induction false} NoLength(k: nat)
    ensures LengthByte(0, k) == 0
  {
    if k > 0 { NoLength(k - 1); }
  }

  lemma JoinZero()
    ensures Join(0, 0, 0, 0) == 0 && Join(24, 0, 0, 0) == 24 && Join(0x61, 0x62, 0x63, 0x80) == 0x80636261
  {
  }

  lemma WordIs(k: nat)
    requires k < 16
    ensures |Padded(ABC)| == 64 && WordAt(Padded(ABC), 4 * k) == WordOf(k)
  {
    hide Padded, Join;
    BlockIs();
    JoinZero();
  }

  /** One operation on registers that are known. */
  lemma Operation(n: nat, r: Registers, f: bv32, x: bv32, t: bv32, s: nat, b: bv32)
    requires n < 64 && |Padded(ABC)| == 64 && Rounds(INIT, Padded(ABC), 0, n) == r && 0 < s < 32
    requires Shift(n) == s && Constant(n) == t && WordOf(Index(n)) == x
    requires Mix(n, r.b, r.c, r.d) == f && Plus(r.b, Rotate(DefSum(r.a, f, x, t), s)) == b
    ensures Rounds(INIT, Padded(ABC), 0, n + 1) == Registers(r.d, b, r.b, r.c)
  {
    hide Padded, WordOf, DefSum, Mix, Rotate, Plus, Constant, Shift, Index;
    WordIs(Index(n));
  }

  lemma Bits1()
    ensures DefF(0xefcdab89, 0x98badcfe, 0x10325476) == 0x98badcfe
    ensures Plus(0xefcdab89, Rotate(DefSum(0x67452301, 0x98badcfe, 0x80636261, 0xd76aa478), 7)) == 0xd6d117b4
    ensures DefF(0xd6d117b4, 0xefcdab89, 0x98badcfe) == 0xceebcbca
    ensures Plus(0xd6d117b4, Rotate(DefSum(0x10325476, 0xceebcbca, 0x00000000, 0xe8c7b756), 12)) == 0x344a8432
    ensures DefF(0x344a8432, 0xd6d117b4, 0xefcdab89) == 0xdfc52fb9
    ensures Plus(0x344a8432, Rotate(DefSum(0x98badcfe, 0xdfc52fb9, 0x00000000, 0x242070db), 17)) == 0x2f6fbd72
    ensures DefF(0x2f6fbd72, 0x344a8432, 0xd6d117b4) == 0xf4da86b6
    ensures Plus(0x2f6fbd72, Rotate(DefSum(0xefcdab89, 0xf4da86b6, 0x00000000, 0xc1bdceee), 22)) == 0x7ad956f2
  {
  }

  lemma Operations1()
    requires |Padded(ABC)| == 64
    requires Rounds(INIT, Padded(ABC), 0, 0) == Registers(0x67452301, 0xefcdab89, 0x98badcfe, 0x10325476)
    ensures Rounds(INIT, Padded(ABC), 0, 4) == Registers(0xd6d117b4, 0x7ad956f2, 0x2f6fbd72, 0x344a8432)
  {
    hide Rounds, Padded, Plus, Rotate, DefSum, DefF, DefG, DefH, DefI;
    Bits1();
    Operation(0, Registers(0x67452301, 0xefcdab89, 0x98badcfe, 0x10325476),
              0x98badcfe, 0x80636261, 0xd76aa478, 7, 0xd6d117b4);
    Operation(1, Registers(0x10325476, 0xd6d117b4, 0xefcdab89, 0x98badcfe),
              0xceebcbca, 0x00000000, 0xe8c7b756, 12, 0x344a8432);
    Operation(2, Registers(0x98badcfe, 0x344a8432, 0xd6d117b4, 0xefcdab89),
              0xdfc52fb9, 0x00000000, 0x242070db, 17, 0x2f6fbd72);
    Operation(3, Registers(0xefcdab89, 0x2f6fbd72, 0x344a8432, 0xd6d117b4),
              0xf4da86b6, 0x00000000, 0xc1bdceee, 22, 0x7ad956f2);
  }

  lemma Bits2()
    ensures DefF(0x7ad956f2, 0x2f6fbd72, 0x344a8432) == 0x2e4b9472
    ensures Plus(0x7ad956f2, Rotate(DefSum(0xd6d117b4, 0x2e4b9472, 0x00000000, 0xf57c0faf), 7)) == 0xc73741ef
    ensures DefF(0xc73741ef, 0x7ad956f2, 0x2f6fbd72) == 0x6a59fcf2
    ensures Plus(0xc73741ef, Rotate(DefSum(0x344a8432, 0x6a59fcf2, 0x00000000, 0x4787c62a), 12)) == 0x8bac3051
    ensures DefF(0x8bac3051, 0xc73741ef, 0x7ad956f2) == 0xf37546e3
    ensures Plus(0x8bac3051, Rotate(DefSum(0x2f6fbd72, 0xf37546e3, 0x00000000, 0xa8304613), 17)) == 0x207dc67b
    ensures DefF(0x207dc67b, 0x8bac3051, 0xc73741ef) == 0xc72e01d5
    ensures Plus(0x207dc67b, Rotate(DefSum(0x7ad956f2, 0xc72e01d5, 0x00000000, 0xfd469501), 22)) == 0x928d99f6
  {
  }

  lemma Operations2()
    requires |Padded(ABC)| == 64
    requires Rounds(INIT, Padded(ABC), 0, 4) == Registers(0xd6d117b4, 0x7ad956f2, 0x2f6fbd72, 0x344a8432)
    ensures Rounds(INIT, Padded(ABC), 0, 8) == Registers(0xc73741ef, 0x928d99f6, 0x207dc67b, 0x8bac3051)
  {
    hide Rounds, Padded, Plus, Rotate, DefSum, DefF, DefG, DefH, DefI;
    Bits2();
    Operation(4, Registers(0xd6d117b4, 0x7ad956f2, 0x2f6fbd72, 0x344a8432),
              0x2e4b9472, 0x00000000, 0xf57c0faf, 7, 0xc73741ef);
    Operation(5, Registers(0x344a8432, 0xc73741ef, 0x7ad956f2, 0x2f6fbd72),
              0x6a59fcf2, 0x00000000, 0x4787c62a, 12, 0x8bac3051);
    Operation(6, Registers(0x2f6fbd72, 0x8bac3051, 0xc73741ef, 0x7ad956f2),
              0xf37546e3, 0x00000000, 0xa8304613, 17, 0x207dc67b);
    Operation(7, Registers(0x7ad956f2, 0x207dc67b, 0x8bac3051, 0xc73741ef),
              0xc72e01d5, 0x00000000, 0xfd469501, 22, 0x928d99f6);
  }

  lemma Bits3()
    ensures DefF(0x928d99f6, 0x207dc67b, 0x8bac3051) == 0x092da073
    ensures Plus(0x928d99f6, Rotate(DefSum(0xc73741ef, 0x092da073, 0x00000000, 0x698098d8), 7)) == 0x854b3712
    ensures DefF(0x854b3712, 0x928d99f6, 0x207dc67b) == 0xa03dd17b
    ensures Plus(0x854b3712, Rotate(DefSum(0x8bac3051, 0xa03dd17b, 0x00000000, 0x8b44f7af), 12)) == 0x74e2f284
    ensures DefF(0x74e2f284, 0x854b3712, 0x928d99f6) == 0x864f3b72
    ensures Plus(0x74e2f284, Rotate(DefSum(0x207dc67b, 0x864f3b72, 0x00000000, 0xffff5bb1), 17)) == 0x3020401c
    ensures DefF(0x3020401c, 0x74e2f284, 0x854b3712) == 0xb56b7706
    ensures Plus(0x3020401c, Rotate(DefSum(0x928d99f6, 0xb56b7706, 0x00000000, 0x895cd7be), 22)) == 0x5ed49596
  {
  }

  lemma Operations3()
    requires |Padded(ABC)| == 64
    requires Rounds(INIT, Padded(ABC), 0, 8) == Registers(0xc73741ef, 0x928d99f6, 0x207dc67b, 0x8bac3051)
    ensures Rounds(INIT, Padded(ABC), 0, 12) == Registers(0x854b3712, 0x5ed49596, 0x3020401c, 0x74e2f284)
  {
    hide Rounds, Padded, Plus, Rotate, DefSum, DefF, DefG, DefH, DefI;
    Bits3();
    Operation(8, Registers(0xc73741ef, 0x928d99f6, 0x207dc67b, 0x8bac3051),
              0x092da073, 0x00000000, 0x698098d8, 7, 0x854b3712);
    Operation(9, Registers(0x8bac3051, 0x854b3712, 0x928d99f6, 0x207dc67b),
              0xa03dd17b, 0x00000000, 0x8b44f7af, 12, 0x74e2f284);
    Operation(10, Registers(0x207dc67b, 0x74e2f284, 0x854b3712, 0x928d99f6),
              0x864f3b72, 0x00000000, 0xffff5bb1, 17, 0x3020401c);
    Operation(11, Registers(0x928d99f6, 0x3020401c, 0x74e2f284, 0x854b3712),
              0xb56b7706, 0x00000000, 0x895cd7be, 22, 0x5ed49596);
  }

  lemma Bits4()
    ensures DefF(0x5ed49596, 0x3020401c, 0x74e2f284) == 0x30226214
    ensures Plus(0x5ed49596, Rotate(DefSum(0x854b3712, 0x30226214, 0x00000000, 0x6b901122), 7)) == 0xdda9b9a6
    ensures DefF(0xdda9b9a6, 0x5ed49596, 0x3020401c) == 0x7c80d19e
    ensures Plus(0xdda9b9a6, Rotate(DefSum(0x74e2f284, 0x7c80d19e, 0x00000000, 0xfd987193), 12)) == 0xa1051895
    ensures DefF(0xa1051895, 0xdda9b9a6, 0x5ed49596) == 0xdfd19d86
    ensures Plus(0xa1051895, Rotate(DefSum(0x3020401c, 0xdfd19d86, 0x00000018, 0xa679438e), 17)) == 0xe396856b
    ensures DefF(0xe396856b, 0xa1051895, 0xdda9b9a6) == 0xbd2d3885
    ensures Plus(0xe396856b, Rotate(DefSum(0x5ed49596, 0xbd2d3885, 0x00000000, 0x49b40821), 22)) == 0x72aff2e0
  {
  }

  lemma Operations4()
    requires |Padded(ABC)| == 64
    requires Rounds(INIT, Padded(ABC), 0, 12) == Registers(0x854b3712, 0x5ed49596, 0x3020401c, 0x74e2f284)
    ensures Rounds(INIT, Padded(ABC), 0, 16) == Registers(0xdda9b9a6, 0x72aff2e0, 0xe396856b, 0xa1051895)
  {
    hide Rounds, Padded, Plus, Rotate, DefSum, DefF, DefG, DefH, DefI;
    Bits4();
    Operation(12, Registers(0x854b3712, 0x5ed49596, 0x3020401c, 0x74e2f284),
              0x30226214, 0x00000000, 0x6b901122, 7, 0xdda9b9a6);
    Operation(13, Registers(0x74e2f284, 0xdda9b9a6, 0x5ed49596, 0x3020401c),
              0x7c80d19e, 0x00000000, 0xfd987193, 12, 0xa1051895);
    Operation(14, Registers(0x3020401c, 0xa1051895, 0xdda9b9a6, 0x5ed49596),
              0xdfd19d86, 0x00000018, 0xa679438e, 17, 0xe396856b);
    Operation(15, Registers(0x5ed49596, 0xe396856b, 0xa1051895, 0xdda9b9a6),
              0xbd2d3885, 0x00000000, 0x49b40821, 22, 0x72aff2e0);
  }

  lemma Bits5()
    ensures DefG(0x72aff2e0, 0xe396856b, 0xa1051895) == 0x629795ea
    ensures Plus(0x72aff2e0, Rotate(DefSum(0xdda9b9a6, 0x629795ea, 0x00000000, 0xf61e2562), 5)) == 0x3e9e9126
    ensures DefG(0x3e9e9126, 0x72aff2e0, 0xe396856b) == 0x32bff3a2
    ensures Plus(0x3e9e9126, Rotate(DefSum(0xa1051895, 0x32bff3a2, 0x00000000, 0xc040b340), 9)) == 0x4a1d804e
    ensures DefG(0x4a1d804e, 0x3e9e9126, 0x72aff2e0) == 0x4e1d8146
    ensures Plus(0x4a1d804e, Rotate(DefSum(0xe396856b, 0x4e1d8146, 0x00000000, 0x265e5a51), 14)) == 0xe25e1652
    ensures DefG(0xe25e1652, 0x4a1d804e, 0x3e9e9126) == 0x621f104a
    ensures Plus(0xe25e1652, Rotate(DefSum(0x72aff2e0, 0x621f104a, 0x80636261, 0xe9b6c7aa), 20)) == 0xb5b204e4
  {
  }

  lemma Operations5()
    requires |Padded(ABC)| == 64
    requires Rounds(INIT, Padded(ABC), 0, 16) == Registers(0xdda9b9a6, 0x72aff2e0, 0xe396856b, 0xa1051895)
    ensures Rounds(INIT, Padded(ABC), 0, 20) == Registers(0x3e9e9126, 0xb5b204e4, 0xe25e1652, 0x4a1d804e)
  {
    hide Rounds, Padded, Plus, Rotate, DefSum, DefF, DefG, DefH, DefI;
    Bits5();
    Operation(16, Registers(0xdda9b9a6, 0x72aff2e0, 0xe396856b, 0xa1051895),
              0x629795ea, 0x00000000, 0xf61e2562, 5, 0x3e9e9126);
    Operation(17, Registers(0xa1051895, 0x3e9e9126, 0x72aff2e0, 0xe396856b),
              0x32bff3a2, 0x00000000, 0xc040b340, 9, 0x4a1d804e);
    Operation(18, Registers(0xe396856b, 0x4a1d804e, 0x3e9e9126, 0x72aff2e0),
              0x4e1d8146, 0x00000000, 0x265e5a51, 14, 0xe25e1652);
    Operation(19, Registers(0x72aff2e0, 0xe25e1652, 0x4a1d804e, 0x3e9e9126),
              0x621f104a, 0x80636261, 0xe9b6c7aa, 20, 0xb5b204e4);
  }

  lemma Bits6()
    ensures DefG(0xb5b204e4, 0xe25e1652, 0x4a1d804e) == 0xa0521654
    ensures Plus(0xb5b204e4, Rotate(DefSum(0x3e9e9126, 0xa0521654, 0x00000000, 0xd62f105d), 5)) == 0x59a8ffda
    ensures DefG(0x59a8ffda, 0xb5b204e4, 0xe25e1652) == 0x55a816f6
    ensures Plus(0x59a8ffda, Rotate(DefSum(0x4a1d804e, 0x55a816f6, 0x00000000, 0x02441453), 9)) == 0x6d002f1e
    ensures DefG(0x6d002f1e, 0x59a8ffda, 0xb5b204e4) == 0x6d08ff1e
    ensures Plus(0x6d002f1e, Rotate(DefSum(0xe25e1652, 0x6d08ff1e, 0x00000000, 0xd8a1e681), 14)) == 0xabfc7920
    ensures DefG(0xabfc7920, 0x6d002f1e, 0x59a8ffda) == 0x2da87904
    ensures Plus(0xabfc7920, Rotate(DefSum(0xb5b204e4, 0x2da87904, 0x00000000, 0xe7d3fbc8), 20)) == 0x47092c07
  {
  }

  lemma Operations6()
    requires |Padded(ABC)| == 64
    requires Rounds(INIT, Padded(ABC), 0, 20) == Registers(0x3e9e9126, 0xb5b204e4, 0xe25e1652, 0x4a1d804e)
    ensures Rounds(INIT, Padded(ABC), 0, 24) == Registers(0x59a8ffda, 0x47092c07, 0xabfc7920, 0x6d002f1e)
  {
    hide Rounds, Padded, Plus, Rotate, DefSum, DefF, DefG, DefH, DefI;
    Bits6();
    Operation(20, Registers(0x3e9e9126, 0xb5b204e4, 0xe25e1652, 0x4a1d804e),
              0xa0521654, 0x00000000, 0xd62f105d, 5, 0x59a8ffda);
    Operation(21, Registers(0x4a1d804e, 0x59a8ffda, 0xb5b204e4, 0xe25e1652),
              0x55a816f6, 0x00000000, 0x02441453, 9, 0x6d002f1e);
    Operation(22, Registers(0xe25e1652, 0x6d002f1e, 0x59a8ffda, 0xb5b204e4),
              0x6d08ff1e, 0x00000000, 0xd8a1e681, 14, 0xabfc7920);
    Operation(23, Registers(0xb5b204e4, 0xabfc7920, 0x6d002f1e, 0x59a8ffda),
              0x2da87904, 0x00000000, 0xe7d3fbc8, 20, 0x47092c07);
  }

  lemma Bits7()
    ensures DefG(0x47092c07, 0xabfc7920, 0x6d002f1e) == 0xc7fc7c26
    ensures Plus(0x47092c07, Rotate(DefSum(0x59a8ffda, 0xc7fc7c26, 0x00000000, 0x21e1cde6), 5)) == 0xb7f268cf
    ensures DefG(0xb7f268cf, 0x47092c07, 0xabfc7920) == 0xe7f16c07
    ensures Plus(0xb7f268cf, Rotate(DefSum(0x6d002f1e, 0xe7f16c07, 0x00000018, 0xc33707d6), 9)) == 0x09388eff
    ensures DefG(0x09388eff, 0xb7f268cf, 0x47092c07) == 0xb1fa4ccf
    ensures Plus(0x09388eff, Rotate(DefSum(0xabfc7920, 0xb1fa4ccf, 0x00000000, 0xf4d50d87), 14)) == 0xfe1623b1
    ensures DefG(0xfe1623b1, 0x09388eff, 0xb7f268cf) == 0xbe1aa6b1
    ensures Plus(0xfe1623b1, Rotate(DefSum(0x47092c07, 0xbe1aa6b1, 0x00000000, 0x455a14ed), 20)) == 0x786acb8f
  {
  }

  lemma Operations7()
    requires |Padded(ABC)| == 64
    requires Rounds(INIT, Padded(ABC), 0, 24) == Registers(0x59a8ffda, 0x47092c07, 0xabfc7920, 0x6d002f1e)
    ensures Rounds(INIT, Padded(ABC), 0, 28) == Registers(0xb7f268cf, 0x786acb8f, 0xfe1623b1, 0x09388eff)
  {
    hide Rounds, Padded, Plus, Rotate, DefSum, DefF, DefG, DefH, DefI;
    Bits7();
    Operation(24, Registers(0x59a8ffda, 0x47092c07, 0xabfc7920, 0x6d002f1e),
              0xc7fc7c26, 0x00000000, 0x21e1cde6, 5, 0xb7f268cf);
    Operation(25, Registers(0x6d002f1e, 0xb7f268cf, 0x47092c07, 0xabfc7920),
              0xe7f16c07, 0x00000018, 0xc33707d6, 9, 0x09388eff);
    Operation(26, Registers(0xabfc7920, 0x09388eff, 0xb7f268cf, 0x47092c07),
              0xb1fa4ccf, 0x00000000, 0xf4d50d87, 14, 0xfe1623b1);
    Operation(27, Registers(0x47092c07, 0xfe1623b1, 0x09388eff, 0xb7f268cf),
              0xbe1aa6b1, 0x00000000, 0x455a14ed, 20, 0x786acb8f);
  }

  lemma Bits8()
    ensures DefG(0x786acb8f, 0xfe1623b1, 0x09388eff) == 0xfe2eab8f
    ensures Plus(0x786acb8f, Rotate(DefSum(0xb7f268cf, 0xfe2eab8f, 0x00000000, 0xa9e3e905), 5)) == 0x790a77fb
    ensures DefG(0x790a77fb, 0x786acb8f, 0xfe1623b1) == 0x786aebbf
    ensures Plus(0x790a77fb, Rotate(DefSum(0x09388eff, 0x786aebbf, 0x00000000, 0xfcefa3f8), 9)) == 0x9f47e4f8
    ensures DefG(0x9f47e4f8, 0x790a77fb, 0x786acb8f) == 0x1942f4f8
    ensures Plus(0x9f47e4f8, Rotate(DefSum(0xfe1623b1, 0x1942f4f8, 0x00000000, 0x676f02d9), 14)) == 0xa62884aa
    ensures DefG(0xa62884aa, 0x9f47e4f8, 0x790a77fb) == 0xa64d84aa
    ensures Plus(0xa62884aa, Rotate(DefSum(0x786acb8f, 0xa64d84aa, 0x00000000, 0x8d2a4c8a), 20)) == 0x726342d3
  {
  }

  lemma Operations8()
    requires |Padded(ABC)| == 64
    requires Rounds(INIT, Padded(ABC), 0, 28) == Registers(0xb7f268cf, 0x786acb8f, 0xfe1623b1, 0x09388eff)
    ensures Rounds(INIT, Padded(ABC), 0, 32) == Registers(0x790a77fb, 0x726342d3, 0xa62884aa, 0x9f47e4f8)
  {
    hide Rounds, Padded, Plus, Rotate, DefSum, DefF, DefG, DefH, DefI;
    Bits8();
    Operation(28, Registers(0xb7f268cf, 0x786acb8f, 0xfe1623b1, 0x09388eff),
              0xfe2eab8f, 0x00000000, 0xa9e3e905, 5, 0x790a77fb);
    Operation(29, Registers(0x09388eff, 0x790a77fb, 0x786acb8f, 0xfe1623b1),
              0x786aebbf, 0x00000000, 0xfcefa3f8, 9, 0x9f47e4f8);
    Operation(30, Registers(0xfe1623b1, 0x9f47e4f8, 0x790a77fb, 0x786acb8f),
              0x1942f4f8, 0x00000000, 0x676f02d9, 14, 0xa62884aa);
    Operation(31, Registers(0x786acb8f, 0xa62884aa, 0x9f47e4f8, 0x790a77fb),
              0xa64d84aa, 0x00000000, 0x8d2a4c8a, 20, 0x726342d3);
  }

  lemma Bits9()
    ensures DefH(0x726342d3, 0xa62884aa, 0x9f47e4f8) == 0x4b0c2281
    ensures Plus(0x726342d3, Rotate(DefSum(0x790a77fb, 0x4b0c2281, 0x00000000, 0xfffa3942), 4)) == 0xb3707ebf
    ensures DefH(0xb3707ebf, 0x726342d3, 0xa62884aa) == 0x673bb8c6
    ensures Plus(0xb3707ebf, Rotate(DefSum(0x9f47e4f8, 0x673bb8c6, 0x00000000, 0x8771f681), 11)) == 0x60127b2e
    ensures DefH(0x60127b2e, 0xb3707ebf, 0x726342d3) == 0xa1014742
    ensures Plus(0x60127b2e, Rotate(DefSum(0xa62884aa, 0xa1014742, 0x00000000, 0x6d9d6122), 16)) == 0x8d212ff5
    ensures DefH(0x8d212ff5, 0x60127b2e, 0xb3707ebf) == 0x5e432a64
    ensures Plus(0x8d212ff5, Rotate(DefSum(0x726342d3, 0x5e432a64, 0x00000018, 0xfde5380c), 23)) == 0x3b0875c7
  {
  }

  lemma Operations9()
    requires |Padded(ABC)| == 64
    requires Rounds(INIT, Padded(ABC), 0, 32) == Registers(0x790a77fb, 0x726342d3, 0xa62884aa, 0x9f47e4f8)
    ensures Rounds(INIT, Padded(ABC), 0, 36) == Registers(0xb3707ebf, 0x3b0875c7, 0x8d212ff5, 0x60127b2e)
  {
    hide Rounds, Padded, Plus, Rotate, DefSum, DefF, DefG, DefH, DefI;
    Bits9();
    Operation(32, Registers(0x790a77fb, 0x726342d3, 0xa62884aa, 0x9f47e4f8),
              0x4b0c2281, 0x00000000, 0xfffa3942, 4, 0xb3707ebf);
    Operation(33, Registers(0x9f47e4f8, 0xb3707ebf, 0x726342d3, 0xa62884aa),
              0x673bb8c6, 0x00000000, 0x8771f681, 11, 0x60127b2e);
    Operation(34, Registers(0xa62884aa, 0x60127b2e, 0xb3707ebf, 0x726342d3),
              0xa1014742, 0x00000000, 0x6d9d6122, 16, 0x8d212ff5);
    Operation(35, Registers(0x726342d3, 0x8d212ff5, 0x60127b2e, 0xb3707ebf),
              0x5e432a64, 0x00000018, 0xfde5380c, 23, 0x3b0875c7);
  }

  lemma Bits10()
    ensures DefH(0x3b0875c7, 0x8d212ff5, 0x60127b2e) == 0xd63b211c
    ensures Plus(0x3b0875c7, Rotate(DefSum(0xb3707ebf, 0xd63b211c, 0x00000000, 0xa4beea44), 4)) == 0x21b117b9
    ensures DefH(0x21b117b9, 0x3b0875c7, 0x8d212ff5) == 0x97984d8b
    ensures Plus(0x21b117b9, Rotate(DefSum(0x60127b2e, 0x97984d8b, 0x00000000, 0x4bdecfa9), 11)) == 0x6e7429d5
    ensures DefH(0x6e7429d5, 0x21b117b9, 0x3b0875c7) == 0x74cd4bab
    ensures Plus(0x6e7429d5, Rotate(DefSum(0x8d212ff5, 0x74cd4bab, 0x00000000, 0xf6bb4b60), 16)) == 0x3575227e
    ensures DefH(0x3575227e, 0x6e7429d5, 0x21b117b9) == 0x7ab01c12
    ensures Plus(0x3575227e, Rotate(DefSum(0x3b0875c7, 0x7ab01c12, 0x00000000, 0xbebfbc70), 23)) == 0x5a2f5ea5
  {
  }

  lemma Operations10()
    requires |Padded(ABC)| == 64
    requires Rounds(INIT, Padded(ABC), 0, 36) == Registers(0xb3707ebf, 0x3b0875c7, 0x8d212ff5, 0x60127b2e)
    ensures Rounds(INIT, Padded(ABC), 0, 40) == Registers(0x21b117b9, 0x5a2f5ea5, 0x3575227e, 0x6e7429d5)
  {
    hide Rounds, Padded, Plus, Rotate, DefSum, DefF, DefG, DefH, DefI;
    Bits10();
    Operation(36, Registers(0xb3707ebf, 0x3b0875c7, 0x8d212ff5, 0x60127b2e),
              0xd63b211c, 0x00000000, 0xa4beea44, 4, 0x21b117b9);
    Operation(37, Registers(0x60127b2e, 0x21b117b9, 0x3b0875c7, 0x8d212ff5),
              0x97984d8b, 0x00000000, 0x4bdecfa9, 11, 0x6e7429d5);
    Operation(38, Registers(0x8d212ff5, 0x6e7429d5, 0x21b117b9, 0x3b0875c7),
              0x74cd4bab, 0x00000000, 0xf6bb4b60, 16, 0x3575227e);
    Operation(39, Registers(0x3b0875c7, 0x3575227e, 0x6e7429d5, 0x21b117b9),
              0x7ab01c12, 0x00000000, 0xbebfbc70, 23, 0x5a2f5ea5);
  }

  lemma Bits11()
    ensures DefH(0x5a2f5ea5, 0x3575227e, 0x6e7429d5) == 0x012e550e
    ensures Plus(0x5a2f5ea5, Rotate(DefSum(0x21b117b9, 0x012e550e, 0x00000000, 0x289b7ec6), 4)) == 0x11de1779
    ensures DefH(0x11de1779, 0x5a2f5ea5, 0x3575227e) == 0x7e846ba2
    ensures Plus(0x11de1779, Rotate(DefSum(0x6e7429d5, 0x7e846ba2, 0x80636261, 0xeaa127fa), 11)) == 0xfadcaa38
    ensures DefH(0xfadcaa38, 0x11de1779, 0x5a2f5ea5) == 0xb12de3e4
    ensures Plus(0xfadcaa38, Rotate(DefSum(0x3575227e, 0xb12de3e4, 0x00000000, 0xd4ef3085), 16)) == 0x31c465ca
    ensures DefH(0x31c465ca, 0xfadcaa38, 0x11de1779) == 0xdac6d88b
    ensures Plus(0x31c465ca, Rotate(DefSum(0x5a2f5ea5, 0xdac6d88b, 0x00000000, 0x04881d05), 23)) == 0x4c6124f4
  {
  }

  lemma Operations11()
    requires |Padded(ABC)| == 64
    requires Rounds(INIT, Padded(ABC), 0, 40) == Registers(0x21b117b9, 0x5a2f5ea5, 0x3575227e, 0x6e7429d5)
    ensures Rounds(INIT, Padded(ABC), 0, 44) == Registers(0x11de1779, 0x4c6124f4, 0x31c465ca, 0xfadcaa38)
  {
    hide Rounds, Padded, Plus, Rotate, DefSum, DefF, DefG, DefH, DefI;
    Bits11();
    Operation(40, Registers(0x21b117b9, 0x5a2f5ea5, 0x3575227e, 0x6e7429d5),
              0x012e550e, 0x00000000, 0x289b7ec6, 4, 0x11de1779);
    Operation(41, Registers(0x6e7429d5, 0x11de1779, 0x5a2f5ea5, 0x3575227e),
              0x7e846ba2, 0x80636261, 0xeaa127fa, 11, 0xfadcaa38);
    Operation(42, Registers(0x3575227e, 0xfadcaa38, 0x11de1779, 0x5a2f5ea5),
              0xb12de3e4, 0x00000000, 0xd4ef3085, 16, 0x31c465ca);
    Operation(43, Registers(0x5a2f5ea5, 0x31c465ca, 0xfadcaa38, 0x11de1779),
              0xdac6d88b, 0x00000000, 0x04881d05, 23, 0x4c6124f4);
  }

  lemma Bits12()
    ensures DefH(0x4c6124f4, 0x31c465ca, 0xfadcaa38) == 0x8779eb06
    ensures Plus(0x4c6124f4, Rotate(DefSum(0x11de1779, 0x8779eb06, 0x00000000, 0xd9d4d039), 4)) == 0x7f2e507b
    ensures DefH(0x7f2e507b, 0x4c6124f4, 0x31c465ca) == 0x028b1145
    ensures Plus(0x7f2e507b, Rotate(DefSum(0xfadcaa38, 0x028b1145, 0x00000000, 0xe6db99e5), 11)) == 0x99d9679d
    ensures DefH(0x99d9679d, 0x7f2e507b, 0x4c6124f4) == 0xaa961312
    ensures Plus(0x99d9679d, Rotate(DefSum(0x31c465ca, 0xaa961312, 0x00000000, 0x1fa27cf8), 16)) == 0x8fae6399
    ensures DefH(0x8fae6399, 0x99d9679d, 0x7f2e507b) == 0x6959547f
    ensures Plus(0x8fae6399, Rotate(DefSum(0x4c6124f4, 0x6959547f, 0x00000000, 0xc4ac5665), 23)) == 0x7beb9700
  {
  }

  lemma Operations12()
    requires |Padded(ABC)| == 64
    requires Rounds(INIT, Padded(ABC), 0, 44) == Registers(0x11de1779, 0x4c6124f4, 0x31c465ca, 0xfadcaa38)
    ensures Rounds(INIT, Padded(ABC), 0, 48) == Registers(0x7f2e507b, 0x7beb9700, 0x8fae6399, 0x99d9679d)
  {
    hide Rounds, Padded, Plus, Rotate, DefSum, DefF, DefG, DefH, DefI;
    Bits12();
    Operation(44, Registers(0x11de1779, 0x4c6124f4, 0x31c465ca, 0xfadcaa38),
              0x8779eb06, 0x00000000, 0xd9d4d039, 4, 0x7f2e507b);
    Operation(45, Registers(0xfadcaa38, 0x7f2e507b, 0x4c6124f4, 0x31c465ca),
              0x028b1145, 0x00000000, 0xe6db99e5, 11, 0x99d9679d);
    Operation(46, Registers(0x31c465ca, 0x99d9679d, 0x7f2e507b, 0x4c6124f4),
              0xaa961312, 0x00000000, 0x1fa27cf8, 16, 0x8fae6399);
    Operation(47, Registers(0x4c6124f4, 0x8fae6399, 0x99d9679d, 0x7f2e507b),
              0x6959547f, 0x00000000, 0xc4ac5665, 23, 0x7beb9700);
  }

  lemma Bits13()
    ensures DefI(0x7beb9700, 0x8fae6399, 0x99d9679d) == 0xf041fcfb
    ensures Plus(0x7beb9700, Rotate(DefSum(0x7f2e507b, 0xf041fcfb, 0x80636261, 0xf4292244), 6)) == 0x7b201df8
    ensures DefI(0x7b201df8, 0x7beb9700, 0x8fae6399) == 0x009a0afe
    ensures Plus(0x7b201df8, Rotate(DefSum(0x99d9679d, 0x009a0afe, 0x00000000, 0x432aff97), 10)) == 0xf4e8e96e
    ensures DefI(0xf4e8e96e, 0x7b201df8, 0x7beb9700) == 0x8fdcf407
    ensures Plus(0xf4e8e96e, Rotate(DefSum(0x8fae6399, 0x8fdcf407, 0x00000018, 0xab9423a7), 15)) == 0xb298cefd
    ensures DefI(0xb298cefd, 0xf4e8e96e, 0x7b201df8) == 0x42370791
    ensures Plus(0xb298cefd, Rotate(DefSum(0x7beb9700, 0x42370791, 0x00000000, 0xfc93a039), 21)) == 0x8bf025c4
  {
  }

  lemma Operations13()
    requires |Padded(ABC)| == 64
    requires Rounds(INIT, Padded(ABC), 0, 48) == Registers(0x7f2e507b, 0x7beb9700, 0x8fae6399, 0x99d9679d)
    ensures Rounds(INIT, Padded(ABC), 0, 52) == Registers(0x7b201df8, 0x8bf025c4, 0xb298cefd, 0xf4e8e96e)
  {
    hide Rounds, Padded, Plus, Rotate, DefSum, DefF, DefG, DefH, DefI;
    Bits13();
    Operation(48, Registers(0x7f2e507b, 0x7beb9700, 0x8fae6399, 0x99d9679d),
              0xf041fcfb, 0x80636261, 0xf4292244, 6, 0x7b201df8);
    Operation(49, Registers(0x99d9679d, 0x7b201df8, 0x7beb9700, 0x8fae6399),
              0x009a0afe, 0x00000000, 0x432aff97, 10, 0xf4e8e96e);
    Operation(50, Registers(0x8fae6399, 0xf4e8e96e, 0x7b201df8, 0x7beb9700),
              0x8fdcf407, 0x00000018, 0xab9423a7, 15, 0xb298cefd);
    Operation(51, Registers(0x7beb9700, 0xb298cefd, 0xf4e8e96e, 0x7b201df8),
              0x42370791, 0x00000000, 0xfc93a039, 21, 0x8bf025c4);
  }

  lemma Bits14()
    ensures DefI(0x8bf025c4, 0xb298cefd, 0xf4e8e96e) == 0x396ff928
    ensures Plus(0x8bf025c4, Rotate(DefSum(0x7b201df8, 0x396ff928, 0x00000000, 0x655b59c3), 6)) == 0x06cc5e8a
    ensures DefI(0x06cc5e8a, 0x8bf025c4, 0xb298cefd) == 0xc41f5a4e
    ensures Plus(0x06cc5e8a, Rotate(DefSum(0xf4e8e96e, 0xc41f5a4e, 0x00000000, 0x8f0ccc92), 10)) == 0x5b0d97aa
    ensures DefI(0x5b0d97aa, 0x06cc5e8a, 0x8bf025c4) == 0x79c38131
    ensures Plus(0x5b0d97aa, Rotate(DefSum(0xb298cefd, 0x79c38131, 0x00000000, 0xffeff47d), 15)) == 0x7d632dd0
    ensures DefI(0x7d632dd0, 0x5b0d97aa, 0x06cc5e8a) == 0xa67e3a5f
    ensures Plus(0x7d632dd0, Rotate(DefSum(0x8bf025c4, 0xa67e3a5f, 0x00000000, 0x85845dd1), 21)) == 0x3bfa2c27
  {
  }

  lemma Operations14()
    requires |Padded(ABC)| == 64
    requires Rounds(INIT, Padded(ABC), 0, 52) == Registers(0x7b201df8, 0x8bf025c4, 0xb298cefd, 0xf4e8e96e)
    ensures Rounds(INIT, Padded(ABC), 0, 56) == Registers(0x06cc5e8a, 0x3bfa2c27, 0x7d632dd0, 0x5b0d97aa)
  {
    hide Rounds, Padded, Plus, Rotate, DefSum, DefF, DefG, DefH, DefI;
    Bits14();
    Operation(52, Registers(0x7b201df8, 0x8bf025c4, 0xb298cefd, 0xf4e8e96e),
              0x396ff928, 0x00000000, 0x655b59c3, 6, 0x06cc5e8a);
    Operation(53, Registers(0xf4e8e96e, 0x06cc5e8a, 0x8bf025c4, 0xb298cefd),
              0xc41f5a4e, 0x00000000, 0x8f0ccc92, 10, 0x5b0d97aa);
    Operation(54, Registers(0xb298cefd, 0x5b0d97aa, 0x06cc5e8a, 0x8bf025c4),
              0x79c38131, 0x00000000, 0xffeff47d, 15, 0x7d632dd0);
    Operation(55, Registers(0x8bf025c4, 0x7d632dd0, 0x5b0d97aa, 0x06cc5e8a),
              0xa67e3a5f, 0x00000000, 0x85845dd1, 21, 0x3bfa2c27);
  }

  lemma Bits15()
    ensures DefI(0x3bfa2c27, 0x7d632dd0, 0x5b0d97aa) == 0xc29941a7
    ensures Plus(0x3bfa2c27, Rotate(DefSum(0x06cc5e8a, 0xc29941a7, 0x00000000, 0x6fa87e4f), 6)) == 0x7f81cc35
    ensures DefI(0x7f81cc35, 0x3bfa2c27, 0x7d632dd0) == 0xc467f218
    ensures Plus(0x7f81cc35, Rotate(DefSum(0x5b0d97aa, 0xc467f218, 0x00000000, 0xfe2ce6e0), 10)) == 0x094454ab
    ensures DefI(0x094454ab, 0x7f81cc35, 0x3bfa2c27) == 0xb2c41bce
    ensures Plus(0x094454ab, Rotate(DefSum(0x7d632dd0, 0xb2c41bce, 0x00000000, 0xa3014314), 15)) == 0x4f9dbe3f
    ensures DefI(0x4f9dbe3f, 0x094454ab, 0x7f81cc35) == 0xc6bbeb54
    ensures Plus(0x4f9dbe3f, Rotate(DefSum(0x3bfa2c27, 0xc6bbeb54, 0x00000000, 0x4e0811a1), 21)) == 0x7327d604
  {
  }

  lemma Operations15()
    requires |Padded(ABC)| == 64
    requires Rounds(INIT, Padded(ABC), 0, 56) == Registers(0x06cc5e8a, 0x3bfa2c27, 0x7d632dd0, 0x5b0d97aa)
    ensures Rounds(INIT, Padded(ABC), 0, 60) == Registers(0x7f81cc35, 0x7327d604, 0x4f9dbe3f, 0x094454ab)
  {
    hide Rounds, Padded, Plus, Rotate, DefSum, DefF, DefG, DefH, DefI;
    Bits15();
    Operation(56, Registers(0x06cc5e8a, 0x3bfa2c27, 0x7d632dd0, 0x5b0d97aa),
              0xc29941a7, 0x00000000, 0x6fa87e4f, 6, 0x7f81cc35);
    Operation(57, Registers(0x5b0d97aa, 0x7f81cc35, 0x3bfa2c27, 0x7d632dd0),
              0xc467f218, 0x00000000, 0xfe2ce6e0, 10, 0x094454ab);
    Operation(58, Registers(0x7d632dd0, 0x094454ab, 0x7f81cc35, 0x3bfa2c27),
              0xb2c41bce, 0x00000000, 0xa3014314, 15, 0x4f9dbe3f);
    Operation(59, Registers(0x3bfa2c27, 0x4f9dbe3f, 0x094454ab, 0x7f81cc35),
              0xc6bbeb54, 0x00000000, 0x4e0811a1, 21, 0x7327d604);
  }

  lemma Bits16()
    ensures DefI(0x7327d604, 0x4f9dbe3f, 0x094454ab) == 0xb822416b
    ensures Plus(0x7327d604, Rotate(DefSum(0x7f81cc35, 0xb822416b, 0x00000000, 0xf7537e82), 6)) == 0x310ade8f
    ensures DefI(0x310ade8f, 0x7327d604, 0x4f9dbe3f) == 0xc24d09cb
    ensures Plus(0x310ade8f, Rotate(DefSum(0x094454ab, 0xc24d09cb, 0x00000000, 0xbd3af235), 10)) == 0x624d8cb2
    ensures DefI(0x624d8cb2, 0x310ade8f, 0x7327d604) == 0xdfd77374
    ensures Plus(0x624d8cb2, Rotate(DefSum(0x4f9dbe3f, 0xdfd77374, 0x00000000, 0x2ad7d2bb), 15)) == 0xe484b9d8
    ensures DefI(0xe484b9d8, 0x624d8cb2, 0x310ade8f) == 0x8cb8354a
    ensures Plus(0xe484b9d8, Rotate(DefSum(0x7327d604, 0x8cb8354a, 0x00000000, 0xeb86d391), 21)) == 0xc08226b3
  {
  }

  lemma Operations16()
    requires |Padded(ABC)| == 64
    requires Rounds(INIT, Padded(ABC), 0, 60) == Registers(0x7f81cc35, 0x7327d604, 0x4f9dbe3f, 0x094454ab)
    ensures Rounds(INIT, Padded(ABC), 0, 64) == Registers(0x310ade8f, 0xc08226b3, 0xe484b9d8, 0x624d8cb2)
  {
    hide Rounds, Padded, Plus, Rotate, DefSum, DefF, DefG, DefH, DefI;
    Bits16();
    Operation(60, Registers(0x7f81cc35, 0x7327d604, 0x4f9dbe3f, 0x094454ab),
              0xb822416b, 0x00000000, 0xf7537e82, 6, 0x310ade8f);
    Operation(61, Registers(0x094454ab, 0x310ade8f, 0x7327d604, 0x4f9dbe3f),
              0xc24d09cb, 0x00000000, 0xbd3af235, 10, 0x624d8cb2);
    Operation(62, Registers(0x4f9dbe3f, 0x624d8cb2, 0x310ade8f, 0x7327d604),
              0xdfd77374, 0x00000000, 0x2ad7d2bb, 15, 0xe484b9d8);
    Operation(63, Registers(0x7327d604, 0xe484b9d8, 0x624d8cb2, 0x310ade8f),
              0x8cb8354a, 0x00000000, 0xeb86d391, 21, 0xc08226b3);
  }

  /** The digest of "abc" is 900150983cd24fb0d6963f7d28e17f72. */
  lemma DigestOfAbc()
    ensures Digest(ABC) == [
      0x90, 0x01, 0x50, 0x98, 0x3c, 0xd2, 0x4f, 0xb0,
      0xd6, 0x96, 0x3f, 0x7d, 0x28, 0xe1, 0x7f, 0x72
    ]
  {
    hide Rounds, Padded;
    BlockIs();
    FirstRegisters();
    Operations1();
    Operations2();
    Operations3();
    Operations4();
    Operations5();
    Operations6();
    Operations7();
    Operations8();
    Operations9();
    Operations10();
    Operations11();
    Operations12();
    Operations13();
    Operations14();
    Operations15();
    Operations16();
    LastRegisters();
    OneBlock();
  }

  lemma FirstRegisters()
    requires |Padded(ABC)| == 64
    ensures Rounds(INIT, Padded(ABC), 0, 0) == Registers(0x67452301, 0xefcdab89, 0x98badcfe, 0x10325476)
  {
  }

  lemma LastRegisters()
    ensures Plus(0x67452301, 0x310ade8f) == 0x98500190 && Plus(0xefcdab89, 0xc08226b3) == 0xb04fd23c
    ensures Plus(0x98badcfe, 0xe484b9d8) == 0x7d3f96d6 && Plus(0x10325476, 0x624d8cb2) == 0x727fe128
  {
  }

  lemma OneBlock()
    requires |Padded(ABC)| == 64
    ensures Fold(INIT, Padded(ABC), 0, 1) == Block(INIT, Padded(ABC), 0)
  {
    assert Fold(INIT, Padded(ABC), 0, 0) == INIT;
  }
}
