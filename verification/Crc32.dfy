/** The cyclic redundancy check: two table-driven forms against the definition bit by bit
    (section 3.4 of RFC 2083). */
module Crc32 {

  const POLYNOMIAL: bv32 := 0xedb88320

  /** The table of sixteen entries. */
  function Table16(x: bv32): bv32 {
    if x == 0x0 then 0x00000000 else if x == 0x1 then 0x1db71064
    else if x == 0x2 then 0x3b6e20c8 else if x == 0x3 then 0x26d930ac
    else if x == 0x4 then 0x76dc4190 else if x == 0x5 then 0x6b6b51f4
    else if x == 0x6 then 0x4db26158 else if x == 0x7 then 0x5005713c
    else if x == 0x8 then 0xedb88320 else if x == 0x9 then 0xf00f9344
    else if x == 0xa then 0xd6d6a3e8 else if x == 0xb then 0xcb61b38c
    else if x == 0xc then 0x9b64c2b0 else if x == 0xd then 0x86d3d2d4
    else if x == 0xe then 0xa00ae278
    else 0xbdbdf21c
  }

  // The table of 256 entries, sixteen at a time.

  function Entries0(x: bv32): bv32 {
    if x == 0x0 then 0x00000000 else if x == 0x1 then 0x77073096
    else if x == 0x2 then 0xee0e612c else if x == 0x3 then 0x990951ba
    else if x == 0x4 then 0x076dc419 else if x == 0x5 then 0x706af48f
    else if x == 0x6 then 0xe963a535 else if x == 0x7 then 0x9e6495a3
    else if x == 0x8 then 0x0edb8832 else if x == 0x9 then 0x79dcb8a4
    else if x == 0xa then 0xe0d5e91e else if x == 0xb then 0x97d2d988
    else if x == 0xc then 0x09b64c2b else if x == 0xd then 0x7eb17cbd
    else if x == 0xe then 0xe7b82d07
    else 0x90bf1d91
  }

  function Entries1(x: bv32): bv32 {
    if x == 0x10 then 0x1db71064 else if x == 0x11 then 0x6ab020f2
    else if x == 0x12 then 0xf3b97148 else if x == 0x13 then 0x84be41de
    else if x == 0x14 then 0x1adad47d else if x == 0x15 then 0x6ddde4eb
    else if x == 0x16 then 0xf4d4b551 else if x == 0x17 then 0x83d385c7
    else if x == 0x18 then 0x136c9856 else if x == 0x19 then 0x646ba8c0
    else if x == 0x1a then 0xfd62f97a else if x == 0x1b then 0x8a65c9ec
    else if x == 0x1c then 0x14015c4f else if x == 0x1d then 0x63066cd9
    else if x == 0x1e then 0xfa0f3d63
    else 0x8d080df5
  }

  function Entries2(x: bv32): bv32 {
    if x == 0x20 then 0x3b6e20c8 else if x == 0x21 then 0x4c69105e
    else if x == 0x22 then 0xd56041e4 else if x == 0x23 then 0xa2677172
    else if x == 0x24 then 0x3c03e4d1 else if x == 0x25 then 0x4b04d447
    else if x == 0x26 then 0xd20d85fd else if x == 0x27 then 0xa50ab56b
    else if x == 0x28 then 0x35b5a8fa else if x == 0x29 then 0x42b2986c
    else if x == 0x2a then 0xdbbbc9d6 else if x == 0x2b then 0xacbcf940
    else if x == 0x2c then 0x32d86ce3 else if x == 0x2d then 0x45df5c75
    else if x == 0x2e then 0xdcd60dcf
    else 0xabd13d59
  }

  function Entries3(x: bv32): bv32 {
    if x == 0x30 then 0x26d930ac else if x == 0x31 then 0x51de003a
    else if x == 0x32 then 0xc8d75180 else if x == 0x33 then 0xbfd06116
    else if x == 0x34 then 0x21b4f4b5 else if x == 0x35 then 0x56b3c423
    else if x == 0x36 then 0xcfba9599 else if x == 0x37 then 0xb8bda50f
    else if x == 0x38 then 0x2802b89e else if x == 0x39 then 0x5f058808
    else if x == 0x3a then 0xc60cd9b2 else if x == 0x3b then 0xb10be924
    else if x == 0x3c then 0x2f6f7c87 else if x == 0x3d then 0x58684c11
    else if x == 0x3e then 0xc1611dab
    else 0xb6662d3d
  }

  function Entries4(x: bv32): bv32 {
    if x == 0x40 then 0x76dc4190 else if x == 0x41 then 0x01db7106
    else if x == 0x42 then 0x98d220bc else if x == 0x43 then 0xefd5102a
    else if x == 0x44 then 0x71b18589 else if x == 0x45 then 0x06b6b51f
    else if x == 0x46 then 0x9fbfe4a5 else if x == 0x47 then 0xe8b8d433
    else if x == 0x48 then 0x7807c9a2 else if x == 0x49 then 0x0f00f934
    else if x == 0x4a then 0x9609a88e else if x == 0x4b then 0xe10e9818
    else if x == 0x4c then 0x7f6a0dbb else if x == 0x4d then 0x086d3d2d
    else if x == 0x4e then 0x91646c97
    else 0xe6635c01
  }

  function Entries5(x: bv32): bv32 {
    if x == 0x50 then 0x6b6b51f4 else if x == 0x51 then 0x1c6c6162
    else if x == 0x52 then 0x856530d8 else if x == 0x53 then 0xf262004e
    else if x == 0x54 then 0x6c0695ed else if x == 0x55 then 0x1b01a57b
    else if x == 0x56 then 0x8208f4c1 else if x == 0x57 then 0xf50fc457
    else if x == 0x58 then 0x65b0d9c6 else if x == 0x59 then 0x12b7e950
    else if x == 0x5a then 0x8bbeb8ea else if x == 0x5b then 0xfcb9887c
    else if x == 0x5c then 0x62dd1ddf else if x == 0x5d then 0x15da2d49
    else if x == 0x5e then 0x8cd37cf3
    else 0xfbd44c65
  }

  function Entries6(x: bv32): bv32 {
    if x == 0x60 then 0x4db26158 else if x == 0x61 then 0x3ab551ce
    else if x == 0x62 then 0xa3bc0074 else if x == 0x63 then 0xd4bb30e2
    else if x == 0x64 then 0x4adfa541 else if x == 0x65 then 0x3dd895d7
    else if x == 0x66 then 0xa4d1c46d else if x == 0x67 then 0xd3d6f4fb
    else if x == 0x68 then 0x4369e96a else if x == 0x69 then 0x346ed9fc
    else if x == 0x6a then 0xad678846 else if x == 0x6b then 0xda60b8d0
    else if x == 0x6c then 0x44042d73 else if x == 0x6d then 0x33031de5
    else if x == 0x6e then 0xaa0a4c5f
    else 0xdd0d7cc9
  }

  function Entries7(x: bv32): bv32 {
    if x == 0x70 then 0x5005713c else if x == 0x71 then 0x270241aa
    else if x == 0x72 then 0xbe0b1010 else if x == 0x73 then 0xc90c2086
    else if x == 0x74 then 0x5768b525 else if x == 0x75 then 0x206f85b3
    else if x == 0x76 then 0xb966d409 else if x == 0x77 then 0xce61e49f
    else if x == 0x78 then 0x5edef90e else if x == 0x79 then 0x29d9c998
    else if x == 0x7a then 0xb0d09822 else if x == 0x7b then 0xc7d7a8b4
    else if x == 0x7c then 0x59b33d17 else if x == 0x7d then 0x2eb40d81
    else if x == 0x7e then 0xb7bd5c3b
    else 0xc0ba6cad
  }

  function Entries8(x: bv32): bv32 {
    if x == 0x80 then 0xedb88320 else if x == 0x81 then 0x9abfb3b6
    else if x == 0x82 then 0x03b6e20c else if x == 0x83 then 0x74b1d29a
    else if x == 0x84 then 0xead54739 else if x == 0x85 then 0x9dd277af
    else if x == 0x86 then 0x04db2615 else if x == 0x87 then 0x73dc1683
    else if x == 0x88 then 0xe3630b12 else if x == 0x89 then 0x94643b84
    else if x == 0x8a then 0x0d6d6a3e else if x == 0x8b then 0x7a6a5aa8
    else if x == 0x8c then 0xe40ecf0b else if x == 0x8d then 0x9309ff9d
    else if x == 0x8e then 0x0a00ae27
    else 0x7d079eb1
  }

  function Entries9(x: bv32): bv32 {
    if x == 0x90 then 0xf00f9344 else if x == 0x91 then 0x8708a3d2
    else if x == 0x92 then 0x1e01f268 else if x == 0x93 then 0x6906c2fe
    else if x == 0x94 then 0xf762575d else if x == 0x95 then 0x806567cb
    else if x == 0x96 then 0x196c3671 else if x == 0x97 then 0x6e6b06e7
    else if x == 0x98 then 0xfed41b76 else if x == 0x99 then 0x89d32be0
    else if x == 0x9a then 0x10da7a5a else if x == 0x9b then 0x67dd4acc
    else if x == 0x9c then 0xf9b9df6f else if x == 0x9d then 0x8ebeeff9
    else if x == 0x9e then 0x17b7be43
    else 0x60b08ed5
  }

  function Entries10(x: bv32): bv32 {
    if x == 0xa0 then 0xd6d6a3e8 else if x == 0xa1 then 0xa1d1937e
    else if x == 0xa2 then 0x38d8c2c4 else if x == 0xa3 then 0x4fdff252
    else if x == 0xa4 then 0xd1bb67f1 else if x == 0xa5 then 0xa6bc5767
    else if x == 0xa6 then 0x3fb506dd else if x == 0xa7 then 0x48b2364b
    else if x == 0xa8 then 0xd80d2bda else if x == 0xa9 then 0xaf0a1b4c
    else if x == 0xaa then 0x36034af6 else if x == 0xab then 0x41047a60
    else if x == 0xac then 0xdf60efc3 else if x == 0xad then 0xa867df55
    else if x == 0xae then 0x316e8eef
    else 0x4669be79
  }

  function Entries11(x: bv32): bv32 {
    if x == 0xb0 then 0xcb61b38c else if x == 0xb1 then 0xbc66831a
    else if x == 0xb2 then 0x256fd2a0 else if x == 0xb3 then 0x5268e236
    else if x == 0xb4 then 0xcc0c7795 else if x == 0xb5 then 0xbb0b4703
    else if x == 0xb6 then 0x220216b9 else if x == 0xb7 then 0x5505262f
    else if x == 0xb8 then 0xc5ba3bbe else if x == 0xb9 then 0xb2bd0b28
    else if x == 0xba then 0x2bb45a92 else if x == 0xbb then 0x5cb36a04
    else if x == 0xbc then 0xc2d7ffa7 else if x == 0xbd then 0xb5d0cf31
    else if x == 0xbe then 0x2cd99e8b
    else 0x5bdeae1d
  }

  function Entries12(x: bv32): bv32 {
    if x == 0xc0 then 0x9b64c2b0 else if x == 0xc1 then 0xec63f226
    else if x == 0xc2 then 0x756aa39c else if x == 0xc3 then 0x026d930a
    else if x == 0xc4 then 0x9c0906a9 else if x == 0xc5 then 0xeb0e363f
    else if x == 0xc6 then 0x72076785 else if x == 0xc7 then 0x05005713
    else if x == 0xc8 then 0x95bf4a82 else if x == 0xc9 then 0xe2b87a14
    else if x == 0xca then 0x7bb12bae else if x == 0xcb then 0x0cb61b38
    else if x == 0xcc then 0x92d28e9b else if x == 0xcd then 0xe5d5be0d
    else if x == 0xce then 0x7cdcefb7
    else 0x0bdbdf21
  }

  function Entries13(x: bv32): bv32 {
    if x == 0xd0 then 0x86d3d2d4 else if x == 0xd1 then 0xf1d4e242
    else if x == 0xd2 then 0x68ddb3f8 else if x == 0xd3 then 0x1fda836e
    else if x == 0xd4 then 0x81be16cd else if x == 0xd5 then 0xf6b9265b
    else if x == 0xd6 then 0x6fb077e1 else if x == 0xd7 then 0x18b74777
    else if x == 0xd8 then 0x88085ae6 else if x == 0xd9 then 0xff0f6a70
    else if x == 0xda then 0x66063bca else if x == 0xdb then 0x11010b5c
    else if x == 0xdc then 0x8f659eff else if x == 0xdd then 0xf862ae69
    else if x == 0xde then 0x616bffd3
    else 0x166ccf45
  }

  function Entries14(x: bv32): bv32 {
    if x == 0xe0 then 0xa00ae278 else if x == 0xe1 then 0xd70dd2ee
    else if x == 0xe2 then 0x4e048354 else if x == 0xe3 then 0x3903b3c2
    else if x == 0xe4 then 0xa7672661 else if x == 0xe5 then 0xd06016f7
    else if x == 0xe6 then 0x4969474d else if x == 0xe7 then 0x3e6e77db
    else if x == 0xe8 then 0xaed16a4a else if x == 0xe9 then 0xd9d65adc
    else if x == 0xea then 0x40df0b66 else if x == 0xeb then 0x37d83bf0
    else if x == 0xec then 0xa9bcae53 else if x == 0xed then 0xdebb9ec5
    else if x == 0xee then 0x47b2cf7f
    else 0x30b5ffe9
  }

  function Entries15(x: bv32): bv32 {
    if x == 0xf0 then 0xbdbdf21c else if x == 0xf1 then 0xcabac28a
    else if x == 0xf2 then 0x53b39330 else if x == 0xf3 then 0x24b4a3a6
    else if x == 0xf4 then 0xbad03605 else if x == 0xf5 then 0xcdd70693
    else if x == 0xf6 then 0x54de5729 else if x == 0xf7 then 0x23d967bf
    else if x == 0xf8 then 0xb3667a2e else if x == 0xf9 then 0xc4614ab8
    else if x == 0xfa then 0x5d681b02 else if x == 0xfb then 0x2a6f2b94
    else if x == 0xfc then 0xb40bbe37 else if x == 0xfd then 0xc30c8ea1
    else if x == 0xfe then 0x5a05df1b
    else 0x2d02ef8d
  }

  function Table256(x: bv32): bv32 {
    if x < 0x10 then Entries0(x)
    else if x < 0x20 then Entries1(x)
    else if x < 0x30 then Entries2(x)
    else if x < 0x40 then Entries3(x)
    else if x < 0x50 then Entries4(x)
    else if x < 0x60 then Entries5(x)
    else if x < 0x70 then Entries6(x)
    else if x < 0x80 then Entries7(x)
    else if x < 0x90 then Entries8(x)
    else if x < 0xa0 then Entries9(x)
    else if x < 0xb0 then Entries10(x)
    else if x < 0xc0 then Entries11(x)
    else if x < 0xd0 then Entries12(x)
    else if x < 0xe0 then Entries13(x)
    else if x < 0xf0 then Entries14(x)
    else Entries15(x)
  }

  // The operations by name, so that proofs can use their laws without looking at bits.

  function Xor(a: bv32, b: bv32): bv32 {
    a ^ b
  }

  function Low4(c: bv32): bv32 {
    c & 0xf
  }

  function Low8(c: bv32): bv32 {
    c & 0xff
  }

  function Down1(r: bv32): bv32 {
    r >> 1
  }

  function Down4(c: bv32): bv32 {
    c >> 4
  }

  function Down8(c: bv32): bv32 {
    c >> 8
  }

  /** One step of the shift register. */
  function Step(c: bv32): bv32 {
    if c & 1 == 1 then (c >> 1) ^ POLYNOMIAL else c >> 1
  }

  function Four(c: bv32): bv32 {
    Step(Step(Step(Step(c))))
  }

  function Eight(c: bv32): bv32 {
    Four(Four(c))
  }

  lemma LowBit(a: bv32, b: bv32)
    ensures (a ^ b) & 1 == (a & 1) ^ (b & 1) && (a ^ b) >> 1 == (a >> 1) ^ (b >> 1)
  {
  }

  lemma Odd(a: bv32)
    ensures a & 1 == 0 || a & 1 == 1
  {
  }

  lemma Swap(a: bv32, b: bv32, p: bv32)
    ensures (a ^ p) ^ b == (a ^ b) ^ p && a ^ (b ^ p) == (a ^ b) ^ p && (a ^ p) ^ (b ^ p) == a ^ b
  {
  }

  /** A step is linear. */
  lemma StepXor(a: bv32, b: bv32)
    ensures Step(Xor(a, b)) == Xor(Step(a), Step(b))
  {
    hide Step;
    StepLinear(a, b);
  }

  lemma StepLinear(a: bv32, b: bv32)
    ensures Step(a ^ b) == Step(a) ^ Step(b)
  {
    LowBit(a, b);
    Odd(a);
    Odd(b);
    Swap(a >> 1, b >> 1, POLYNOMIAL);
  }

  lemma FourXor(a: bv32, b: bv32)
    ensures Four(Xor(a, b)) == Xor(Four(a), Four(b))
  {
    hide Step, Xor;
    StepXor(a, b);
    StepXor(Step(a), Step(b));
    StepXor(Step(Step(a)), Step(Step(b)));
    StepXor(Step(Step(Step(a))), Step(Step(Step(b))));
  }

  lemma EightXor(a: bv32, b: bv32)
    ensures Eight(Xor(a, b)) == Xor(Eight(a), Eight(b))
  {
    hide Four, Xor;
    FourXor(a, b);
    FourXor(Four(a), Four(b));
  }

  predicate Even(c: bv32) {
    c & 1 == 0
  }

  function High28(c: bv32): bv32 {
    c & 0xffff_fff0
  }

  lemma EvenStepIs(c: bv32)
    requires Even(c)
    ensures Step(c) == Down1(c)
  {
  }

  lemma UpperBits(c: bv32)
    ensures var h := High28(c);
      Even(h) && Even(Down1(h)) && Even(Down1(Down1(h))) && Even(Down1(Down1(Down1(h))))
  {
  }

  lemma UpperShift(c: bv32)
    ensures Down1(Down1(Down1(Down1(High28(c))))) == Down4(c)
  {
  }

  lemma UpperLower(c: bv32)
    ensures Xor(Low4(c), High28(c)) == c
  {
  }

  /** Four steps look at four bits and shift the others. */
  lemma Nibble(c: bv32)
    ensures Four(c) == Xor(Four(Low4(c)), Down4(c))
  {
    hide Step, Xor, Low4, High28, Down1, Down4, Even;
    var h := High28(c);
    UpperLower(c);
    FourXor(Low4(c), h);
    UpperBits(c);
    EvenStepIs(h);
    EvenStepIs(Down1(h));
    EvenStepIs(Down1(Down1(h)));
    EvenStepIs(Down1(Down1(Down1(h))));
    UpperShift(c);
  }

  lemma Halves(c: bv32)
    ensures Down4(Down4(c)) == Down8(c) && Low4(Down4(c)) == Down4(Low8(c)) && Low4(Low8(c)) == Low4(c)
    ensures Down4(Down4(Low8(c))) == 0 && Low4(Down4(Low8(c))) == Down4(Low8(c))
  {
  }

  lemma Grouped(a: bv32, b: bv32, c: bv32)
    ensures Xor(a, Xor(b, c)) == Xor(Xor(a, b), c) && Xor(a, 0) == a && Xor(a, b) == Xor(b, a)
  {
  }

  /** Eight steps look at eight bits and shift the others. */
  lemma Octet(c: bv32)
    ensures Eight(c) == Xor(Eight(Low8(c)), Down8(c))
  {
    hide Four, Xor, Low4, Low8, Down4, Down8;
    var l, h := Four(Low4(c)), Down4(Low8(c));
    Halves(c);
    Nibble(c);
    FourXor(l, Down4(c));
    Nibble(Down4(c));
    Nibble(Low8(c));
    FourXor(l, h);
    Nibble(h);
    Grouped(Four(l), Four(h), Down8(c));
    Grouped(Four(h), 0, 0);
  }

  // The definition, bit by bit.

  /** The register takes in the lowest bit of r. */
  function TakeBit(c: bv32, r: bv32): bv32 {
    Step(c ^ (r & 1))
  }

  /** The register takes in eight bits of r, the lowest first. */
  function TakeByte(c: bv32, r: bv32): bv32 {
    var c1 := TakeBit(c, r);
    var c2 := TakeBit(c1, r >> 1);
    var c3 := TakeBit(c2, r >> 2);
    var c4 := TakeBit(c3, r >> 3);
    var c5 := TakeBit(c4, r >> 4);
    var c6 := TakeBit(c5, r >> 5);
    var c7 := TakeBit(c6, r >> 6);
    TakeBit(c7, r >> 7)
  }

  function Register(c: bv32, data: seq<bv8>, n: nat): bv32
    requires n <= |data|
  {
    if n == 0 then c else TakeByte(Register(c, data, n - 1), data[n - 1] as bv32)
  }

  /** The check of a byte string: all ones to begin with, complemented at the end. */
  function Crc(data: seq<bv8>): bv32 {
    Xor(Register(0xffff_ffff, data, |data|), 0xffff_ffff)
  }

  lemma SplitLow(x: bv32, r: bv32)
    ensures x ^ r == (x ^ (r & 1)) ^ (r & 0xffff_fffe)
  {
  }

  lemma EvenStep(r: bv32)
    ensures Step(r & 0xffff_fffe) == r >> 1
  {
    EvenBits(r);
  }

  lemma EvenBits(r: bv32)
    ensures (r & 0xffff_fffe) & 1 == 0 && (r & 0xffff_fffe) >> 1 == r >> 1
  {
  }

  /** A bit that is not at the bottom yet only moves down. */
  lemma TakeOne(x: bv32, r: bv32)
    ensures Step(Xor(x, r)) == Xor(TakeBit(x, r), Down1(r))
  {
    hide Step;
    SplitLow(x, r);
    EvenStep(r);
    StepXor(x ^ (r & 1), r & 0xffff_fffe);
  }

  lemma Shifts(r: bv32)
    requires r <= 0xff
    ensures Down1(r) == r >> 1 && Down1(r >> 1) == r >> 2 && Down1(r >> 2) == r >> 3 && Down1(r >> 3) == r >> 4
    ensures Down1(r >> 4) == r >> 5 && Down1(r >> 5) == r >> 6 && Down1(r >> 6) == r >> 7 && Down1(r >> 7) == 0
  {
  }

  /** Taking in a byte bit by bit is eight steps on the register with the byte added. */
  lemma TakeByteIsEight(c: bv32, r: bv32)
    requires r <= 0xff
    ensures TakeByte(c, r) == Eight(Xor(c, r))
  {
    Shifts(r);
    hide TakeBit, Step, Xor, Down1;
    var c1 := TakeBit(c, r);
    var c2 := TakeBit(c1, r >> 1);
    var c3 := TakeBit(c2, r >> 2);
    var c4 := TakeBit(c3, r >> 3);
    var c5 := TakeBit(c4, r >> 4);
    var c6 := TakeBit(c5, r >> 5);
    var c7 := TakeBit(c6, r >> 6);
    TakeOne(c, r);
    TakeOne(c1, r >> 1);
    TakeOne(c2, r >> 2);
    TakeOne(c3, r >> 3);
    TakeOne(c4, r >> 4);
    TakeOne(c5, r >> 5);
    TakeOne(c6, r >> 6);
    TakeOne(c7, r >> 7);
    Grouped(TakeBit(c7, r >> 7), 0, 0);
  }

  /** The small table is four steps. */
  lemma Table16Is(x: bv32)
    requires x <= 0xf
    ensures Table16(x) == Four(x)
  {
  }

  lemma EightBy(c: bv32, f: bv32, e: bv32)
    requires Four(c) == f && Four(f) == e
    ensures Eight(c) == e
  {
  }

  /** The first entries of the large table give all others. */
  lemma EightSum(a: bv32, b: bv32, ea: bv32, eb: bv32)
    requires Eight(a) == ea && Eight(b) == eb
    ensures Eight(a ^ b) == ea ^ eb
  {
    hide Eight;
    EightXor(a, b);
  }

  lemma Row0()
    ensures Eight(0) == 0x00000000 && Eight(1) == 0x77073096 && Eight(2) == 0xee0e612c && Eight(3) == 0x990951ba
    ensures Eight(4) == 0x076dc419 && Eight(5) == 0x706af48f && Eight(6) == 0xe963a535 && Eight(7) == 0x9e6495a3
    ensures Eight(8) == 0x0edb8832 && Eight(9) == 0x79dcb8a4 && Eight(10) == 0xe0d5e91e && Eight(11) == 0x97d2d988
    ensures Eight(12) == 0x09b64c2b && Eight(13) == 0x7eb17cbd && Eight(14) == 0xe7b82d07 && Eight(15) == 0x90bf1d91
  {
    hide Eight;
    EightBy(0, 0x00000000, 0x00000000);
    EightBy(1, 0x1db71064, 0x77073096);
    EightBy(2, 0x3b6e20c8, 0xee0e612c);
    EightBy(3, 0x26d930ac, 0x990951ba);
    EightBy(4, 0x76dc4190, 0x076dc419);
    EightBy(5, 0x6b6b51f4, 0x706af48f);
    EightBy(6, 0x4db26158, 0xe963a535);
    EightBy(7, 0x5005713c, 0x9e6495a3);
    EightBy(8, 0xedb88320, 0x0edb8832);
    EightBy(9, 0xf00f9344, 0x79dcb8a4);
    EightBy(10, 0xd6d6a3e8, 0xe0d5e91e);
    EightBy(11, 0xcb61b38c, 0x97d2d988);
    EightBy(12, 0x9b64c2b0, 0x09b64c2b);
    EightBy(13, 0x86d3d2d4, 0x7eb17cbd);
    EightBy(14, 0xa00ae278, 0xe7b82d07);
    EightBy(15, 0xbdbdf21c, 0x90bf1d91);
  }

  lemma Row1()
    ensures Eight(16) == 0x1db71064 && Eight(17) == 0x6ab020f2 && Eight(18) == 0xf3b97148 && Eight(19) == 0x84be41de
    ensures Eight(20) == 0x1adad47d && Eight(21) == 0x6ddde4eb && Eight(22) == 0xf4d4b551 && Eight(23) == 0x83d385c7
    ensures Eight(24) == 0x136c9856 && Eight(25) == 0x646ba8c0 && Eight(26) == 0xfd62f97a && Eight(27) == 0x8a65c9ec
    ensures Eight(28) == 0x14015c4f && Eight(29) == 0x63066cd9 && Eight(30) == 0xfa0f3d63 && Eight(31) == 0x8d080df5
  {
    hide Eight;
    Row0();
    EightBy(0x10, 0x1, 0x1db71064);
    EightSum(0x10, 1, 0x1db71064, 0x77073096);
    EightSum(0x10, 2, 0x1db71064, 0xee0e612c);
    EightSum(0x10, 3, 0x1db71064, 0x990951ba);
    EightSum(0x10, 4, 0x1db71064, 0x076dc419);
    EightSum(0x10, 5, 0x1db71064, 0x706af48f);
    EightSum(0x10, 6, 0x1db71064, 0xe963a535);
    EightSum(0x10, 7, 0x1db71064, 0x9e6495a3);
    EightSum(0x10, 8, 0x1db71064, 0x0edb8832);
    EightSum(0x10, 9, 0x1db71064, 0x79dcb8a4);
    EightSum(0x10, 10, 0x1db71064, 0xe0d5e91e);
    EightSum(0x10, 11, 0x1db71064, 0x97d2d988);
    EightSum(0x10, 12, 0x1db71064, 0x09b64c2b);
    EightSum(0x10, 13, 0x1db71064, 0x7eb17cbd);
    EightSum(0x10, 14, 0x1db71064, 0xe7b82d07);
    EightSum(0x10, 15, 0x1db71064, 0x90bf1d91);
  }

  lemma Row2()
    ensures Eight(32) == 0x3b6e20c8 && Eight(33) == 0x4c69105e && Eight(34) == 0xd56041e4 && Eight(35) == 0xa2677172
    ensures Eight(36) == 0x3c03e4d1 && Eight(37) == 0x4b04d447 && Eight(38) == 0xd20d85fd && Eight(39) == 0xa50ab56b
    ensures Eight(40) == 0x35b5a8fa && Eight(41) == 0x42b2986c && Eight(42) == 0xdbbbc9d6 && Eight(43) == 0xacbcf940
    ensures Eight(44) == 0x32d86ce3 && Eight(45) == 0x45df5c75 && Eight(46) == 0xdcd60dcf && Eight(47) == 0xabd13d59
  {
    hide Eight;
    Row0();
    EightBy(0x20, 0x2, 0x3b6e20c8);
    EightSum(0x20, 1, 0x3b6e20c8, 0x77073096);
    EightSum(0x20, 2, 0x3b6e20c8, 0xee0e612c);
    EightSum(0x20, 3, 0x3b6e20c8, 0x990951ba);
    EightSum(0x20, 4, 0x3b6e20c8, 0x076dc419);
    EightSum(0x20, 5, 0x3b6e20c8, 0x706af48f);
    EightSum(0x20, 6, 0x3b6e20c8, 0xe963a535);
    EightSum(0x20, 7, 0x3b6e20c8, 0x9e6495a3);
    EightSum(0x20, 8, 0x3b6e20c8, 0x0edb8832);
    EightSum(0x20, 9, 0x3b6e20c8, 0x79dcb8a4);
    EightSum(0x20, 10, 0x3b6e20c8, 0xe0d5e91e);
    EightSum(0x20, 11, 0x3b6e20c8, 0x97d2d988);
    EightSum(0x20, 12, 0x3b6e20c8, 0x09b64c2b);
    EightSum(0x20, 13, 0x3b6e20c8, 0x7eb17cbd);
    EightSum(0x20, 14, 0x3b6e20c8, 0xe7b82d07);
    EightSum(0x20, 15, 0x3b6e20c8, 0x90bf1d91);
  }

  lemma Row3()
    ensures Eight(48) == 0x26d930ac && Eight(49) == 0x51de003a && Eight(50) == 0xc8d75180 && Eight(51) == 0xbfd06116
    ensures Eight(52) == 0x21b4f4b5 && Eight(53) == 0x56b3c423 && Eight(54) == 0xcfba9599 && Eight(55) == 0xb8bda50f
    ensures Eight(56) == 0x2802b89e && Eight(57) == 0x5f058808 && Eight(58) == 0xc60cd9b2 && Eight(59) == 0xb10be924
    ensures Eight(60) == 0x2f6f7c87 && Eight(61) == 0x58684c11 && Eight(62) == 0xc1611dab && Eight(63) == 0xb6662d3d
  {
    hide Eight;
    Row0();
    EightBy(0x30, 0x3, 0x26d930ac);
    EightSum(0x30, 1, 0x26d930ac, 0x77073096);
    EightSum(0x30, 2, 0x26d930ac, 0xee0e612c);
    EightSum(0x30, 3, 0x26d930ac, 0x990951ba);
    EightSum(0x30, 4, 0x26d930ac, 0x076dc419);
    EightSum(0x30, 5, 0x26d930ac, 0x706af48f);
    EightSum(0x30, 6, 0x26d930ac, 0xe963a535);
    EightSum(0x30, 7, 0x26d930ac, 0x9e6495a3);
    EightSum(0x30, 8, 0x26d930ac, 0x0edb8832);
    EightSum(0x30, 9, 0x26d930ac, 0x79dcb8a4);
    EightSum(0x30, 10, 0x26d930ac, 0xe0d5e91e);
    EightSum(0x30, 11, 0x26d930ac, 0x97d2d988);
    EightSum(0x30, 12, 0x26d930ac, 0x09b64c2b);
    EightSum(0x30, 13, 0x26d930ac, 0x7eb17cbd);
    EightSum(0x30, 14, 0x26d930ac, 0xe7b82d07);
    EightSum(0x30, 15, 0x26d930ac, 0x90bf1d91);
  }

  lemma Row4()
    ensures Eight(64) == 0x76dc4190 && Eight(65) == 0x01db7106 && Eight(66) == 0x98d220bc && Eight(67) == 0xefd5102a
    ensures Eight(68) == 0x71b18589 && Eight(69) == 0x06b6b51f && Eight(70) == 0x9fbfe4a5 && Eight(71) == 0xe8b8d433
    ensures Eight(72) == 0x7807c9a2 && Eight(73) == 0x0f00f934 && Eight(74) == 0x9609a88e && Eight(75) == 0xe10e9818
    ensures Eight(76) == 0x7f6a0dbb && Eight(77) == 0x086d3d2d && Eight(78) == 0x91646c97 && Eight(79) == 0xe6635c01
  {
    hide Eight;
    Row0();
    EightBy(0x40, 0x4, 0x76dc4190);
    EightSum(0x40, 1, 0x76dc4190, 0x77073096);
    EightSum(0x40, 2, 0x76dc4190, 0xee0e612c);
    EightSum(0x40, 3, 0x76dc4190, 0x990951ba);
    EightSum(0x40, 4, 0x76dc4190, 0x076dc419);
    EightSum(0x40, 5, 0x76dc4190, 0x706af48f);
    EightSum(0x40, 6, 0x76dc4190, 0xe963a535);
    EightSum(0x40, 7, 0x76dc4190, 0x9e6495a3);
    EightSum(0x40, 8, 0x76dc4190, 0x0edb8832);
    EightSum(0x40, 9, 0x76dc4190, 0x79dcb8a4);
    EightSum(0x40, 10, 0x76dc4190, 0xe0d5e91e);
    EightSum(0x40, 11, 0x76dc4190, 0x97d2d988);
    EightSum(0x40, 12, 0x76dc4190, 0x09b64c2b);
    EightSum(0x40, 13, 0x76dc4190, 0x7eb17cbd);
    EightSum(0x40, 14, 0x76dc4190, 0xe7b82d07);
    EightSum(0x40, 15, 0x76dc4190, 0x90bf1d91);
  }

  lemma Row5()
    ensures Eight(80) == 0x6b6b51f4 && Eight(81) == 0x1c6c6162 && Eight(82) == 0x856530d8 && Eight(83) == 0xf262004e
    ensures Eight(84) == 0x6c0695ed && Eight(85) == 0x1b01a57b && Eight(86) == 0x8208f4c1 && Eight(87) == 0xf50fc457
    ensures Eight(88) == 0x65b0d9c6 && Eight(89) == 0x12b7e950 && Eight(90) == 0x8bbeb8ea && Eight(91) == 0xfcb9887c
    ensures Eight(92) == 0x62dd1ddf && Eight(93) == 0x15da2d49 && Eight(94) == 0x8cd37cf3 && Eight(95) == 0xfbd44c65
  {
    hide Eight;
    Row0();
    EightBy(0x50, 0x5, 0x6b6b51f4);
    EightSum(0x50, 1, 0x6b6b51f4, 0x77073096);
    EightSum(0x50, 2, 0x6b6b51f4, 0xee0e612c);
    EightSum(0x50, 3, 0x6b6b51f4, 0x990951ba);
    EightSum(0x50, 4, 0x6b6b51f4, 0x076dc419);
    EightSum(0x50, 5, 0x6b6b51f4, 0x706af48f);
    EightSum(0x50, 6, 0x6b6b51f4, 0xe963a535);
    EightSum(0x50, 7, 0x6b6b51f4, 0x9e6495a3);
    EightSum(0x50, 8, 0x6b6b51f4, 0x0edb8832);
    EightSum(0x50, 9, 0x6b6b51f4, 0x79dcb8a4);
    EightSum(0x50, 10, 0x6b6b51f4, 0xe0d5e91e);
    EightSum(0x50, 11, 0x6b6b51f4, 0x97d2d988);
    EightSum(0x50, 12, 0x6b6b51f4, 0x09b64c2b);
    EightSum(0x50, 13, 0x6b6b51f4, 0x7eb17cbd);
    EightSum(0x50, 14, 0x6b6b51f4, 0xe7b82d07);
    EightSum(0x50, 15, 0x6b6b51f4, 0x90bf1d91);
  }

  lemma Row6()
    ensures Eight(96) == 0x4db26158 && Eight(97) == 0x3ab551ce && Eight(98) == 0xa3bc0074 && Eight(99) == 0xd4bb30e2
    ensures Eight(100) == 0x4adfa541 && Eight(101) == 0x3dd895d7 && Eight(102) == 0xa4d1c46d && Eight(103) == 0xd3d6f4fb
    ensures Eight(104) == 0x4369e96a && Eight(105) == 0x346ed9fc && Eight(106) == 0xad678846 && Eight(107) == 0xda60b8d0
    ensures Eight(108) == 0x44042d73 && Eight(109) == 0x33031de5 && Eight(110) == 0xaa0a4c5f && Eight(111) == 0xdd0d7cc9
  {
    hide Eight;
    Row0();
    EightBy(0x60, 0x6, 0x4db26158);
    EightSum(0x60, 1, 0x4db26158, 0x77073096);
    EightSum(0x60, 2, 0x4db26158, 0xee0e612c);
    EightSum(0x60, 3, 0x4db26158, 0x990951ba);
    EightSum(0x60, 4, 0x4db26158, 0x076dc419);
    EightSum(0x60, 5, 0x4db26158, 0x706af48f);
    EightSum(0x60, 6, 0x4db26158, 0xe963a535);
    EightSum(0x60, 7, 0x4db26158, 0x9e6495a3);
    EightSum(0x60, 8, 0x4db26158, 0x0edb8832);
    EightSum(0x60, 9, 0x4db26158, 0x79dcb8a4);
    EightSum(0x60, 10, 0x4db26158, 0xe0d5e91e);
    EightSum(0x60, 11, 0x4db26158, 0x97d2d988);
    EightSum(0x60, 12, 0x4db26158, 0x09b64c2b);
    EightSum(0x60, 13, 0x4db26158, 0x7eb17cbd);
    EightSum(0x60, 14, 0x4db26158, 0xe7b82d07);
    EightSum(0x60, 15, 0x4db26158, 0x90bf1d91);
  }

  lemma Row7()
    ensures Eight(112) == 0x5005713c && Eight(113) == 0x270241aa && Eight(114) == 0xbe0b1010 && Eight(115) == 0xc90c2086
    ensures Eight(116) == 0x5768b525 && Eight(117) == 0x206f85b3 && Eight(118) == 0xb966d409 && Eight(119) == 0xce61e49f
    ensures Eight(120) == 0x5edef90e && Eight(121) == 0x29d9c998 && Eight(122) == 0xb0d09822 && Eight(123) == 0xc7d7a8b4
    ensures Eight(124) == 0x59b33d17 && Eight(125) == 0x2eb40d81 && Eight(126) == 0xb7bd5c3b && Eight(127) == 0xc0ba6cad
  {
    hide Eight;
    Row0();
    EightBy(0x70, 0x7, 0x5005713c);
    EightSum(0x70, 1, 0x5005713c, 0x77073096);
    EightSum(0x70, 2, 0x5005713c, 0xee0e612c);
    EightSum(0x70, 3, 0x5005713c, 0x990951ba);
    EightSum(0x70, 4, 0x5005713c, 0x076dc419);
    EightSum(0x70, 5, 0x5005713c, 0x706af48f);
    EightSum(0x70, 6, 0x5005713c, 0xe963a535);
    EightSum(0x70, 7, 0x5005713c, 0x9e6495a3);
    EightSum(0x70, 8, 0x5005713c, 0x0edb8832);
    EightSum(0x70, 9, 0x5005713c, 0x79dcb8a4);
    EightSum(0x70, 10, 0x5005713c, 0xe0d5e91e);
    EightSum(0x70, 11, 0x5005713c, 0x97d2d988);
    EightSum(0x70, 12, 0x5005713c, 0x09b64c2b);
    EightSum(0x70, 13, 0x5005713c, 0x7eb17cbd);
    EightSum(0x70, 14, 0x5005713c, 0xe7b82d07);
    EightSum(0x70, 15, 0x5005713c, 0x90bf1d91);
  }

  lemma Row8()
    ensures Eight(128) == 0xedb88320 && Eight(129) == 0x9abfb3b6 && Eight(130) == 0x03b6e20c && Eight(131) == 0x74b1d29a
    ensures Eight(132) == 0xead54739 && Eight(133) == 0x9dd277af && Eight(134) == 0x04db2615 && Eight(135) == 0x73dc1683
    ensures Eight(136) == 0xe3630b12 && Eight(137) == 0x94643b84 && Eight(138) == 0x0d6d6a3e && Eight(139) == 0x7a6a5aa8
    ensures Eight(140) == 0xe40ecf0b && Eight(141) == 0x9309ff9d && Eight(142) == 0x0a00ae27 && Eight(143) == 0x7d079eb1
  {
    hide Eight;
    Row0();
    EightBy(0x80, 0x8, 0xedb88320);
    EightSum(0x80, 1, 0xedb88320, 0x77073096);
    EightSum(0x80, 2, 0xedb88320, 0xee0e612c);
    EightSum(0x80, 3, 0xedb88320, 0x990951ba);
    EightSum(0x80, 4, 0xedb88320, 0x076dc419);
    EightSum(0x80, 5, 0xedb88320, 0x706af48f);
    EightSum(0x80, 6, 0xedb88320, 0xe963a535);
    EightSum(0x80, 7, 0xedb88320, 0x9e6495a3);
    EightSum(0x80, 8, 0xedb88320, 0x0edb8832);
    EightSum(0x80, 9, 0xedb88320, 0x79dcb8a4);
    EightSum(0x80, 10, 0xedb88320, 0xe0d5e91e);
    EightSum(0x80, 11, 0xedb88320, 0x97d2d988);
    EightSum(0x80, 12, 0xedb88320, 0x09b64c2b);
    EightSum(0x80, 13, 0xedb88320, 0x7eb17cbd);
    EightSum(0x80, 14, 0xedb88320, 0xe7b82d07);
    EightSum(0x80, 15, 0xedb88320, 0x90bf1d91);
  }

  lemma Row9()
    ensures Eight(144) == 0xf00f9344 && Eight(145) == 0x8708a3d2 && Eight(146) == 0x1e01f268 && Eight(147) == 0x6906c2fe
    ensures Eight(148) == 0xf762575d && Eight(149) == 0x806567cb && Eight(150) == 0x196c3671 && Eight(151) == 0x6e6b06e7
    ensures Eight(152) == 0xfed41b76 && Eight(153) == 0x89d32be0 && Eight(154) == 0x10da7a5a && Eight(155) == 0x67dd4acc
    ensures Eight(156) == 0xf9b9df6f && Eight(157) == 0x8ebeeff9 && Eight(158) == 0x17b7be43 && Eight(159) == 0x60b08ed5
  {
    hide Eight;
    Row0();
    EightBy(0x90, 0x9, 0xf00f9344);
    EightSum(0x90, 1, 0xf00f9344, 0x77073096);
    EightSum(0x90, 2, 0xf00f9344, 0xee0e612c);
    EightSum(0x90, 3, 0xf00f9344, 0x990951ba);
    EightSum(0x90, 4, 0xf00f9344, 0x076dc419);
    EightSum(0x90, 5, 0xf00f9344, 0x706af48f);
    EightSum(0x90, 6, 0xf00f9344, 0xe963a535);
    EightSum(0x90, 7, 0xf00f9344, 0x9e6495a3);
    EightSum(0x90, 8, 0xf00f9344, 0x0edb8832);
    EightSum(0x90, 9, 0xf00f9344, 0x79dcb8a4);
    EightSum(0x90, 10, 0xf00f9344, 0xe0d5e91e);
    EightSum(0x90, 11, 0xf00f9344, 0x97d2d988);
    EightSum(0x90, 12, 0xf00f9344, 0x09b64c2b);
    EightSum(0x90, 13, 0xf00f9344, 0x7eb17cbd);
    EightSum(0x90, 14, 0xf00f9344, 0xe7b82d07);
    EightSum(0x90, 15, 0xf00f9344, 0x90bf1d91);
  }

  lemma Row10()
    ensures Eight(160) == 0xd6d6a3e8 && Eight(161) == 0xa1d1937e && Eight(162) == 0x38d8c2c4 && Eight(163) == 0x4fdff252
    ensures Eight(164) == 0xd1bb67f1 && Eight(165) == 0xa6bc5767 && Eight(166) == 0x3fb506dd && Eight(167) == 0x48b2364b
    ensures Eight(168) == 0xd80d2bda && Eight(169) == 0xaf0a1b4c && Eight(170) == 0x36034af6 && Eight(171) == 0x41047a60
    ensures Eight(172) == 0xdf60efc3 && Eight(173) == 0xa867df55 && Eight(174) == 0x316e8eef && Eight(175) == 0x4669be79
  {
    hide Eight;
    Row0();
    EightBy(0xa0, 0xa, 0xd6d6a3e8);
    EightSum(0xa0, 1, 0xd6d6a3e8, 0x77073096);
    EightSum(0xa0, 2, 0xd6d6a3e8, 0xee0e612c);
    EightSum(0xa0, 3, 0xd6d6a3e8, 0x990951ba);
    EightSum(0xa0, 4, 0xd6d6a3e8, 0x076dc419);
    EightSum(0xa0, 5, 0xd6d6a3e8, 0x706af48f);
    EightSum(0xa0, 6, 0xd6d6a3e8, 0xe963a535);
    EightSum(0xa0, 7, 0xd6d6a3e8, 0x9e6495a3);
    EightSum(0xa0, 8, 0xd6d6a3e8, 0x0edb8832);
    EightSum(0xa0, 9, 0xd6d6a3e8, 0x79dcb8a4);
    EightSum(0xa0, 10, 0xd6d6a3e8, 0xe0d5e91e);
    EightSum(0xa0, 11, 0xd6d6a3e8, 0x97d2d988);
    EightSum(0xa0, 12, 0xd6d6a3e8, 0x09b64c2b);
    EightSum(0xa0, 13, 0xd6d6a3e8, 0x7eb17cbd);
    EightSum(0xa0, 14, 0xd6d6a3e8, 0xe7b82d07);
    EightSum(0xa0, 15, 0xd6d6a3e8, 0x90bf1d91);
  }

  lemma Row11()
    ensures Eight(176) == 0xcb61b38c && Eight(177) == 0xbc66831a && Eight(178) == 0x256fd2a0 && Eight(179) == 0x5268e236
    ensures Eight(180) == 0xcc0c7795 && Eight(181) == 0xbb0b4703 && Eight(182) == 0x220216b9 && Eight(183) == 0x5505262f
    ensures Eight(184) == 0xc5ba3bbe && Eight(185) == 0xb2bd0b28 && Eight(186) == 0x2bb45a92 && Eight(187) == 0x5cb36a04
    ensures Eight(188) == 0xc2d7ffa7 && Eight(189) == 0xb5d0cf31 && Eight(190) == 0x2cd99e8b && Eight(191) == 0x5bdeae1d
  {
    hide Eight;
    Row0();
    EightBy(0xb0, 0xb, 0xcb61b38c);
    EightSum(0xb0, 1, 0xcb61b38c, 0x77073096);
    EightSum(0xb0, 2, 0xcb61b38c, 0xee0e612c);
    EightSum(0xb0, 3, 0xcb61b38c, 0x990951ba);
    EightSum(0xb0, 4, 0xcb61b38c, 0x076dc419);
    EightSum(0xb0, 5, 0xcb61b38c, 0x706af48f);
    EightSum(0xb0, 6, 0xcb61b38c, 0xe963a535);
    EightSum(0xb0, 7, 0xcb61b38c, 0x9e6495a3);
    EightSum(0xb0, 8, 0xcb61b38c, 0x0edb8832);
    EightSum(0xb0, 9, 0xcb61b38c, 0x79dcb8a4);
    EightSum(0xb0, 10, 0xcb61b38c, 0xe0d5e91e);
    EightSum(0xb0, 11, 0xcb61b38c, 0x97d2d988);
    EightSum(0xb0, 12, 0xcb61b38c, 0x09b64c2b);
    EightSum(0xb0, 13, 0xcb61b38c, 0x7eb17cbd);
    EightSum(0xb0, 14, 0xcb61b38c, 0xe7b82d07);
    EightSum(0xb0, 15, 0xcb61b38c, 0x90bf1d91);
  }

  lemma Row12()
    ensures Eight(192) == 0x9b64c2b0 && Eight(193) == 0xec63f226 && Eight(194) == 0x756aa39c && Eight(195) == 0x026d930a
    ensures Eight(196) == 0x9c0906a9 && Eight(197) == 0xeb0e363f && Eight(198) == 0x72076785 && Eight(199) == 0x05005713
    ensures Eight(200) == 0x95bf4a82 && Eight(201) == 0xe2b87a14 && Eight(202) == 0x7bb12bae && Eight(203) == 0x0cb61b38
    ensures Eight(204) == 0x92d28e9b && Eight(205) == 0xe5d5be0d && Eight(206) == 0x7cdcefb7 && Eight(207) == 0x0bdbdf21
  {
    hide Eight;
    Row0();
    EightBy(0xc0, 0xc, 0x9b64c2b0);
    EightSum(0xc0, 1, 0x9b64c2b0, 0x77073096);
    EightSum(0xc0, 2, 0x9b64c2b0, 0xee0e612c);
    EightSum(0xc0, 3, 0x9b64c2b0, 0x990951ba);
    EightSum(0xc0, 4, 0x9b64c2b0, 0x076dc419);
    EightSum(0xc0, 5, 0x9b64c2b0, 0x706af48f);
    EightSum(0xc0, 6, 0x9b64c2b0, 0xe963a535);
    EightSum(0xc0, 7, 0x9b64c2b0, 0x9e6495a3);
    EightSum(0xc0, 8, 0x9b64c2b0, 0x0edb8832);
    EightSum(0xc0, 9, 0x9b64c2b0, 0x79dcb8a4);
    EightSum(0xc0, 10, 0x9b64c2b0, 0xe0d5e91e);
    EightSum(0xc0, 11, 0x9b64c2b0, 0x97d2d988);
    EightSum(0xc0, 12, 0x9b64c2b0, 0x09b64c2b);
    EightSum(0xc0, 13, 0x9b64c2b0, 0x7eb17cbd);
    EightSum(0xc0, 14, 0x9b64c2b0, 0xe7b82d07);
    EightSum(0xc0, 15, 0x9b64c2b0, 0x90bf1d91);
  }

  lemma Row13()
    ensures Eight(208) == 0x86d3d2d4 && Eight(209) == 0xf1d4e242 && Eight(210) == 0x68ddb3f8 && Eight(211) == 0x1fda836e
    ensures Eight(212) == 0x81be16cd && Eight(213) == 0xf6b9265b && Eight(214) == 0x6fb077e1 && Eight(215) == 0x18b74777
    ensures Eight(216) == 0x88085ae6 && Eight(217) == 0xff0f6a70 && Eight(218) == 0x66063bca && Eight(219) == 0x11010b5c
    ensures Eight(220) == 0x8f659eff && Eight(221) == 0xf862ae69 && Eight(222) == 0x616bffd3 && Eight(223) == 0x166ccf45
  {
    hide Eight;
    Row0();
    EightBy(0xd0, 0xd, 0x86d3d2d4);
    EightSum(0xd0, 1, 0x86d3d2d4, 0x77073096);
    EightSum(0xd0, 2, 0x86d3d2d4, 0xee0e612c);
    EightSum(0xd0, 3, 0x86d3d2d4, 0x990951ba);
    EightSum(0xd0, 4, 0x86d3d2d4, 0x076dc419);
    EightSum(0xd0, 5, 0x86d3d2d4, 0x706af48f);
    EightSum(0xd0, 6, 0x86d3d2d4, 0xe963a535);
    EightSum(0xd0, 7, 0x86d3d2d4, 0x9e6495a3);
    EightSum(0xd0, 8, 0x86d3d2d4, 0x0edb8832);
    EightSum(0xd0, 9, 0x86d3d2d4, 0x79dcb8a4);
    EightSum(0xd0, 10, 0x86d3d2d4, 0xe0d5e91e);
    EightSum(0xd0, 11, 0x86d3d2d4, 0x97d2d988);
    EightSum(0xd0, 12, 0x86d3d2d4, 0x09b64c2b);
    EightSum(0xd0, 13, 0x86d3d2d4, 0x7eb17cbd);
    EightSum(0xd0, 14, 0x86d3d2d4, 0xe7b82d07);
    EightSum(0xd0, 15, 0x86d3d2d4, 0x90bf1d91);
  }

  lemma Row14()
    ensures Eight(224) == 0xa00ae278 && Eight(225) == 0xd70dd2ee && Eight(226) == 0x4e048354 && Eight(227) == 0x3903b3c2
    ensures Eight(228) == 0xa7672661 && Eight(229) == 0xd06016f7 && Eight(230) == 0x4969474d && Eight(231) == 0x3e6e77db
    ensures Eight(232) == 0xaed16a4a && Eight(233) == 0xd9d65adc && Eight(234) == 0x40df0b66 && Eight(235) == 0x37d83bf0
    ensures Eight(236) == 0xa9bcae53 && Eight(237) == 0xdebb9ec5 && Eight(238) == 0x47b2cf7f && Eight(239) == 0x30b5ffe9
  {
    hide Eight;
    Row0();
    EightBy(0xe0, 0xe, 0xa00ae278);
    EightSum(0xe0, 1, 0xa00ae278, 0x77073096);
    EightSum(0xe0, 2, 0xa00ae278, 0xee0e612c);
    EightSum(0xe0, 3, 0xa00ae278, 0x990951ba);
    EightSum(0xe0, 4, 0xa00ae278, 0x076dc419);
    EightSum(0xe0, 5, 0xa00ae278, 0x706af48f);
    EightSum(0xe0, 6, 0xa00ae278, 0xe963a535);
    EightSum(0xe0, 7, 0xa00ae278, 0x9e6495a3);
    EightSum(0xe0, 8, 0xa00ae278, 0x0edb8832);
    EightSum(0xe0, 9, 0xa00ae278, 0x79dcb8a4);
    EightSum(0xe0, 10, 0xa00ae278, 0xe0d5e91e);
    EightSum(0xe0, 11, 0xa00ae278, 0x97d2d988);
    EightSum(0xe0, 12, 0xa00ae278, 0x09b64c2b);
    EightSum(0xe0, 13, 0xa00ae278, 0x7eb17cbd);
    EightSum(0xe0, 14, 0xa00ae278, 0xe7b82d07);
    EightSum(0xe0, 15, 0xa00ae278, 0x90bf1d91);
  }

  lemma Row15()
    ensures Eight(240) == 0xbdbdf21c && Eight(241) == 0xcabac28a && Eight(242) == 0x53b39330 && Eight(243) == 0x24b4a3a6
    ensures Eight(244) == 0xbad03605 && Eight(245) == 0xcdd70693 && Eight(246) == 0x54de5729 && Eight(247) == 0x23d967bf
    ensures Eight(248) == 0xb3667a2e && Eight(249) == 0xc4614ab8 && Eight(250) == 0x5d681b02 && Eight(251) == 0x2a6f2b94
    ensures Eight(252) == 0xb40bbe37 && Eight(253) == 0xc30c8ea1 && Eight(254) == 0x5a05df1b && Eight(255) == 0x2d02ef8d
  {
    hide Eight;
    Row0();
    EightBy(0xf0, 0xf, 0xbdbdf21c);
    EightSum(0xf0, 1, 0xbdbdf21c, 0x77073096);
    EightSum(0xf0, 2, 0xbdbdf21c, 0xee0e612c);
    EightSum(0xf0, 3, 0xbdbdf21c, 0x990951ba);
    EightSum(0xf0, 4, 0xbdbdf21c, 0x076dc419);
    EightSum(0xf0, 5, 0xbdbdf21c, 0x706af48f);
    EightSum(0xf0, 6, 0xbdbdf21c, 0xe963a535);
    EightSum(0xf0, 7, 0xbdbdf21c, 0x9e6495a3);
    EightSum(0xf0, 8, 0xbdbdf21c, 0x0edb8832);
    EightSum(0xf0, 9, 0xbdbdf21c, 0x79dcb8a4);
    EightSum(0xf0, 10, 0xbdbdf21c, 0xe0d5e91e);
    EightSum(0xf0, 11, 0xbdbdf21c, 0x97d2d988);
    EightSum(0xf0, 12, 0xbdbdf21c, 0x09b64c2b);
    EightSum(0xf0, 13, 0xbdbdf21c, 0x7eb17cbd);
    EightSum(0xf0, 14, 0xbdbdf21c, 0xe7b82d07);
    EightSum(0xf0, 15, 0xbdbdf21c, 0x90bf1d91);
  }

  lemma Row0Is(x: bv32)
    requires 0x0 <= x <= 0xf
    ensures Entries0(x) == Eight(x)
  {
    hide Eight;
    Row0();
  }

  lemma Row1Is(x: bv32)
    requires 0x10 <= x <= 0x1f
    ensures Entries1(x) == Eight(x)
  {
    hide Eight;
    Row1();
  }

  lemma Row2Is(x: bv32)
    requires 0x20 <= x <= 0x2f
    ensures Entries2(x) == Eight(x)
  {
    hide Eight;
    Row2();
  }

  lemma Row3Is(x: bv32)
    requires 0x30 <= x <= 0x3f
    ensures Entries3(x) == Eight(x)
  {
    hide Eight;
    Row3();
  }

  lemma Row4Is(x: bv32)
    requires 0x40 <= x <= 0x4f
    ensures Entries4(x) == Eight(x)
  {
    hide Eight;
    Row4();
  }

  lemma Row5Is(x: bv32)
    requires 0x50 <= x <= 0x5f
    ensures Entries5(x) == Eight(x)
  {
    hide Eight;
    Row5();
  }

  lemma Row6Is(x: bv32)
    requires 0x60 <= x <= 0x6f
    ensures Entries6(x) == Eight(x)
  {
    hide Eight;
    Row6();
  }

  lemma Row7Is(x: bv32)
    requires 0x70 <= x <= 0x7f
    ensures Entries7(x) == Eight(x)
  {
    hide Eight;
    Row7();
  }

  lemma Row8Is(x: bv32)
    requires 0x80 <= x <= 0x8f
    ensures Entries8(x) == Eight(x)
  {
    hide Eight;
    Row8();
  }

  lemma Row9Is(x: bv32)
    requires 0x90 <= x <= 0x9f
    ensures Entries9(x) == Eight(x)
  {
    hide Eight;
    Row9();
  }

  lemma Row10Is(x: bv32)
    requires 0xa0 <= x <= 0xaf
    ensures Entries10(x) == Eight(x)
  {
    hide Eight;
    Row10();
  }

  lemma Row11Is(x: bv32)
    requires 0xb0 <= x <= 0xbf
    ensures Entries11(x) == Eight(x)
  {
    hide Eight;
    Row11();
  }

  lemma Row12Is(x: bv32)
    requires 0xc0 <= x <= 0xcf
    ensures Entries12(x) == Eight(x)
  {
    hide Eight;
    Row12();
  }

  lemma Row13Is(x: bv32)
    requires 0xd0 <= x <= 0xdf
    ensures Entries13(x) == Eight(x)
  {
    hide Eight;
    Row13();
  }

  lemma Row14Is(x: bv32)
    requires 0xe0 <= x <= 0xef
    ensures Entries14(x) == Eight(x)
  {
    hide Eight;
    Row14();
  }

  lemma Row15Is(x: bv32)
    requires 0xf0 <= x <= 0xff
    ensures Entries15(x) == Eight(x)
  {
    hide Eight;
    Row15();
  }

  /** The large table is eight steps. */
  lemma Table256Is(x: bv32)
    requires x <= 0xff
    ensures Table256(x) == Eight(x)
  {
    hide Eight, Entries0, Entries1, Entries2, Entries3, Entries4, Entries5, Entries6, Entries7, Entries8, Entries9,
      Entries10, Entries11, Entries12, Entries13, Entries14, Entries15;
    if x <= 0xf {
      Row0Is(x);
    } else if x <= 0x1f {
      Row1Is(x);
    } else if x <= 0x2f {
      Row2Is(x);
    } else if x <= 0x3f {
      Row3Is(x);
    } else if x <= 0x4f {
      Row4Is(x);
    } else if x <= 0x5f {
      Row5Is(x);
    } else if x <= 0x6f {
      Row6Is(x);
    } else if x <= 0x7f {
      Row7Is(x);
    } else if x <= 0x8f {
      Row8Is(x);
    } else if x <= 0x9f {
      Row9Is(x);
    } else if x <= 0xaf {
      Row10Is(x);
    } else if x <= 0xbf {
      Row11Is(x);
    } else if x <= 0xcf {
      Row12Is(x);
    } else if x <= 0xdf {
      Row13Is(x);
    } else if x <= 0xef {
      Row14Is(x);
    } else {
      Row15Is(x);
    }
  }

  lemma ByteIsSmall(b: bv8)
    ensures b as bv32 <= 0xff
  {
  }

  lemma HighBits(c: bv32, r: bv32)
    requires r <= 0xff
    ensures Down8(Xor(c, r)) == Down8(c)
    ensures Low8(Xor(c, r)) <= 0xff && Low4(c) <= 0xf
  {
  }

  /** One look into the large table takes in a byte. */
  lemma LongStep(c: bv32, r: bv32)
    requires r <= 0xff
    ensures Xor(Table256(Low8(Xor(c, r))), Down8(c)) == TakeByte(c, r)
  {
    hide Eight, Xor, Low8, Down8, Table256, TakeByte;
    HighBits(c, r);
    TakeByteIsEight(c, r);
    Octet(Xor(c, r));
    Table256Is(Low8(Xor(c, r)));
  }

  lemma NibbleBits(c: bv32, r: bv32)
    requires r <= 0xff
    ensures Low4(Xor(c, Low4(r))) == Low4(Xor(c, r)) && Down4(Xor(c, r)) == Xor(Down4(c), Down4(r))
    ensures Down4(r) <= 0xf && Down4(Down4(r)) == 0
  {
  }

  lemma SecondNibble(c: bv32, h: bv32)
    requires h <= 0xf
    ensures Down4(Xor(c, h)) == Down4(c)
  {
  }

  /** Two looks into the small table take in a byte. */
  lemma ShortStep(c: bv32, r: bv32)
    requires r <= 0xff
    ensures var d := Xor(Table16(Low4(Xor(c, Low4(r)))), Down4(c));
      Xor(Table16(Low4(Xor(d, Down4(r)))), Down4(d)) == TakeByte(c, r)
  {
    hide Four, Xor, Low4, Low8, Down4, Down8, Table16, TakeByte;
    var x := Xor(c, r);
    NibbleBits(c, r);
    HighBits(x, r);
    TakeByteIsEight(c, r);
    Table16Is(Low4(x));
    var d := Xor(Table16(Low4(x)), Down4(c));
    Nibble(x);
    Grouped(Table16(Low4(x)), Down4(c), Down4(r));
    var y := Xor(d, Down4(r));
    HighBits(y, r);
    Table16Is(Low4(y));
    Nibble(y);
    SecondNibble(d, Down4(r));
  }

  /** The small table, four bits at a time. */
  method Short(data: seq<bv8>) returns (crc: bv32)
    ensures crc == Crc(data)
  {
    hide TakeByte, Table16, Xor, Low4, Down4;
    crc := 0xffff_ffff;
    var i := 0;
    while i < |data|
      invariant 0 <= i <= |data| && crc == Register(0xffff_ffff, data, i)
    {
      var b := data[i] as bv32;
      ByteIsSmall(data[i]);
      ShortStep(crc, b);
      crc := Xor(Table16(Low4(Xor(crc, Low4(b)))), Down4(crc));
      crc := Xor(Table16(Low4(Xor(crc, Down4(b)))), Down4(crc));
      i := i + 1;
    }
    crc := Xor(crc, 0xffff_ffff);
  }

  /** The large table, a byte at a time. */
  method Long(data: seq<bv8>) returns (crc: bv32)
    ensures crc == Crc(data)
  {
    hide TakeByte, Table256, Xor, Low8, Down8;
    crc := 0xffff_ffff;
    var i := 0;
    while i < |data|
      invariant 0 <= i <= |data| && crc == Register(0xffff_ffff, data, i)
    {
      var b := data[i] as bv32;
      ByteIsSmall(data[i]);
      LongStep(crc, b);
      crc := Xor(Table256(Low8(Xor(crc, b))), Down8(crc));
      i := i + 1;
    }
    crc := Xor(crc, 0xffff_ffff);
  }

  /** A prefix of the data decides a prefix of the work. */
  lemma {:induction false} RegisterPrefix(c: bv32, a: seq<bv8>, b: seq<bv8>, n: nat)
    requires n <= |a|
    ensures Register(c, a + b, n) == Register(c, a, n)
  {
    hide TakeByte;
    if n > 0 {
      RegisterPrefix(c, a, b, n - 1);
    }
  }

  /** Taking in two pieces is taking in their concatenation. */
  lemma {:induction false} RegisterSplit(c: bv32, a: seq<bv8>, b: seq<bv8>, n: nat)
    requires n <= |b|
    ensures Register(Register(c, a, |a|), b, n) == Register(c, a + b, |a| + n)
  {
    hide TakeByte;
    if n == 0 {
      RegisterPrefix(c, a, b, |a|);
    } else {
      RegisterSplit(c, a, b, n - 1);
      assert (a + b)[|a| + n - 1] == b[n - 1];
    }
  }

  /** The streaming form, for data that comes in pieces. */
  class Stream {
    var crc: bv32
    /** What has been taken in. */
    ghost var data: seq<bv8>

    constructor Init()
      ensures Valid() && data == []
    {
      crc, data := 0xffff_ffff, [];
    }

    ghost predicate Valid()
      reads this
    {
      crc == Register(0xffff_ffff, data, |data|)
    }

    method Update(piece: seq<bv8>)
      requires Valid()
      modifies this
      ensures Valid() && data == old(data) + piece
    {
      hide TakeByte, Table256, Xor, Low8, Down8;
      ghost var c0 := crc;
      var c, i := crc, 0;
      while i < |piece|
        invariant 0 <= i <= |piece| && c == Register(c0, piece, i) && crc == c0 && data == old(data)
      {
        var b := piece[i] as bv32;
        ByteIsSmall(piece[i]);
        LongStep(c, b);
        c := Xor(Table256(Low8(Xor(c, b))), Down8(c));
        i := i + 1;
      }
      RegisterSplit(0xffff_ffff, data, piece, |piece|);
      crc, data := c, data + piece;
    }

    /** The check of everything that came in, however it was cut up. */
    method Final() returns (r: bv32)
      requires Valid()
      ensures r == Crc(data)
    {
      hide Register, Xor;
      r := Xor(crc, 0xffff_ffff);
    }
  }

  /** The check of "abc" is 352441c2. */
  lemma CheckOfAbc()
    ensures Crc([0x61, 0x62, 0x63]) == 0x352441c2
  {
    hide TakeByte, Table256, Xor, Low8, Down8;
    var data: seq<bv8> := [0x61, 0x62, 0x63];
    AbcSteps();
    LongStep(0xffffffff, 0x61);
    assert Register(0xffff_ffff, data, 1) == 0x174841bc;
    LongStep(0x174841bc, 0x62);
    assert Register(0xffff_ffff, data, 2) == 0x617cb792;
    LongStep(0x617cb792, 0x63);
    assert Register(0xffff_ffff, data, 3) == 0xcadbbe3d;
  }

  lemma AbcSteps()
    ensures Xor(Table256(Low8(Xor(0xffffffff, 0x61))), Down8(0xffffffff)) == 0x174841bc
    ensures Xor(Table256(Low8(Xor(0x174841bc, 0x62))), Down8(0x174841bc)) == 0x617cb792
    ensures Xor(Table256(Low8(Xor(0x617cb792, 0x63))), Down8(0x617cb792)) == 0xcadbbe3d
    ensures Xor(0xcadbbe3d, 0xffff_ffff) == 0x352441c2
  {
  }
}
