/** IPv6 addresses as text: the parser, the printer, and what each is meant to compute. */
module Inet6 {
  import opened Common

  type Byte = x: int | 0 <= x < 256

  /** What the dotted parser answers when it fails; also a perfectly good address. */
  const INADDR_NONE := 0xffff_ffff

  predicate IsDigit(c: char) {
    '0' <= c <= '9'
  }

  predicate IsHex(c: char) {
    IsDigit(c) || 'a' <= c <= 'f' || 'A' <= c <= 'F'
  }

  function Value(c: char): (v: nat)
    requires IsHex(c)
    ensures v < 16
  {
    if IsDigit(c) then (c - '0') as int
    else if 'a' <= c <= 'f' then (c - 'a') as int + 10
    else (c - 'A') as int + 10
  }

  const LOWER_DIGITS := "0123456789abcdef"
  const UPPER_DIGITS := "0123456789ABCDEF"

  /** The digits and their values. */
  lemma DigitValues()
    ensures forall c :: IsHex(c) <==> c in LOWER_DIGITS || c in UPPER_DIGITS
    ensures forall k :: 0 <= k < 16 ==>
      && IsHex(LOWER_DIGITS[k]) && Value(LOWER_DIGITS[k]) == k && IsHex(UPPER_DIGITS[k]) && Value(UPPER_DIGITS[k]) == k
  {
    forall c | IsHex(c) ensures c in LOWER_DIGITS || c in UPPER_DIGITS {
      var v := Value(c);
      assert c == LOWER_DIGITS[v] || c == UPPER_DIGITS[v];
    }
  }

  /** The dotted parser from text[i] on: `addr` holds the octets so far, n of them ended by a dot. */
  function Dotted(text: string, i: nat, addr: nat, octet: nat, n: nat): nat
    requires i <= |text|
    decreases |text| - i
  {
    if i == |text| then
      if n == 3 then (addr * 256 + octet) % 0x1_0000_0000 else INADDR_NONE
    else if IsDigit(text[i]) then
      var octet := octet * 10 + Value(text[i]);
      if octet > 255 then INADDR_NONE else Dotted(text, i + 1, addr, octet, n)
    else if text[i] == '.' then Dotted(text, i + 1, (addr * 256 + octet) % 0x1_0000_0000, 0, n + 1)
    else INADDR_NONE
  }

  method InetAddr(text: string, from: nat) returns (r: nat)
    requires from <= |text|
    ensures r == Dotted(text, from, 0, 0, 0)
  {
    var addr: nat, octet: nat, n: nat, p := 0, 0, 0, from;
    while p < |text|
      invariant from <= p <= |text|
      invariant Dotted(text, p, addr, octet, n) == Dotted(text, from, 0, 0, 0)
    {
      var c := text[p];
      p := p + 1;
      if '0' <= c <= '9' {
        octet := octet * 10 + (c - '0') as int;
        if octet > 255 { return INADDR_NONE; }
        continue;
      }
      if c == '.' {
        addr := (addr * 256 + octet) % 0x1_0000_0000;
        octet := 0;
        n := n + 1;
        continue;
      }
      return INADDR_NONE;
    }
    if n == 3 {
      return (addr * 256 + octet) % 0x1_0000_0000;
    }
    return INADDR_NONE;
  }

  /** The parser between two characters: the bytes written, where "::" was (or -1),
      what follows the last colon (or -1), and the group being read. */
  datatype Scan = Scan(out: seq<Byte>, zero: int, mark: int, nibbles: nat, word: nat)

  const START := Scan([], -1, -1, 0, 0)

  function Hi(word: nat): Byte {
    word / 256 % 256
  }

  function Lo(word: nat): Byte {
    word % 256
  }

  function Zeros(n: nat): (z: seq<Byte>) {
    seq(n, _ => 0)
  }

  /** The address when the text ends: the last group goes out and "::" is filled up. */
  function Finish(s: Scan): Option<seq<Byte>>
    requires |s.out| <= 14 && s.zero <= |s.out|
  {
    if s.nibbles == 0 && s.zero < 0 then None
    else
      var out := s.out + [Hi(s.word), Lo(s.word)];
      if |out| < 16 then
        if s.zero >= 0 then Some(out[..s.zero] + Zeros(16 - |out|) + out[s.zero..]) else None
      else if s.zero < 0 then Some(out)
      else None
  }

  function Read(text: string, i: nat, s: Scan): Option<seq<Byte>>
    requires i <= |text| && |s.out| <= 14 && s.zero <= |s.out| && s.mark <= i
    decreases |text| - i
  {
    if i == |text| then Finish(s)
    else if text[i] == ':' then
      if s.nibbles > 0 then
        if |s.out| > 12 then None
        else Read(text, i + 1, Scan(s.out + [Hi(s.word), Lo(s.word)], s.zero, i + 1, 0, 0))
      else if s.zero < 0 then Read(text, i + 1, s.(zero := |s.out|, mark := i + 1))
      else None
    else if text[i] == '.' && s.nibbles > 0 then
      if |s.out| > 12 || s.mark < 0 then None
      else
        var v4 := Dotted(text, s.mark, 0, 0, 0);
        if v4 == INADDR_NONE then None
        else Finish(s.(out := s.out + [Hi(v4 / 0x1_0000), Lo(v4 / 0x1_0000)], word := v4))
    else if s.nibbles >= 4 || !IsHex(text[i]) then None
    else Read(text, i + 1, s.(nibbles := s.nibbles + 1, word := s.word * 16 + Value(text[i])))
  }

  function Parse(text: string): Option<seq<Byte>> {
    if text == "" then None
    else Read(text, if text[0] == ':' then 1 else 0, START)
  }

  lemma GapFilled(was: seq<Byte>, now: seq<Byte>, n: nat, zero: nat)
    requires zero <= |was| && |now| == |was| + n
    requires forall k :: 0 <= k < zero ==> now[k] == was[k]
    requires forall k :: zero <= k < zero + n ==> now[k] == 0
    requires forall k :: zero + n <= k < |now| ==> now[k] == was[k - n]
    ensures now == was[..zero] + Zeros(n) + was[zero..]
  {
  }

  /** Moves addr[zero..at] to the end and clears the gap. */
  method FillGap(addr: array<Byte>, at: nat, zero: nat)
    requires addr.Length == 16 && zero <= at < 16
    modifies addr
    ensures addr[..] == old(addr[..at][..zero]) + Zeros(16 - at) + old(addr[..at][zero..])
  {
    var n := 16 - at;
    var s, d := at - 1, at - 1 + n;
    while s >= zero
      invariant zero - 1 <= s < at && d == s + n
      invariant forall k :: 0 <= k <= s ==> addr[k] == old(addr[k])
      invariant forall k :: d < k < 16 ==> addr[k] == old(addr[k - n])
    {
      addr[d] := addr[s];
      s, d := s - 1, d - 1;
    }
    forall k | zero <= k < zero + n {
      addr[k] := 0;
    }
    assert old(addr[..at]) == old(addr[..])[..at];
    GapFilled(old(addr[..])[..at], addr[..], n, zero);
  }

  /** Writes the bytes of `word` at `at`. */
  method PutWord(addr: array<Byte>, at: nat, word: nat)
    requires at + 2 <= addr.Length
    modifies addr
    ensures addr[..at + 2] == old(addr[..at]) + [Hi(word), Lo(word)]
  {
    addr[at] := word / 256 % 256;
    addr[at + 1] := word % 256;
  }

  /** Writes the last group and opens the gap. */
  method Close(addr: array<Byte>, at: nat, zero: int, nibbles: nat, word: nat, ghost s: Scan) returns (ok: bool)
    requires addr.Length == 16 && at <= 14 && zero <= at
    requires s.out == addr[..at] && s.zero == zero && s.nibbles == nibbles && s.word == word
    modifies addr
    ensures ok == Finish(s).Some?
    ensures ok ==> addr[..] == Finish(s).value
  {
    if nibbles == 0 && zero < 0 { return false; }
    PutWord(addr, at, word);
    if at + 2 < 16 {
      if zero >= 0 {
        FillGap(addr, at + 2, zero);
        return true;
      }
    } else if zero < 0 {
      return true;
    }
    return false;
  }

  /** The parser: at most the sixteen bytes of `addr` are written, whatever the text is. */
  method Inet6Addr(text: string, addr: array<Byte>) returns (ok: bool)
    requires addr.Length == 16
    modifies addr
    ensures ok == Parse(text).Some?
    ensures ok ==> addr[..] == Parse(text).value
  {
    hide Dotted;
    if |text| == 0 { return false; }
    var at: nat, zero: int, digit: int, nibbles: nat, word: nat, n := 0, -1, -1, 0, 0, 8;
    var p := if text[0] == ':' then 1 else 0;
    ghost var s := START;
    while p < |text|
      invariant p <= |text| && at == 16 - 2 * n <= 14 && zero <= at && digit <= p
      invariant s == Scan(addr[..at], zero, digit, nibbles, word)
      invariant Parse(text) == Read(text, p, s)
    {
      hide Finish;
      var c := text[p];
      p := p + 1;
      if c == ':' {
        if nibbles > 0 {
          digit := p;
          PutWord(addr, at, word);
          at, n := at + 2, n - 1;
          if n == 0 { return false; }
          nibbles, word := 0, 0;
          s := Scan(s.out + [Hi(s.word), Lo(s.word)], s.zero, p, 0, 0);
        } else if zero < 0 {
          digit, zero := p, at;
          s := s.(zero := |s.out|, mark := p);
        } else {
          return false;
        }
      } else if c == '.' && nibbles > 0 {
        if n < 2 || digit < 0 { return false; }
        var v4 := InetAddr(text, digit);
        if v4 == INADDR_NONE { return false; }
        PutWord(addr, at, v4 / 0x1_0000);
        s := s.(out := s.out + [Hi(v4 / 0x1_0000), Lo(v4 / 0x1_0000)], word := v4);
        word, at, n := v4, at + 2, n - 1;
        break;
      } else {
        nibbles := nibbles + 1;
        if nibbles > 4 || !IsHex(c) { return false; }
        word := word * 16 + Value(c);
        s := s.(nibbles := nibbles, word := word);
      }
    }
    ok := Close(addr, at, zero, nibbles, word, s);
  }
}
