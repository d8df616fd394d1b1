/** The texts that the IPv6 parser accepts are those of the accepted forms, and no others. */
module Inet6Grammar {
  import opened Common
  import opened Text
  import opened Inet6
  import opened Inet6Laws

  // ----- dotted addresses

  /** After too many dots there is no way back. */
  lemma {:induction false} ManyDots(text: string, i: nat, addr: nat, octet: nat, n: nat)
    requires i <= |text| && n >= 4
    ensures Dotted(text, i, addr, octet, n) == INADDR_NONE
    decreases |text| - i
  {
    if i < |text| {
      if IsDigit(text[i]) {
        if octet * 10 + Value(text[i]) <= 255 { ManyDots(text, i + 1, addr, octet * 10 + Value(text[i]), n); }
      } else if text[i] == '.' {
        ManyDots(text, i + 1, (addr * 256 + octet) % 0x1_0000_0000, 0, n + 1);
      }
    }
  }

  lemma {:induction false} DecPrefix(o: string, p: string, n: nat)
    requires AllDigits(o) && AllDigits(p) && n <= |o| && n <= |p| && o[..n] == p[..n]
    ensures DecValue(o, n) == DecValue(p, n)
  {
    if n > 0 {
      assert o[..n - 1] == o[..n][..n - 1] && p[..n - 1] == p[..n][..n - 1];
      assert o[n - 1] == o[..n][n - 1] && p[n - 1] == p[..n][n - 1];
      DecPrefix(o, p, n - 1);
    }
  }

  lemma DecSnoc(o: string, c: char)
    requires AllDigits(o) && IsDigit(c)
    ensures AllDigits(o + [c]) && DecValue(o + [c], |o| + 1) == DecValue(o, |o|) * 10 + Value(c)
  {
    DecPrefix(o, o + [c], |o|);
  }

  /** An octet, up to a dot or the end of the text. */
  lemma {:induction false} OctetShape(text: string, i: nat, j: nat, addr: nat, n: nat) returns (e: nat)
    requires i <= j <= |text| && IsOctet(text[i..j])
    requires Dotted(text, j, addr, Octet(text[i..j]), n) != INADDR_NONE
    ensures j <= e <= |text| && IsOctet(text[i..e]) && (e == |text| || text[e] == '.')
    ensures Dotted(text, e, addr, Octet(text[i..e]), n) == Dotted(text, j, addr, Octet(text[i..j]), n)
    decreases |text| - j
  {
    if j == |text| || text[j] == '.' {
      e := j;
    } else {
      assert IsDigit(text[j]);
      DecSnoc(text[i..j], text[j]);
      assert text[i..j + 1] == text[i..j] + [text[j]];
      e := OctetShape(text, i, j + 1, addr, n);
    }
  }

  /** An octet with a dot behind it. */
  lemma OctetDot(text: string, i: nat, addr: nat, n: nat) returns (e: nat, addr': nat)
    requires i <= |text| && n < 3 && Dotted(text, i, addr, 0, n) != INADDR_NONE
    ensures i <= e < |text| && IsOctet(text[i..e]) && text[e] == '.'
    ensures Dotted(text, e + 1, addr', 0, n + 1) != INADDR_NONE
  {
    assert text[i..i] == "";
    e := OctetShape(text, i, i, addr, n);
    addr' := (addr * 256 + Octet(text[i..e])) % 0x1_0000_0000;
  }

  /** A dotted address is four octets. */
  lemma {:induction false} QuadShape(text: string, i: nat) returns (a: string, b: string, c: string, d: string)
    requires i <= |text| && Dotted(text, i, 0, 0, 0) != INADDR_NONE
    ensures IsOctet(a) && IsOctet(b) && IsOctet(c) && IsOctet(d)
    ensures text[i..] == a + ("." + (b + ("." + (c + ("." + d)))))
  {
    hide IsOctet, Octet, Dotted;
    var j, addr := OctetDot(text, i, 0, 0);
    var k, addr' := OctetDot(text, j + 1, addr, 1);
    var l, addr'' := OctetDot(text, k + 1, addr', 2);
    LastShape(text, l + 1, addr'');
    a, b, c, d := text[i..j], text[j + 1..k], text[k + 1..l], text[l + 1..];
    assert text[k + 1..] == c + ("." + d);
    assert text[j + 1..] == b + ("." + text[k + 1..]);
    assert text[i..] == a + ("." + text[j + 1..]);
  }

  lemma LastShape(text: string, i: nat, addr: nat)
    requires i <= |text| && Dotted(text, i, addr, 0, 3) != INADDR_NONE
    ensures IsOctet(text[i..])
  {
    assert text[i..i] == "";
    var e := OctetShape(text, i, i, addr, 3);
    if e < |text| {
      ManyDots(text, e + 1, (addr * 256 + Octet(text[i..e])) % 0x1_0000_0000, 0, 4);
    }
    assert text[i..e] == text[i..];
  }

  // ----- groups and colons

  predicate Ends(text: string, e: nat) {
    e == |text| || (e < |text| && (text[e] == ':' || text[e] == '.'))
  }

  /** The hexadecimal digits from i on, of which j - i have been read. */
  lemma {:induction false} GroupShape(text: string, i: nat, j: nat, s: Scan) returns (e: nat)
    requires i <= j <= |text| && |s.out| <= 14 && s.zero <= |s.out| && s.mark <= j
    requires s.nibbles == j - i <= 4 && (forall k :: i <= k < j ==> IsHex(text[k])) && Read(text, j, s).Some?
    ensures j <= e <= |text| && e - i <= 4 && Ends(text, e) && forall k :: i <= k < e ==> IsHex(text[k])
    ensures e < |text| && text[e] == '.' ==> e > i
    decreases |text| - j
  {
    hide Finish, Dotted;
    if j == |text| || text[j] == ':' || (text[j] == '.' && s.nibbles > 0) {
      e := j;
    } else {
      e := GroupShape(text, i, j + 1, s.(nibbles := s.nibbles + 1, word := s.word * 16 + Value(text[j])));
    }
  }

  /** The shape of a text from a place between two groups on. */
  predicate Shape(text: string, gs: seq<string>, gap: bool, right: seq<string>, last: Last) {
    && AllGroups(gs) && AllGroups(right) && LastOk(last) && (gap || right == [])
    && text == Lead(gs) + ((if gap then ":" else "") + (Lead(right) + LastText(last)))
  }

  lemma MoreGroups(g: string, gs: seq<string>)
    requires IsGroup(g) && AllGroups(gs)
    ensures AllGroups([g] + gs) && Lead([g] + gs) == g + (":" + Lead(gs))
  {
    var all := [g] + gs;
    assert all[1..] == gs;
    forall k | 0 <= k < |all| ensures IsGroup(all[k]) {
      if k > 0 { assert all[k] == gs[k - 1]; }
    }
  }

  lemma ShapeGroup(g: string, text: string, gs: seq<string>, gap: bool, right: seq<string>, last: Last)
    requires IsGroup(g) && Shape(text, gs, gap, right, last)
    ensures Shape(g + (":" + text), [g] + gs, gap, right, last)
  {
    hide Lead, LastText, AllGroups, LastOk, IsGroup;
    MoreGroups(g, gs);
    Regroup(g, Lead(gs), (if gap then ":" else "") + (Lead(right) + LastText(last)));
  }

  lemma Regroup(g: string, lead: string, rest: string)
    ensures g + (":" + (lead + rest)) == (g + (":" + lead)) + rest
  {
  }

  lemma ShapeGap(text: string, gs: seq<string>, last: Last)
    requires Shape(text, gs, false, [], last)
    ensures Shape(":" + text, [], true, gs, last)
  {
    assert Lead([]) == "";
    assert text == Lead(gs) + LastText(last);
  }

  lemma ShapeEnd(last: Last)
    requires LastOk(last)
    ensures Shape(LastText(last), [], false, [], last)
  {
    assert Lead([]) == "";
    assert "" + ("" + ("" + LastText(last))) == LastText(last);
  }

  /** A quad behind the last colon; its first octet is what was read as a group. */
  lemma QuadEnd(text: string, i: nat, e: nat) returns (last: Last)
    requires i < e < |text| && e - i <= 4 && text[e] == '.' && (forall k :: i <= k < e ==> IsHex(text[k]))
    requires Dotted(text, i, 0, 0, 0) != INADDR_NONE
    ensures LastOk(last) && LastText(last) == text[i..]
  {
    var a, b, c, d := QuadShape(text, i);
    var rest := "." + (b + ("." + (c + ("." + d))));
    assert text[i..] == a + rest;
    assert text[i + |a|] == text[i..][|a|] == '.' && !IsHex('.');
    forall k | i <= k < i + |a| ensures text[k] != '.' {
      assert text[k] == text[i..][k - i] == a[k - i] && IsDigit(a[k - i]);
    }
    last := Quad(a, b, c, d);
  }

  /** Whatever is read to the end has the shape of a form. */
  lemma {:induction false} ReadShape(text: string, i: nat, s: Scan, n: nat)
    returns (gs: seq<string>, gap: bool, right: seq<string>, last: Last)
    requires i <= |text| && Between(s, n) && s.mark <= i && (s.mark >= 0 ==> s.mark == i) && Read(text, i, s).Some?
    ensures Shape(text[i..], gs, gap, right, last) && (s.zero >= 0 ==> !gap)
    decreases |text| - i
  {
    hide Finish, Dotted, Shape, LastText, LastOk;
    var e := GroupShape(text, i, i, s);
    var g := text[i..e];
    gs, gap, right := [], false, [];
    if e > i { GroupRead(text, i, e, s); }
    if e == |text| {
      assert g == text[i..];
      last := if e == i then Nothing else Group(g);
      EndShape(g, last);
    } else if text[e] == '.' {
      assert s.mark == i && Dotted(text, i, 0, 0, 0) != INADDR_NONE;
      last := QuadEnd(text, i, e);
      ShapeEnd(last);
    } else if e > i {
      assert text[i..] == g + (":" + text[e + 1..]);
      var t := Scan(s.out + [Hi(GroupValue(g, |g|)), Lo(GroupValue(g, |g|))], s.zero, e + 1, 0, 0);
      gs, gap, right, last := ReadShape(text, e + 1, t, n + 1);
      ShapeGroup(g, text[e + 1..], gs, gap, right, last);
      gs := [g] + gs;
    } else {
      assert text[i..] == ":" + text[i + 1..];
      Gapped(text, i, s, n);
      var gs', gap', right', last' := ReadShape(text, i + 1, s.(zero := |s.out|, mark := i + 1), n);
      NoSecondGap(text[i + 1..], gs', gap', right', last');
      gap, right, last := true, gs', last';
      ShapeGap(text[i + 1..], gs', last');
    }
  }

  lemma GroupRead(text: string, i: nat, e: nat, s: Scan)
    requires i < e <= |text| && e - i <= 4 && (forall k :: i <= k < e ==> IsHex(text[k]))
    requires |s.out| <= 14 && s.zero <= |s.out| && s.mark <= i && s.nibbles == 0 && s.word == 0
    ensures var g := text[i..e];
      IsGroup(g) && Read(text, i, s) == Read(text, e, s.(nibbles := |g|, word := GroupValue(g, |g|)))
  {
    hide Read;
    var g := text[i..e];
    assert IsGroup(g) && At(text, i, g) && GroupValue(g, 0) == 0;
    ReadGroup(text, i, s, g, 0);
  }

  lemma EndShape(g: string, last: Last)
    requires if last.Nothing? then g == "" else last == Group(g) && IsGroup(g)
    ensures Shape(g, [], false, [], last)
  {
    ShapeEnd(last);
  }

  lemma NoSecondGap(text: string, gs: seq<string>, gap: bool, right: seq<string>, last: Last)
    requires Shape(text, gs, gap, right, last) && !gap
    ensures right == [] && Shape(text, gs, false, [], last)
  {
  }

  // ----- whole texts

  /** Is the text a way to write the form? A single colon in front does not matter. */
  predicate Writes(text: string, f: Form) {
    WellFormed(f) && (text == TextOf(f) || (TextOf(f) != "" && TextOf(f)[0] != ':' && text == ":" + TextOf(f)))
  }

  lemma ShapeForm(text: string, gs: seq<string>, gap: bool, right: seq<string>, last: Last)
    requires Shape(text, gs, gap, right, last)
    ensures var f := Form(gs, gap, right, last);
      && WellFormed(f)
      && if gs == [] && gap then TextOf(f) == ":" + text
         else TextOf(f) == text && (text != "" ==> text[0] != ':')
  {
    var f := Form(gs, gap, right, last);
    assert Lead([]) == "";
    hide Lead, LastText, LastOk, AllGroups;
    if gs != [] || !gap {
      assert Colons(f) == if gap then ":" else "";
      if text != "" { NoColonFirst(f); }
    } else {
      TwoColons(Lead(right) + LastText(last));
    }
  }

  lemma TwoColons(x: string)
    ensures "" + ("::" + x) == ":" + ("" + (":" + x))
  {
  }

  /** Every text that is accepted is a way to write a form. */
  lemma ParseShape(text: string) returns (f: Form)
    requires Parse(text).Some?
    ensures Writes(text, f)
  {
    hide Read, Shape, TextOf, WellFormed;
    var i := if text[0] == ':' then 1 else 0;
    var gs, gap, right, last := ReadShape(text, i, START, 0);
    ShapeForm(text[i..], gs, gap, right, last);
    f := Form(gs, gap, right, last);
    if i == 1 {
      assert text == ":" + text[1..];
      ColonAlone(text);
    } else {
      assert text[0..] == text;
      if gs == [] && gap { GapFirst(text, right, last); }
    }
  }

  lemma ColonAlone(text: string)
    requires Parse(text).Some?
    ensures text != ":"
  {
  }

  lemma GapFirst(text: string, right: seq<string>, last: Last)
    requires Shape(text, [], true, right, last)
    ensures text != "" && text[0] == ':'
  {
    assert Lead([]) == "";
  }

  /** The parser accepts exactly the texts of accepted forms, and answers with the form's value. */
  lemma {:induction false} ParseIff(text: string)
    ensures Parse(text).Some? <==> exists f :: Writes(text, f) && Accepts(f)
    ensures forall f :: Writes(text, f) && Accepts(f) ==> Parse(text) == Some(ValueOf(f))
  {
    forall f | Writes(text, f) ensures Parse(text) == if Accepts(f) then Some(ValueOf(f)) else None {
      ParseForm(f);
      if text != TextOf(f) { LeadingColon(TextOf(f)); }
    }
    if Parse(text).Some? {
      var f := ParseShape(text);
      assert Writes(text, f) && Accepts(f);
    }
  }
}
