/** The tokenizer as it is: a fixed buffer that is refilled, keeping the unfinished word at its front. */
module ConfFile {
  import opened ConfLaws
  import opened ConfTokens

  lemma UnescapeNext(raw: string, i: nat, n: nat)
    requires i <= n <= |raw|
    ensures Unescape(raw, i, n) ==
      if i == n then ""
      else if raw[i] == '\\' && i + 1 < n && IsEscape(raw[i + 1]) then [Escaped(raw[i + 1])] + Unescape(raw, i + 2, n)
      else [raw[i]] + Unescape(raw, i + 1, n)
  {
  }

  /** Unescaping looks at the characters only, not at where they lie. */
  lemma {:induction false} UnescapeMoved(a: string, b: string, d: nat, i: nat, n: nat)
    requires i <= n <= |a| && d + n <= |b|
    requires forall k :: i <= k < n ==> a[k] == b[d + k]
    ensures Unescape(a, i, n) == Unescape(b, d + i, d + n)
    decreases n - i
  {
    hide IsEscape, Escaped, Unescape;
    UnescapeNext(a, i, n);
    UnescapeNext(b, d + i, d + n);
    if i < n {
      assert a[i] == b[d + i];
      if a[i] == '\\' && i + 1 < n && IsEscape(a[i + 1]) {
        UnescapeMoved(a, b, d, i + 2, n);
      } else {
        assert i + 1 < n ==> a[i + 1] == b[d + i + 1];
        UnescapeMoved(a, b, d, i + 1, n);
      }
    }
  }

  lemma {:induction false} PairedMoved(a: string, b: string, d: nat, i: nat, n: nat)
    requires i <= n <= |a| && d + n <= |b|
    requires forall k :: i <= k < n ==> a[k] == b[d + k]
    ensures Paired(a, i, n) == Paired(b, d + i, d + n)
    decreases n - i
  {
    if i < n {
      if a[i] != '\\' {
        PairedMoved(a, b, d, i + 1, n);
      } else if i + 2 <= n {
        PairedMoved(a, b, d, i + 2, n);
      }
    }
  }

  lemma UnescapeStep(raw: string, i: nat, n: nat)
    requires i < n <= |raw| && Paired(raw, i, n)
    ensures var w := if raw[i] == '\\' && IsEscape(raw[i + 1]) then 2 else 1;
            && i + w <= n && Paired(raw, i + w, n)
            && Unescape(raw, i, n) == [if w == 2 then Escaped(raw[i + 1]) else raw[i]] + Unescape(raw, i + w, n)
  {
  }

  /** Is the first part of the buffer the text at `base`? */
  ghost predicate Holds(buf: array<char>, n: nat, text: string, base: nat)
    requires n <= buf.Length && base + n <= |text|
    reads buf
  {
    forall k :: 0 <= k < n ==> buf[k] == text[base + k]
  }

  method ToFront(buf: array<char>, start: nat, len: nat, ghost text: string, ghost base: nat)
    requires start + len <= buf.Length && base + start + len <= |text|
    requires Holds(buf, start + len, text, base)
    modifies buf
    ensures Holds(buf, len, text, base + start)
  {
    forall i | 0 <= i < len {
      buf[i] := buf[start + i];
    }
  }

  method Fill(buf: array<char>, at: nat, data: string, ghost text: string, ghost base: nat)
    requires at + |data| <= buf.Length && base + at + |data| <= |text|
    requires Holds(buf, at, text, base)
    requires data == text[base + at..base + at + |data|]
    modifies buf
    ensures Holds(buf, at + |data|, text, base)
  {
    forall i | 0 <= i < |data| {
      buf[at + i] := data[i];
    }
    assert forall k :: at <= k < at + |data| ==> buf[k] == data[k - at];
  }

  lemma Joined(text: string, j: nat, k: nat)
    requires j <= k <= |text|
    ensures text[..j] + text[j..k] == text[..k]
  {
  }

  lemma Pushed(done: string, ch: char, rest: string)
    ensures (done + [ch]) + rest == done + ([ch] + rest)
  {
  }

  function Went(stop: bool, code: Code, s: Scan): Move {
    if stop then Stop(code, s) else More(s)
  }

  class ConfFile {
    /** The text to read: the file as it was when it was opened, or the parameter. */
    const text: string
    const isFile: bool
    const dumping: bool
    const fileSize: nat
    const buf: array<char>
    var pos: nat
    var last: nat
    var offset: nat
    var line: nat
    var args: seq<string>
    var dump: string
    /** Where buf[0] lies in the text. */
    ghost var base: nat

    /** Opens a file for reading with a buffer of `cap` characters. */
    constructor Open(text: string, cap: nat, dumping: bool)
      ensures Valid() && fresh(buf)
      ensures this.text == text && buf.Length == cap && this.dumping == dumping && isFile
      ensures Position() == 0 && line == 1 && dump == ""
    {
      this.text, isFile, this.dumping, fileSize := text, true, dumping, |text|;
      buf := new char[cap];
      pos, last, offset, line, args, dump := 0, 0, 0, 1, [], "";
      base := 0;
    }

    /** The single-buffer form: the whole parameter is the buffer and there is no file behind it. */
    constructor Param(text: string)
      ensures Valid() && fresh(buf)
      ensures this.text == text && !isFile && Position() == 0 && line == 0 && dump == ""
    {
      this.text, isFile, dumping, fileSize := text, false, false, 0;
      var b := new char[|text|](i requires 0 <= i < |text| => text[i]);
      buf := b;
      pos, last, offset, line, args, dump := 0, |text|, 0, 0, [], "";
      base := 0;
      new;
      assert buf[..] == text;
    }

    ghost predicate Valid()
      reads this`pos, this`last, this`offset, this`dump, this`base, buf
    {
      && pos <= last <= buf.Length
      && base + last <= |text|
      && Holds(buf, last, text, base)
      && (if isFile then fileSize == |text| && offset == base + last
          else fileSize == 0 && offset == 0 && base == 0 && last == |text|)
      && dump == if dumping then text[..offset] else ""
    }

    /** How much of the text has been consumed. */
    ghost function Position(): nat
      reads this`pos, this`base
    {
      base + pos
    }

    /** Reads n characters at `at`, or fails, or comes back short. */
    method ReadFile(at: nat, n: nat) returns (ok: bool, data: string)
      requires at + n <= |text|
      ensures ok ==> data == text[at..at + n]
    {
      if * {
        ok, data := true, text[at..at + n];
      } else {
        ok, data := false, "";
      }
    }

    /** Moves buf[start..last] to the front and fills up behind it. */
    method Refill(start: nat) returns (ok: bool)
      requires Valid() && isFile && start <= pos == last
      requires offset < fileSize && pos - start < buf.Length
      modifies this, buf
      ensures ok ==> Valid() && base == old(base) + start && pos == old(pos) - start < last
      ensures line == old(line) && args == old(args)
    {
      var len := pos - start;
      ToFront(buf, start, len, text, base);
      var size := if fileSize - offset > buf.Length - len then buf.Length - len else fileSize - offset;
      var data: string;
      ok, data := ReadFile(offset, size);
      if !ok { return; }
      Fill(buf, len, data, text, base + start);
      Advance(base + start, len, data);
    }

    /** Takes over the bytes read behind the `len` characters kept from text[from..]. */
    method Advance(ghost from: nat, len: nat, data: string)
      requires isFile && fileSize == |text| && offset == from + len
      requires offset + |data| <= |text| && len + |data| <= buf.Length
      requires data == text[offset..offset + |data|]
      requires Holds(buf, len + |data|, text, from)
      requires dump == if dumping then text[..offset] else ""
      modifies this
      ensures Valid() && base == from && pos == len && last == len + |data|
      ensures line == old(line) && args == old(args)
    {
      Joined(text, offset, offset + |data|);
      dump := if dumping then dump + data else dump;
      base, pos, last, offset := from, len, len + |data|, offset + |data|;
    }

    /** Copies buf[start..end] out, resolving escapes; one character is written for each turn. */
    method Word(start: nat, end: nat) returns (word: string)
      requires start <= end <= buf.Length
      requires Paired(buf[..], start, end)
      ensures word == Unescape(buf[..], start, end)
    {
      hide IsEscape, Escaped, Unescape;
      var data := new char[end - start + 1];
      var src, len := start, 0;
      ghost var raw := buf[..];
      while src < end
        invariant start <= src <= end && len <= src - start
        invariant Paired(raw, src, end)
        invariant data[..len] + Unescape(raw, src, end) == Unescape(raw, start, end)
      {
        ghost var done := data[..len];
        UnescapeStep(raw, src, end);
        var ch := buf[src];
        src := src + 1;
        if ch == '\\' && IsEscape(buf[src]) {
          ch, src := Escaped(buf[src]), src + 1;
        }
        data[len] := ch;
        len := len + 1;
        Pushed(done, ch, Unescape(raw, src, end));
        assert data[..len] == done + [ch];
      }
      UnescapeNext(raw, end, end);
      word := data[..len];
    }

    /** A character where a word may start. */
    method AtSpace(ch: char, start: nat, startLine: nat, f: Flags)
      returns (stop: bool, code: Code, start': nat, startLine': nat, f': Flags)
      requires 0 < pos && start <= pos
      ensures start' <= pos
      ensures Went(stop, code, Scan(base + start', Position(), line, startLine', args, f'))
           == StartWord(Scan(base + start, Position(), line, startLine, args, f), ch)
    {
      stop, code, start', startLine', f' := false, Fault, start, startLine, f;
      if ch == ' ' || ch == '\t' || ch == '\r' || ch == '\n' { return; }
      start', startLine' := pos - 1, line;
      match ch {
        case ';' =>
          stop, code := true, if args == [] then Unexpected(ch) else Simple;
        case '{' =>
          stop, code := true, if args == [] then Unexpected(ch) else BlockStart;
        case '}' =>
          stop, code := true, if args != [] then Unexpected(ch) else BlockDone;
        case '#' =>
          f' := f.(comment := true);
        case '\\' =>
          f' := f.(quoted := true, lastSpace := false);
        case '"' =>
          start', f' := start' + 1, f.(double := true, lastSpace := false);
        case '\'' =>
          start', f' := start' + 1, f.(single := true, lastSpace := false);
        case _ =>
          f' := f.(lastSpace := false);
      }
    }

    /** Keeps the word buf[start..pos - 1]. */
    method TakeWord(start: nat)
      requires Valid() && start < pos
      requires Paired(text, base + start, Position() - 1)
      modifies this`args
      ensures args == old(args) + [Unescape(text, base + start, Position() - 1)]
    {
      hide Paired, Unescape;
      PairedMoved(buf[..], text, base, start, pos - 1);
      UnescapeMoved(buf[..], text, base, start, pos - 1);
      var word := Word(start, pos - 1);
      args := args + [word];
    }

    /** Looks for the end of the word. */
    method Closes(ch: char, f: Flags) returns (found: bool, f': Flags)
      ensures found == Ends(f, ch) && f' == if found then Ended(f) else f
    {
      found, f' := false, f;
      if f.double {
        if ch == '"' {
          f', found := f.(double := false, needSpace := true), true;
        }
      } else if f.single {
        if ch == '\'' {
          f', found := f.(single := false, needSpace := true), true;
        }
      } else if ch == ' ' || ch == '\t' || ch == '\r' || ch == '\n' || ch == ';' || ch == '{' {
        f', found := f.(lastSpace := true), true;
      }
    }

    /** A character inside a word. */
    method Inside(ch: char, start: nat, f: Flags, ghost startLine: nat) returns (stop: bool, code: Code, f': Flags)
      requires Valid() && start < pos
      requires Paired(text, base + start, Position() - 1)
      modifies this`args
      ensures Went(stop, code, Scan(base + start, Position(), line, startLine, args, f'))
           == InWord(text, Scan(base + start, Position(), line, startLine, old(args), f), ch)
    {
      hide Unescape, Paired, Holds, Ends, Ended;
      hide ConfFile.Valid;
      stop, code, f' := false, Fault, f;
      if ch == '{' && f.variable { return; }
      f' := f'.(variable := false);
      if ch == '\\' {
        f' := f'.(quoted := true);
        return;
      }
      if ch == '$' {
        f' := f'.(variable := true);
        return;
      }
      var found: bool;
      found, f' := Closes(ch, f');
      if found {
        TakeWord(start);
        stop := ch == ';' || ch == '{';
        code := if ch == ';' then Simple else if ch == '{' then BlockStart else Fault;
      }
    }

    /** A character behind a closing quote. */
    method BehindQuote(ch: char, start: nat, startLine: nat, f: Flags)
      returns (stop: bool, code: Code, start': nat, startLine': nat, f': Flags)
      requires 0 < pos && start <= pos
      ensures start' <= pos
      ensures Went(stop, code, Scan(base + start', Position(), line, startLine', args, f'))
           == AfterQuote(Scan(base + start, Position(), line, startLine, args, f), ch)
    {
      stop, code, start', startLine', f' := false, Fault, start, startLine, f;
      if ch == ' ' || ch == '\t' || ch == '\r' || ch == '\n' {
        f' := f.(lastSpace := true, needSpace := false);
      } else if ch == ';' {
        stop, code := true, Simple;
      } else if ch == '{' {
        stop, code := true, BlockStart;
      } else if ch == ')' {
        stop, code, start', startLine', f' := AtSpace(ch, start, startLine, f.(lastSpace := true, needSpace := false));
      } else {
        stop, code := true, Unexpected(ch);
      }
    }

    /** Acts on the character just taken. */
    method Act(ch: char, start: nat, startLine: nat, f: Flags)
      returns (stop: bool, code: Code, start': nat, startLine': nat, f': Flags)
      requires Valid() && start < pos
      requires !f.comment && !f.quoted && !f.needSpace && !f.lastSpace ==> Paired(text, base + start, Position() - 1)
      modifies this`args
      ensures start' <= pos
      ensures Went(stop, code, Scan(base + start', Position(), line, startLine', args, f'))
           == Judge(text, Scan(base + start, Position(), line, startLine, old(args), f), ch)
    {
      hide StartWord, InWord, AfterQuote, Paired, Holds;
      stop, code, start', startLine', f' := false, Fault, start, startLine, f;
      if f.comment {
      } else if f.quoted {
        f' := f.(quoted := false);
      } else if f.needSpace {
        stop, code, start', startLine', f' := BehindQuote(ch, start, startLine, f);
      } else if f.lastSpace {
        stop, code, start', startLine', f' := AtSpace(ch, start, startLine, f);
      } else {
        stop, code, f' := Inside(ch, start, f, startLine);
      }
    }

    /** Reads one character that the buffer has. */
    method Take(start: nat, startLine: nat, f: Flags)
      returns (stop: bool, code: Code, start': nat, startLine': nat, f': Flags)
      requires Valid() && start <= pos < last
      requires Tidy(text, Scan(base + start, Position(), line, startLine, args, f))
      modifies this`pos, this`line, this`args
      ensures Valid() && start' <= pos
      ensures Went(stop, code, Scan(base + start', Position(), line, startLine', args, f'))
           == Step(text, old(Scan(base + start, Position(), line, startLine, args, f)))
    {
      hide Judge, Paired;
      var ch := buf[pos];
      pos := pos + 1;
      var g := f;
      if ch == '\n' {
        line := line + 1;
        g := f.(comment := false);
      }
      stop, code, start', startLine', f' := Act(ch, start, startLine, g);
    }

    /** Reads one directive; the words go to `args`. */
    method ReadToken() returns (code: Code)
      requires Valid()
      modifies this, buf
      ensures code != Fault ==>
        Valid() && Outcome(code, args, line, Position()) == Token(text, old(Position()), old(line), buf.Length)
      ensures code == FileDone && isFile && dumping ==> dump == text
    {
      hide Step, Tidy, Run, Holds;
      TidyAtFirst(text, Position(), line);
      var f := FRESH;
      args := [];
      var start: nat, startLine: nat := pos, line;
      ghost var first := Begin(Position(), line);
      ghost var s := first;
      var stop := false;
      code := Fault;

      while !stop
        invariant Valid() && start <= pos
        invariant s == Scan(base + start, Position(), line, startLine, args, f)
        invariant !stop ==> Tidy(text, s) && Run(text, s, buf.Length) == Run(text, first, buf.Length)
        invariant stop ==> Run(text, first, buf.Length) == Stop(code, s) && code != FileDone
        decreases !stop, |text| - Position()
      {
        if pos >= last {
          if offset >= fileSize {
            RunEnds(text, s, buf.Length);
            assert isFile ==> text[..offset] == text;
            return if args != [] || !f.lastSpace then UnexpectedEnd else FileDone;
          }
          if pos - start == buf.Length {
            RunGivesUp(text, s, buf.Length);
            line := startLine;
            return if f.double then MissingQuote('"') else if f.single then MissingQuote('\'') else TooLong;
          }
          var ok := Refill(start);
          if !ok { return Fault; }
          start := 0;
        }
        RunNext(text, s, buf.Length);
        StepCode(text, s);
        ghost var next := Step(text, s);
        stop, code, start, startLine, f := Take(start, startLine, f);
        s := next.s;
      }
    }

    /** Reads directives until there is nothing more to read in this text. */
    method ReadAll() returns (outs: seq<Outcome>, fault: bool)
      requires Valid()
      modifies this, buf
      ensures !fault ==> Valid() && outs == Calls(text, old(Position()), old(line), buf.Length)
    {
      hide Token, Holds, Calls;
      outs, fault := [], false;
      ghost var all := Calls(text, Position(), line, buf.Length);
      while true
        invariant Valid() && outs + Calls(text, Position(), line, buf.Length) == all
        decreases |text| - Position()
      {
        CallsNext(text, Position(), line, buf.Length, outs);
        var code := ReadToken();
        if code == Fault { return outs, true; }
        outs := outs + [Outcome(code, args, line, if isFile then offset - last + pos else pos)];
        if !(code == Simple || code == BlockStart || code == BlockDone) { return; }
      }
    }
  }
}
