/** Laws of the tokenizer: what the buffer may change, which lines it counts, and what it reads back. */
module ConfLaws {
  import opened ConfTokens

  /** Large enough for any word of the text: the single-buffer form. */
  function Whole(text: string): nat {
    |text| + 1
  }

  predicate IsGivenUp(code: Code) {
    code.TooLong? || code.MissingQuote?
  }

  /** Is there something to read after a call that returned `code`? */
  predicate Continues(code: Code) {
    code.Simple? || code.BlockStart? || code.BlockDone?
  }

  /** How far a call started in `s` ever looks back while there is more to read, when nothing stops it. */
  function Reach(text: string, s: Scan): nat
    requires s.start <= s.pos <= |text|
    decreases |text| - s.pos
  {
    if s.pos == |text| then 0
    else
      StepKeeps(text, s);
      var rest := match Step(text, s) case More(s') => Reach(text, s') case Stop(_, _) => 0;
      if s.pos - s.start > rest then s.pos - s.start else rest
  }

  /** A buffer changes nothing unless the call gives up, and that happens exactly when it looks back too far. */
  lemma {:induction false} RunCap(text: string, s: Scan, cap: nat)
    requires s.start <= s.pos <= |text| && s.pos - s.start <= cap
    ensures var m := Run(text, s, cap);
            && m.Stop?
            && (IsGivenUp(m.code) <==> s.pos < |text| && Reach(text, s) >= cap)
            && (!IsGivenUp(m.code) ==> m == Run(text, s, Whole(text)))
    decreases |text| - s.pos
  {
    hide Step;
    if s.pos < |text| && s.pos - s.start != cap {
      StepKeeps(text, s);
      StepCode(text, s);
      var m := Step(text, s);
      if m.More? {
        RunCap(text, m.s, cap);
      }
    }
  }

  lemma StepCode(text: string, s: Scan)
    requires s.start <= s.pos < |text|
    ensures var m := Step(text, s); m.Stop? ==>
      m.code.Simple? || m.code.BlockStart? || m.code.BlockDone? || m.code.Unexpected?
  {
  }

  /** One call with a buffer of `cap` characters against the same call on the whole text. */
  lemma {:induction false} BufferIrrelevant(text: string, pos: nat, line: nat, cap: nat)
    requires pos <= |text|
    ensures IsGivenUp(Token(text, pos, line, cap).code)
       <==> pos < |text| && Reach(text, Begin(pos, line)) >= cap
    ensures !IsGivenUp(Token(text, pos, line, cap).code)
        ==> Token(text, pos, line, cap) == Token(text, pos, line, Whole(text))
  {
    RunCap(text, Begin(pos, line), cap);
  }

  lemma {:induction false} ReachBound(text: string, s: Scan)
    requires s.start <= s.pos <= |text|
    ensures Reach(text, s) <= |text|
    decreases |text| - s.pos
  {
    hide Step;
    if s.pos < |text| {
      StepKeeps(text, s);
      var m := Step(text, s);
      if m.More? {
        ReachBound(text, m.s);
      }
    }
  }

  /** The single-buffer form never gives up. */
  lemma {:induction false} WholeFits(text: string, pos: nat, line: nat)
    requires pos <= |text|
    ensures !IsGivenUp(Token(text, pos, line, Whole(text)).code)
  {
    ReachBound(text, Begin(pos, line));
    RunCap(text, Begin(pos, line), Whole(text));
  }

  /** Giving up does not need a long word: indentation that fills the buffer is enough. */
  lemma {:induction false} LongIndent(text: string, pos: nat, line: nat, n: nat, cap: nat)
    requires n <= cap && pos + cap < |text|
    requires forall k :: pos <= k < pos + cap ==> IsSpace(text[k])
    ensures Run(text, Scan(pos, pos + n, line + Newlines(text, pos, pos + n), line, [], FRESH), cap)
      == Stop(TooLong, Scan(pos, pos + cap, line, line, [], FRESH))
    decreases cap - n
  {
    if n < cap {
      LongIndent(text, pos, line, n + 1, cap);
    }
  }

  function Newlines(text: string, i: nat, j: nat): nat
    requires i <= j <= |text|
    decreases j
  {
    if i == j then 0 else Newlines(text, i, j - 1) + if text[j - 1] == '\n' then 1 else 0
  }

  lemma StepLine(text: string, s: Scan, from: nat)
    requires from <= s.pos && s.start <= s.pos < |text|
    ensures var m := Step(text, s);
            m.s.pos == s.pos + 1 && m.s.line - s.line == Newlines(text, from, s.pos + 1) - Newlines(text, from, s.pos)
  {
  }

  lemma {:induction false} RunLine(text: string, s: Scan, cap: nat, from: nat)
    requires from <= s.pos && s.start <= s.pos <= |text|
    ensures var m := Run(text, s, cap);
      && m.Stop? && s.pos <= m.s.pos <= |text|
      && (Continues(m.code) ==> s.pos < m.s.pos)
      && (!IsGivenUp(m.code) ==> m.s.line - s.line == Newlines(text, from, m.s.pos) - Newlines(text, from, s.pos))
    decreases |text| - s.pos
  {
    hide Step;
    if s.pos < |text| && s.pos - s.start != cap {
      StepKeeps(text, s);
      StepLine(text, s, from);
      StepCode(text, s);
      var m := Step(text, s);
      if m.More? {
        RunLine(text, m.s, cap, from);
      }
    }
  }

  /** Unless it gives up, a call leaves the line counter at the number of line ends it has passed. */
  lemma {:induction false} LineCount(text: string, pos: nat, line: nat, cap: nat)
    requires pos <= |text|
    ensures var o := Token(text, pos, line, cap);
      && pos <= o.pos <= |text|
      && (Continues(o.code) ==> pos < o.pos)
      && (!IsGivenUp(o.code) ==> o.line == line + Newlines(text, pos, o.pos))
  {
    RunLine(text, Begin(pos, line), cap, pos);
  }

  /** Is there nothing but white space and comments from i on? */
  predicate Blank(text: string, i: nat, comment: bool)
    requires i <= |text|
    decreases |text| - i
  {
    i == |text| ||
    if comment then Blank(text, i + 1, text[i] != '\n')
    else if text[i] == '#' then Blank(text, i + 1, true)
    else IsSpace(text[i]) && Blank(text, i + 1, false)
  }

  /** Has the call met nothing but white space and comments so far? */
  predicate Idle(s: Scan) {
    s.args == [] && s.flags == FRESH.(comment := s.flags.comment)
  }

  /** After a word has begun the text cannot end well: the words are kept, or one is open. */
  predicate Busy(s: Scan) {
    s.args != [] || (!s.flags.lastSpace && !s.flags.needSpace)
  }

  lemma StepIdle(text: string, s: Scan)
    requires s.start <= s.pos < |text|
    ensures Idle(s) ==>
      var m := Step(text, s);
      var blank := s.flags.comment || text[s.pos] == '#' || IsSpace(text[s.pos]);
      && (m.More? <==> blank || Busy(m.s))
      && (blank ==> m.More? && Idle(m.s) && m.s.flags.comment
                    == (if s.flags.comment then text[s.pos] != '\n' else text[s.pos] == '#'))
      && (!blank && m.More? ==> Busy(m.s))
    ensures Busy(s) && Step(text, s).More? ==> Busy(Step(text, s).s)
  {
  }

  lemma {:induction false} RunBlank(text: string, s: Scan, cap: nat)
    requires s.start <= s.pos <= |text| && |text| - s.start < cap
    requires Idle(s) || Busy(s)
    ensures Run(text, s, cap).Stop?
    ensures Run(text, s, cap).code.FileDone? <==> Idle(s) && Blank(text, s.pos, s.flags.comment)
    decreases |text| - s.pos
  {
    hide Step;
    if s.pos < |text| {
      StepKeeps(text, s);
      StepIdle(text, s);
      StepCode(text, s);
      var m := Step(text, s);
      if m.More? {
        RunBlank(text, m.s, cap);
      }
    }
  }

  /** The end of the text is accepted exactly when only white space and comments are left. */
  lemma {:induction false} DoneIffBlank(text: string, pos: nat, line: nat)
    requires pos <= |text|
    ensures Token(text, pos, line, Whole(text)).code.FileDone? <==> Blank(text, pos, false)
  {
    RunBlank(text, Begin(pos, line), Whole(text));
  }

  /** All calls on a text, one after the other, until one does not return a directive or a brace. */
  function Calls(text: string, pos: nat, line: nat, cap: nat): seq<Outcome>
    requires pos <= |text|
    decreases |text| - pos
  {
    LineCount(text, pos, line, cap);
    var o := Token(text, pos, line, cap);
    if Continues(o.code) then [o] + Calls(text, o.pos, o.line, cap) else [o]
  }

  lemma CallsNext(text: string, pos: nat, line: nat, cap: nat, before: seq<Outcome>)
    requires pos <= |text|
    ensures var o := Token(text, pos, line, cap);
      && pos <= o.pos <= |text| && (Continues(o.code) ==> pos < o.pos)
      && before + Calls(text, pos, line, cap)
         == before + [o] + if Continues(o.code) then Calls(text, o.pos, o.line, cap) else []
  {
    LineCount(text, pos, line, cap);
  }

  /** Call after call the buffer makes no difference, except that the last call may give up. */
  lemma {:induction false} CallsBuffer(text: string, pos: nat, line: nat, cap: nat)
    requires pos <= |text|
    ensures var some, all := Calls(text, pos, line, cap), Calls(text, pos, line, Whole(text));
      && |some| > 0
      && some[..|some| - 1] <= all
      && (!IsGivenUp(some[|some| - 1].code) ==> some == all)
    decreases |text| - pos
  {
    hide Token;
    BufferIrrelevant(text, pos, line, cap);
    LineCount(text, pos, line, cap);
    var o := Token(text, pos, line, cap);
    if Continues(o.code) {
      CallsBuffer(text, o.pos, o.line, cap);
      var rest := Calls(text, o.pos, o.line, cap);
      assert ([o] + rest)[..|rest|] == [o] + rest[..|rest| - 1];
    }
  }

  /** A word that begins with "${" is cut at the brace: the first character of a word never starts a variable. */
  lemma DollarFirst(text: string, s: Scan, cap: nat)
    requires s.start <= s.pos && s.pos + 1 < |text| && cap > 1 && s.pos - s.start < cap
    requires s.flags == FRESH && text[s.pos] == '$' && text[s.pos + 1] == '{'
    ensures var m := Run(text, s, cap);
      && m.Stop? && m.code == BlockStart && m.s.args == s.args + ["$"] && m.s.pos == s.pos + 2
  {
    assert Unescape(text, s.pos, s.pos + 1) == ['$'] + Unescape(text, s.pos + 1, s.pos + 1) == "$";
    var m := Step(text, s);
    assert m.More? && m.s.start == s.pos && m.s.pos == s.pos + 1 && m.s.args == s.args;
    assert Step(text, m.s).Stop?;
  }
}
