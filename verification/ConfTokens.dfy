/** The configuration tokenizer as a machine over a whole text.
    One call of the tokenizer reads one directive: the words up to ";" or "{", or a "}", or the end of the text.
    The machine below never refills anything; `cap` only says how far a call may look back before it gives up. */
module ConfTokens {

  datatype Code = Simple | BlockStart | BlockDone | FileDone | UnexpectedEnd | Unexpected(ch: char)
                | TooLong | MissingQuote(ch: char) | Fault

  /** What the scanner remembers inside one call; positions are offsets in the text. */
  datatype Scan = Scan(start: nat, pos: nat, line: nat, startLine: nat, args: seq<string>, flags: Flags)

  datatype Flags = Flags(needSpace: bool, lastSpace: bool, comment: bool, variable: bool,
                         quoted: bool, single: bool, double: bool)

  datatype Move = More(s: Scan) | Stop(code: Code, s: Scan)

  /** What a caller sees of one call. */
  datatype Outcome = Outcome(code: Code, args: seq<string>, line: nat, pos: nat)

  const FRESH := Flags(false, true, false, false, false, false, false)

  predicate IsSpace(ch: char) {
    ch == ' ' || ch == '\t' || ch == '\r' || ch == '\n'
  }

  function Begin(pos: nat, line: nat): Scan {
    Scan(pos, pos, line, line, [], FRESH)
  }

  /** Do the backslashes of raw[i..n] pair up with a character behind them? */
  predicate Paired(raw: string, i: nat, n: nat)
    requires i <= n <= |raw|
    decreases n - i
  {
    i == n || (if raw[i] == '\\' then i + 2 <= n && Paired(raw, i + 2, n) else Paired(raw, i + 1, n))
  }

  /** The letters that mean something behind a backslash; before any other the backslash is an ordinary character. */
  predicate IsEscape(ch: char) {
    ch in "\"'\\trn"
  }

  function Escaped(ch: char): char {
    match ch
    case 't' => '\t'
    case 'r' => '\r'
    case 'n' => '\n'
    case _ => ch
  }

  /** A word as the directive's handler receives it: raw[i..n] with the escapes resolved. */
  function Unescape(raw: string, i: nat, n: nat): string
    requires i <= n <= |raw|
    decreases n - i
  {
    if i == n then ""
    else if raw[i] == '\\' && i + 1 < n && IsEscape(raw[i + 1]) then
      [Escaped(raw[i + 1])] + Unescape(raw, i + 2, n)
    else [raw[i]] + Unescape(raw, i + 1, n)
  }

  /** The character at s.pos, when it may start a word. */
  function StartWord(s: Scan, ch: char): Move
    requires s.pos > 0
  {
    if IsSpace(ch) then More(s)
    else
      var s := s.(start := s.pos - 1, startLine := s.line);
      if ch == ';' || ch == '{' then
        if s.args == [] then Stop(Unexpected(ch), s)
        else Stop(if ch == '{' then BlockStart else Simple, s)
      else if ch == '}' then
        Stop(if s.args == [] then BlockDone else Unexpected(ch), s)
      else if ch == '#' then More(s.(flags := s.flags.(comment := true)))
      else if ch == '\\' then More(s.(flags := s.flags.(quoted := true, lastSpace := false)))
      else if ch == '"' then
        More(s.(start := s.pos, flags := s.flags.(double := true, lastSpace := false)))
      else if ch == '\'' then
        More(s.(start := s.pos, flags := s.flags.(single := true, lastSpace := false)))
      else More(s.(flags := s.flags.(lastSpace := false)))
  }

  /** Does `ch` end the word that `f` describes? */
  predicate Ends(f: Flags, ch: char) {
    if f.double then ch == '"'
    else if f.single then ch == '\''
    else IsSpace(ch) || ch == ';' || ch == '{'
  }

  /** The flags after the word has ended. */
  function Ended(f: Flags): Flags {
    if f.double then f.(double := false, needSpace := true)
    else if f.single then f.(single := false, needSpace := true)
    else f.(lastSpace := true)
  }

  /** The character behind s.pos, inside a word. */
  function InWord(text: string, s: Scan, ch: char): Move
    requires s.start < s.pos <= |text|
  {
    if ch == '{' && s.flags.variable then More(s)
    else
      var s := s.(flags := s.flags.(variable := false));
      if ch == '\\' then More(s.(flags := s.flags.(quoted := true)))
      else if ch == '$' then More(s.(flags := s.flags.(variable := true)))
      else if !Ends(s.flags, ch) then More(s)
      else
        var s := s.(args := s.args + [Unescape(text, s.start, s.pos - 1)], flags := Ended(s.flags));
        if ch == ';' then Stop(Simple, s)
        else if ch == '{' then Stop(BlockStart, s)
        else More(s)
  }

  /** Takes the character at s.pos off the text; the end of a line ends a comment. */
  function Arrive(s: Scan, ch: char): Scan {
    if ch == '\n' then s.(pos := s.pos + 1, line := s.line + 1, flags := s.flags.(comment := false))
    else s.(pos := s.pos + 1)
  }

  function Behind(f: Flags): Flags {
    f.(lastSpace := true, needSpace := false)
  }

  /** The character behind a closing quote. */
  function AfterQuote(s: Scan, ch: char): Move
    requires s.pos > 0
  {
    if IsSpace(ch) then More(s.(flags := Behind(s.flags)))
    else if ch == ';' then Stop(Simple, s)
    else if ch == '{' then Stop(BlockStart, s)
    else if ch == ')' then StartWord(s.(flags := Behind(s.flags)), ch)
    else Stop(Unexpected(ch), s)
  }

  /** What the character `ch` just before s.pos means. */
  function Judge(text: string, s: Scan, ch: char): Move
    requires s.start < s.pos <= |text|
  {
    if s.flags.comment then More(s)
    else if s.flags.quoted then More(s.(flags := s.flags.(quoted := false)))
    else if s.flags.needSpace then AfterQuote(s, ch)
    else if s.flags.lastSpace then StartWord(s, ch)
    else InWord(text, s, ch)
  }

  /** Reads one character. */
  function Step(text: string, s: Scan): Move
    requires s.start <= s.pos < |text|
  {
    Judge(text, Arrive(s, text[s.pos]), text[s.pos])
  }

  lemma StepKeeps(text: string, s: Scan)
    requires s.start <= s.pos < |text|
    ensures var s' := Step(text, s).s; s.start <= s'.start <= s'.pos == s.pos + 1
  {
  }

  /** The complaint about a word that does not fit, with a guess when a quotation is open. */
  function GaveUp(f: Flags): Code {
    if f.double then MissingQuote('"') else if f.single then MissingQuote('\'') else TooLong
  }

  lemma {:induction false} PairedExtend(raw: string, i: nat, n: nat)
    requires i <= n < |raw| && Paired(raw, i, n)
    ensures raw[n] != '\\' ==> Paired(raw, i, n + 1)
    ensures raw[n] == '\\' && n + 2 <= |raw| ==> Paired(raw, i, n + 2)
    decreases n - i
  {
    if i < n {
      PairedExtend(raw, if raw[i] == '\\' then i + 2 else i + 1, n);
    } else if n + 2 <= |raw| {
      assert Paired(raw, n + 2, n + 2);
    }
  }

  /** Inside a word, the flag `quoted` says whether the last backslash still waits for its partner. */
  predicate Tidy(text: string, s: Scan)
    requires s.start <= s.pos <= |text|
  {
    if s.flags.lastSpace || s.flags.needSpace then !s.flags.quoted && !s.flags.single && !s.flags.double
    else
      && !s.flags.comment && !(s.flags.single && s.flags.double)
      && if s.flags.quoted then
           s.start < s.pos && text[s.pos - 1] == '\\' && Paired(text, s.start, s.pos - 1)
         else Paired(text, s.start, s.pos)
  }

  lemma StartTidy(text: string, s: Scan)
    requires s.start <= s.pos <= |text| && s.pos > 0 && Tidy(text, s) && s.flags.lastSpace
    requires !s.flags.needSpace && !s.flags.comment
    ensures var s' := StartWord(s, text[s.pos - 1]).s; s'.start <= s'.pos <= |text| && Tidy(text, s')
  {
    assert Paired(text, s.pos, s.pos) && Paired(text, s.pos - 1, s.pos - 1);
    PairedExtend(text, s.pos - 1, s.pos - 1);
  }

  lemma InWordTidy(text: string, s: Scan)
    requires s.start < s.pos <= |text| && !s.flags.lastSpace && !s.flags.needSpace && !s.flags.quoted
    requires Tidy(text, s.(pos := s.pos - 1))
    ensures var s' := InWord(text, s, text[s.pos - 1]).s; s'.start <= s'.pos <= |text| && Tidy(text, s')
  {
    PairedExtend(text, s.start, s.pos - 1);
  }

  lemma StepTidy(text: string, s: Scan)
    requires s.start <= s.pos < |text| && Tidy(text, s)
    ensures var s' := Step(text, s).s; s'.start <= s'.pos <= |text| && Tidy(text, s')
  {
    var a := Arrive(s, text[s.pos]);
    if a.flags.comment {
    } else if a.flags.quoted {
      PairedExtend(text, s.start, s.pos - 1);
    } else if a.flags.needSpace {
      StartTidy(text, a.(flags := Behind(a.flags)));
    } else if a.flags.lastSpace {
      StartTidy(text, a);
    } else {
      InWordTidy(text, a);
    }
  }

  /** Runs from `s` until the call returns, with room for `cap` characters between start and pos. */
  function Run(text: string, s: Scan, cap: nat): Move
    requires s.start <= s.pos <= |text|
    decreases |text| - s.pos
  {
    if s.pos == |text| then
      Stop(if s.args == [] && s.flags.lastSpace then FileDone else UnexpectedEnd, s)
    else if s.pos - s.start == cap then Stop(GaveUp(s.flags), s.(line := s.startLine))
    else
      StepKeeps(text, s);
      match Step(text, s)
      case More(s') => Run(text, s', cap)
      case Stop(_, _) => Step(text, s)
  }

  lemma TidyAtFirst(text: string, pos: nat, line: nat)
    requires pos <= |text|
    ensures Tidy(text, Begin(pos, line))
  {
  }

  lemma RunNext(text: string, s: Scan, cap: nat)
    requires s.start <= s.pos < |text| && s.pos - s.start != cap && Tidy(text, s)
    ensures var m := Step(text, s);
            && m.s.start <= m.s.pos == s.pos + 1 && Tidy(text, m.s)
            && Run(text, s, cap) == if m.More? then Run(text, m.s, cap) else m
  {
    StepKeeps(text, s);
    StepTidy(text, s);
  }

  lemma RunEnds(text: string, s: Scan, cap: nat)
    requires s.start <= s.pos == |text|
    ensures Run(text, s, cap)
         == Stop(if s.args == [] && s.flags.lastSpace then FileDone else UnexpectedEnd, s)
  {
  }

  lemma RunGivesUp(text: string, s: Scan, cap: nat)
    requires s.start <= s.pos < |text| && s.pos - s.start == cap
    ensures Run(text, s, cap) == Stop(GaveUp(s.flags), s.(line := s.startLine))
  {
  }

  function Seen(m: Move): Outcome {
    Outcome(if m.Stop? then m.code else Fault, m.s.args, m.s.line, m.s.pos)
  }

  /** One whole call. */
  function Token(text: string, pos: nat, line: nat, cap: nat): Outcome
    requires pos <= |text|
  {
    Seen(Run(text, Begin(pos, line), cap))
  }
}
