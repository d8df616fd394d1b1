/** Text that is written the way the tokenizer reads it: words in any of the three spellings, with white space and
    comments between them, one directive after another. */
module ConfRoundTrip {
  import opened ConfTokens
  import opened ConfLaws
  import opened Text

  datatype Style = Bare | Double | Single

  /** A word, the way it is written down, and what stands behind it. With `letters`, a quoted word has all characters
      escaped that can be. */
  datatype Word = Word(text: string, style: Style, letters: bool, gap: string)

  const SPACES := " \t\r\n"

  function Mark(style: Style): char {
    if style.Double? then '"' else '\''
  }

  function EscapeChar(ch: char, mark: char, letters: bool): string {
    if ch == mark || ch == '\\' then ['\\', ch]
    else if !letters then [ch]
    else if ch == '\t' then "\\t"
    else if ch == '\r' then "\\r"
    else if ch == '\n' then "\\n"
    else if ch == '"' || ch == '\'' then ['\\', ch]
    else [ch]
  }

  function Escape(word: string, mark: char, letters: bool, i: nat): string
    requires i <= |word|
    decreases |word| - i
  {
    if i == |word| then "" else EscapeChar(word[i], mark, letters) + Escape(word, mark, letters, i + 1)
  }

  /** After the first i characters of a bare word: does a brace belong to a variable? */
  predicate InVariable(word: string, i: nat)
    requires i <= |word|
  {
    i > 1 && (word[i - 1] == '$' || (word[i - 1] == '{' && InVariable(word, i - 1)))
  }

  /** Can the word stand without quotes? */
  predicate CanBeBare(word: string) {
    && word != ""
    && word[0] !in "#\"'}{"
    && forall k :: 0 <= k < |word| ==>
         word[k] !in SPACES && word[k] != ';' && word[k] != '\\' && (word[k] == '{' ==> InVariable(word, k))
  }

  /** White space and whole comments. */
  predicate IsGap(g: string, comment: bool) {
    if g == "" then !comment
    else if comment then IsGap(g[1..], g[0] != '\n')
    else (g[0] in SPACES && IsGap(g[1..], false)) || (g[0] == '#' && IsGap(g[1..], true))
  }

  function Core(w: Word): string {
    if w.style.Bare? then w.text
    else [Mark(w.style)] + Escape(w.text, Mark(w.style), w.letters, 0) + [Mark(w.style)]
  }

  function Spell(w: Word): string { Core(w) + w.gap }

  predicate Spellable(w: Word) {
    (w.style.Bare? ==> CanBeBare(w.text)) && IsGap(w.gap, false) && (w.gap != "" ==> w.gap[0] in SPACES)
  }

  predicate IsParenthesis(w: Word) {
    w.style.Bare? && w.text != "" && w.text[0] == ')'
  }

  /** Words are separated by a gap, except that a parenthesis may stand directly behind a quote. */
  predicate Separated(args: seq<Word>) {
    forall k :: 0 <= k < |args| - 1 ==>
      args[k].gap != "" || (!args[k].style.Bare? && IsParenthesis(args[k + 1]))
  }

  predicate Written(args: seq<Word>) {
    (forall k :: 0 <= k < |args| ==> Spellable(args[k])) && Separated(args)
  }

  function Words(args: seq<Word>, i: nat): string
    requires i <= |args|
    decreases |args| - i
  {
    if i == |args| then "" else Spell(args[i]) + Words(args, i + 1)
  }

  function Texts(args: seq<Word>, n: nat): seq<string>
    requires n <= |args|
  {
    if n == 0 then [] else Texts(args, n - 1) + [args[n - 1].text]
  }

  /** What a configuration consists of, as the tokenizer's caller sees it; `lead` stands before it. */
  datatype Item =
    | Directive(lead: string, args: seq<Word>)
    | Opening(lead: string, args: seq<Word>)
    | Closing(lead: string)

  /** The end of a directive may follow its last word directly, but a brace not where it would belong to a variable. */
  ghost predicate Writable(item: Item) {
    && IsGap(item.lead, false)
    && (!item.Closing? ==> item.args != [] && Written(item.args))
    && (item.Opening? ==>
          var w := item.args[|item.args| - 1];
          w.gap == "" && w.style.Bare? ==> !InVariable(w.text, |w.text|))
  }

  function WordsOf(item: Item): seq<Word> {
    if item.Closing? then [] else item.args
  }

  function LastOf(item: Item): char {
    match item
    case Directive(_, _) => ';'
    case Opening(_, _) => '{'
    case Closing(_) => '}'
  }

  function Render(item: Item): string {
    item.lead + (Words(WordsOf(item), 0) + [LastOf(item)])
  }

  function CodeOf(item: Item): Code {
    match item
    case Directive(_, _) => Simple
    case Opening(_, _) => BlockStart
    case Closing(_) => BlockDone
  }

  function ArgsOf(item: Item): seq<string> {
    Texts(WordsOf(item), |WordsOf(item)|)
  }

  /** Escaping is undone by unescaping. */
  lemma {:induction false} UnescapeEscape(text: string, p: nat, word: string, mark: char, letters: bool, i: nat)
    requires i <= |word| && At(text, p, Escape(word, mark, letters, i)) && IsMark(mark)
    ensures Unescape(text, p, p + |Escape(word, mark, letters, i)|) == word[i..]
    decreases |word| - i
  {
    hide At, EscapeChar, Unescape, Escaped;
    Stretch(text, p, Escape(word, mark, letters, i));
    if i == |word| {
      NoText(text, p);
    } else {
      var e := EscapeChar(word[i], mark, letters);
      AtSplit(text, p, e, Escape(word, mark, letters, i + 1));
      UnescapeChar(text, p, p + |Escape(word, mark, letters, i)|, word[i], mark, letters);
      UnescapeEscape(text, p + |e|, word, mark, letters, i + 1);
      assert word[i..] == [word[i]] + word[i + 1..];
    }
  }

  lemma Stretch(text: string, p: nat, part: string)
    requires At(text, p, part)
    ensures p + |part| <= |text|
  {
  }

  lemma NoText(text: string, p: nat)
    requires p <= |text|
    ensures Unescape(text, p, p) == ""
  {
  }

  lemma UnescapeChar(text: string, p: nat, n: nat, ch: char, mark: char, letters: bool)
    requires At(text, p, EscapeChar(ch, mark, letters)) && p + |EscapeChar(ch, mark, letters)| <= n <= |text|
    requires IsMark(mark)
    ensures Unescape(text, p, n) == [ch] + Unescape(text, p + |EscapeChar(ch, mark, letters)|, n)
  {
    var e := EscapeChar(ch, mark, letters);
    AtChar(text, p, e, 0);
    if |e| == 2 { AtChar(text, p, e, 1); }
  }

  lemma {:induction false} UnescapePlain(text: string, p: nat, n: nat)
    requires p <= n <= |text| && forall k :: p <= k < n ==> text[k] != '\\'
    ensures Unescape(text, p, n) == text[p..n]
    decreases n - p
  {
    if p < n {
      UnescapePlain(text, p + 1, n);
    }
  }

  /** Inside a quoted word, with nothing pending. */
  predicate InQuote(f: Flags, mark: char) {
    f == Flags(false, false, false, f.variable, false, mark == '\'', mark == '"')
  }

  predicate IsMark(ch: char) {
    ch == '"' || ch == '\''
  }

  lemma QuotedStep(text: string, s: Scan, mark: char)
    requires s.start <= s.pos < |text| && IsMark(mark) && InQuote(s.flags, mark)
    requires text[s.pos] != mark && text[s.pos] != '\\'
    ensures var m := Step(text, s);
      m.More? && InQuote(m.s.flags, mark) && m.s.args == s.args && m.s.start == s.start && m.s.pos == s.pos + 1
  {
  }

  lemma QuotedEscape(text: string, s: Scan, mark: char)
    requires s.start <= s.pos && s.pos + 1 < |text| && IsMark(mark) && InQuote(s.flags, mark) && text[s.pos] == '\\'
    ensures var m := Step(text, s);
      m.More? && m.s.start == s.start && m.s.pos == s.pos + 1 &&
      var n := Step(text, m.s);
      n.More? && InQuote(n.s.flags, mark) && n.s.args == s.args && n.s.start == s.start && n.s.pos == s.pos + 2
  {
  }

  lemma RunMore(text: string, s: Scan, cap: nat)
    requires s.start <= s.pos < |text| && s.pos - s.start < cap && Step(text, s).More?
    ensures var s' := Step(text, s).s; s'.start <= s'.pos <= |text| && Run(text, s, cap) == Run(text, s', cap)
  {
    StepKeeps(text, s);
  }

  /** Runs over an escaped word. */
  lemma {:induction false} RunEscaped(text: string, s: Scan, cap: nat, word: string, mark: char, letters: bool,
                                      i: nat)
    returns (t: Scan)
    requires i <= |word| && s.start <= s.pos && At(text, s.pos, Escape(word, mark, letters, i))
    requires IsMark(mark) && InQuote(s.flags, mark)
    requires s.pos + |Escape(word, mark, letters, i)| - s.start <= cap
    ensures t.start == s.start && t.pos == s.pos + |Escape(word, mark, letters, i)|
    ensures t.args == s.args && InQuote(t.flags, mark)
    ensures Run(text, t, cap) == Run(text, s, cap)
    decreases |word| - i
  {
    hide Step, InQuote, Run;
    t := s;
    if i < |word| {
      var e := EscapeChar(word[i], mark, letters);
      AtSplit(text, s.pos, e, Escape(word, mark, letters, i + 1));
      AtChar(text, s.pos, e, 0);
      if |e| == 2 {
        QuotedEscape(text, s, mark);
        RunMore(text, s, cap);
        RunMore(text, Step(text, s).s, cap);
        t := RunEscaped(text, Step(text, Step(text, s).s).s, cap, word, mark, letters, i + 1);
      } else {
        QuotedStep(text, s, mark);
        RunMore(text, s, cap);
        t := RunEscaped(text, Step(text, s).s, cap, word, mark, letters, i + 1);
      }
    }
  }

  lemma OpenQuote(text: string, s: Scan)
    requires s.start <= s.pos < |text| && s.flags == FRESH && IsMark(text[s.pos])
    ensures var m := Step(text, s);
      m.More? && InQuote(m.s.flags, text[s.pos]) && m.s.args == s.args && m.s.start == m.s.pos == s.pos + 1
  {
  }

  const CLOSED := Flags(true, false, false, false, false, false, false)

  lemma CloseQuote(text: string, s: Scan, mark: char)
    requires s.start <= s.pos < |text| && IsMark(mark) && InQuote(s.flags, mark) && text[s.pos] == mark
    ensures var m := Step(text, s);
      m.More? && m.s.start == s.start && m.s.pos == s.pos + 1 && m.s.flags == CLOSED
      && m.s.args == s.args + [Unescape(text, s.start, s.pos)]
  {
    hide Unescape;
    var a := s.(pos := s.pos + 1);
    assert Arrive(s, mark) == a && Ends(a.flags.(variable := false), mark);
    assert Step(text, s) == InWord(text, a, mark);
    assert Ended(a.flags.(variable := false)) == CLOSED;
  }

  /** A quotation that fills the buffer is reported by its mark. */
  lemma {:induction false} LongQuote(text: string, pos: nat, line: nat, cap: nat)
    requires cap > 0 && pos + 1 + cap < |text| && IsMark(text[pos])
    requires forall k :: pos < k < pos + 1 + cap ==> text[k] != text[pos] && text[k] != '\\'
    ensures Token(text, pos, line, cap).code == MissingQuote(text[pos])
  {
    hide Step, InQuote, Run;
    OpenQuote(text, Begin(pos, line));
    RunMore(text, Begin(pos, line), cap);
    RunOpen(text, Step(text, Begin(pos, line)).s, cap, text[pos]);
  }

  lemma {:induction false} RunOpen(text: string, s: Scan, cap: nat, mark: char)
    requires IsMark(mark) && InQuote(s.flags, mark) && s.start <= s.pos <= s.start + cap < |text|
    requires forall k :: s.pos <= k < s.start + cap ==> text[k] != mark && text[k] != '\\'
    ensures Run(text, s, cap).Stop? && Run(text, s, cap).code == MissingQuote(mark)
    decreases s.start + cap - s.pos
  {
    hide Step, Run;
    if s.pos - s.start == cap {
      RunGivesUp(text, s, cap);
    } else {
      QuotedStep(text, s, mark);
      RunMore(text, s, cap);
      RunOpen(text, Step(text, s).s, cap, mark);
    }
  }

  function BareFlags(variable: bool): Flags {
    Flags(false, false, false, variable, false, false, false)
  }

  lemma BareFirst(text: string, s: Scan)
    requires s.start <= s.pos < |text| && (s.flags == FRESH || (s.flags == CLOSED && text[s.pos] == ')'))
    requires text[s.pos] !in SPACES && text[s.pos] !in "#\"'}{;\\"
    ensures var m := Step(text, s);
      m.More? && m.s.flags == BareFlags(false) && m.s.args == s.args && m.s.start == s.pos && m.s.pos == s.pos + 1
  {
  }

  lemma BareStep(text: string, s: Scan, variable: bool)
    requires s.start < s.pos < |text| && s.flags == BareFlags(variable)
    requires text[s.pos] !in SPACES && text[s.pos] != ';' && text[s.pos] != '\\' && (text[s.pos] == '{' ==> variable)
    ensures var m := Step(text, s);
      && m.More? && m.s.args == s.args && m.s.start == s.start && m.s.pos == s.pos + 1
      && m.s.flags == BareFlags(text[s.pos] == '$' || text[s.pos] == '{')
  {
  }

  /** Runs over the rest of a bare word. */
  lemma {:induction false} RunRest(text: string, s: Scan, cap: nat, word: string, i: nat) returns (t: Scan)
    requires CanBeBare(word) && 0 < i <= |word| && s.start + i == s.pos && At(text, s.start, word)
    requires s.flags == BareFlags(InVariable(word, i)) && |word| <= cap
    ensures t.start == s.start && t.pos == s.start + |word| && t.args == s.args
    ensures t.flags == BareFlags(InVariable(word, |word|))
    ensures Run(text, t, cap) == Run(text, s, cap)
    decreases |word| - i
  {
    hide Step, Run;
    t := s;
    if i < |word| {
      AtChar(text, s.start, word, i);
      BareStep(text, s, InVariable(word, i));
      RunMore(text, s, cap);
      t := RunRest(text, Step(text, s).s, cap, word, i + 1);
    }
  }

  // ----- words and gaps

  /** Runs over white space and comments. */
  lemma {:induction false} RunGap(text: string, s: Scan, cap: nat, g: string, comment: bool) returns (t: Scan)
    requires s.start <= s.pos && At(text, s.pos, g) && IsGap(g, comment) && s.flags == FRESH.(comment := comment)
    requires s.pos + |g| - s.start <= cap
    ensures s.start <= t.start <= t.pos == s.pos + |g| && t.args == s.args && t.flags == FRESH
    ensures t.pos <= |text| && Run(text, t, cap) == Run(text, s, cap)
    decreases |g|
  {
    hide Step, Run, At;
    Stretch(text, s.pos, g);
    t := s;
    if g != "" {
      assert g == [g[0]] + g[1..];
      AtSplit(text, s.pos, [g[0]], g[1..]);
      AtChar(text, s.pos, g, 0);
      GapStep(text, s, comment);
      RunMore(text, s, cap);
      t := RunGap(text, Step(text, s).s, cap, g[1..], if comment then g[0] != '\n' else g[0] == '#');
    }
  }

  lemma GapStep(text: string, s: Scan, comment: bool)
    requires s.start <= s.pos < |text| && s.flags == FRESH.(comment := comment)
    requires comment || text[s.pos] in SPACES || text[s.pos] == '#'
    ensures var m, ch := Step(text, s), text[s.pos];
      && m.More? && s.start <= m.s.start <= m.s.pos == s.pos + 1 && m.s.args == s.args
      && m.s.flags == FRESH.(comment := if comment then ch != '\n' else ch == '#')
  {
  }

  /** May the word begin here? */
  predicate Ready(s: Scan, w: Word) {
    s.flags == FRESH || (s.flags == CLOSED && IsParenthesis(w))
  }

  /** What the machine knows behind the word and its gap, with the words before it. */
  predicate After(text: string, t: Scan, w: Word, before: seq<string>) {
    t.start <= t.pos <= |text| &&
    if w.gap != "" then t.flags == FRESH && t.args == before + [w.text]
    else if !w.style.Bare? then t.flags == CLOSED && t.args == before + [w.text]
    else t.flags == BareFlags(InVariable(w.text, |w.text|)) && t.args == before && text[t.start..t.pos] == w.text
         && w.text != "" && forall k :: t.start <= k < t.pos ==> text[k] != '\\'
  }

  lemma QuotedParts(text: string, pos: nat, w: Word)
    requires At(text, pos, Core(w)) && !w.style.Bare?
    ensures var mark, e := Mark(w.style), Escape(w.text, Mark(w.style), w.letters, 0);
      && |Core(w)| == |e| + 2 && pos + |e| + 2 <= |text| && At(text, pos + 1, e)
      && text[pos] == mark && text[pos + 1 + |e|] == mark
  {
    var mark, e := Mark(w.style), Escape(w.text, Mark(w.style), w.letters, 0);
    AtSplit(text, pos, [mark] + e, [mark]);
    AtSplit(text, pos, [mark], e);
    AtChar(text, pos, [mark], 0);
    AtChar(text, pos + 1 + |e|, [mark], 0);
  }

  /** Runs over one quoted word. */
  lemma {:induction false} RunQuoted(text: string, s: Scan, cap: nat, w: Word) returns (t: Scan)
    requires s.start <= s.pos && At(text, s.pos, Core(w)) && s.flags == FRESH && !w.style.Bare?
    requires s.pos + |Core(w)| - s.start <= cap
    ensures s.start <= t.start <= t.pos == s.pos + |Core(w)| <= |text|
    ensures t.args == s.args + [w.text] && t.flags == CLOSED
    ensures Run(text, t, cap) == Run(text, s, cap)
  {
    hide Step, InQuote, Unescape, Escape, Run, Core, At;
    var mark := Mark(w.style);
    QuotedParts(text, s.pos, w);
    OpenQuote(text, s);
    RunMore(text, s, cap);
    var u := Step(text, s).s;
    var v := RunEscaped(text, u, cap, w.text, mark, w.letters, 0);
    CloseQuote(text, v, mark);
    RunMore(text, v, cap);
    UnescapeEscape(text, u.pos, w.text, mark, w.letters, 0);
    t := Step(text, v).s;
  }

  /** Runs over one bare word. */
  lemma {:induction false} RunBare(text: string, s: Scan, cap: nat, w: Word) returns (t: Scan)
    requires s.start <= s.pos && At(text, s.pos, w.text) && Ready(s, w) && w.style.Bare? && CanBeBare(w.text)
    requires s.pos + |w.text| - s.start <= cap
    ensures s.start <= t.start < t.pos == s.pos + |w.text| <= |text| && t.start == s.pos && t.args == s.args
    ensures t.flags == BareFlags(InVariable(w.text, |w.text|)) && text[t.start..t.pos] == w.text
    ensures forall k :: t.start <= k < t.pos ==> text[k] != '\\'
    ensures Run(text, t, cap) == Run(text, s, cap)
  {
    hide Step, Unescape, Run, InVariable, At;
    BareParts(text, s.pos, w.text);
    BareFirst(text, s);
    RunMore(text, s, cap);
    NotInVariable(w.text);
    t := RunRest(text, Step(text, s).s, cap, w.text, 1);
  }

  lemma BareParts(text: string, pos: nat, word: string)
    requires At(text, pos, word) && CanBeBare(word)
    ensures pos + |word| <= |text| && text[pos] == word[0] && text[pos..pos + |word|] == word
    ensures forall k :: pos <= k < pos + |word| ==> text[k] != '\\'
  {
    AtChar(text, pos, word, 0);
    forall k | pos <= k < pos + |word| ensures text[k] != '\\' {
      AtChar(text, pos, word, k - pos);
    }
  }

  lemma BareEnd(text: string, s: Scan, variable: bool)
    requires s.start < s.pos < |text| && s.flags == BareFlags(variable) && text[s.pos] in SPACES
    ensures var m := Step(text, s);
      && m.More? && m.s.args == s.args + [Unescape(text, s.start, s.pos)]
      && m.s.start == s.start && m.s.pos == s.pos + 1 && m.s.flags == FRESH
  {
    hide Unescape;
  }

  lemma BehindClosed(text: string, s: Scan)
    requires s.start <= s.pos < |text| && s.flags == CLOSED && text[s.pos] in SPACES
    ensures var m := Step(text, s);
      m.More? && m.s.start == s.start && m.s.pos == s.pos + 1 && m.s.flags == FRESH && m.s.args == s.args
  {
  }

  /** Runs over one word and the gap behind it. */
  lemma {:induction false} RunWord(text: string, s: Scan, cap: nat, w: Word) returns (t: Scan)
    requires s.start <= s.pos && At(text, s.pos, Spell(w)) && Ready(s, w) && Spellable(w)
    requires s.pos + |Spell(w)| - s.start <= cap
    ensures s.start <= t.start <= t.pos == s.pos + |Spell(w)| && After(text, t, w, s.args)
    ensures Run(text, t, cap) == Run(text, s, cap)
  {
    hide Step, Unescape, Run, InVariable, Core, At, CanBeBare, IsGap;
    AtSplit(text, s.pos, Core(w), w.gap);
    var u: Scan;
    if w.style.Bare? {
      assert Core(w) == w.text by { BareCore(w); }
      u := RunBare(text, s, cap, w);
    } else {
      u := RunQuoted(text, s, cap, w);
    }
    t := u;
    if w.gap != "" {
      GapBehind(text, u.pos, w.gap);
      if w.style.Bare? {
        BareEnd(text, u, InVariable(w.text, |w.text|));
        UnescapePlain(text, u.start, u.pos);
      } else {
        BehindClosed(text, u);
      }
      RunMore(text, u, cap);
      t := RunGap(text, Step(text, u).s, cap, w.gap[1..], false);
    }
  }

  lemma BareCore(w: Word)
    ensures w.style.Bare? ==> Core(w) == w.text
  {
  }

  lemma GapBehind(text: string, pos: nat, g: string)
    requires g != "" && At(text, pos, g) && IsGap(g, false) && g[0] in SPACES
    ensures pos < |text| && text[pos] == g[0] && At(text, pos + 1, g[1..]) && IsGap(g[1..], false)
  {
    assert g == [g[0]] + g[1..];
    AtSplit(text, pos, [g[0]], g[1..]);
    AtChar(text, pos, g, 0);
  }

  /** Runs over the words of a directive. */
  lemma {:induction false} RunWords(text: string, s: Scan, cap: nat, args: seq<Word>, i: nat) returns (t: Scan)
    requires i < |args| && s.start <= s.pos && At(text, s.pos, Words(args, i)) && Ready(s, args[i]) && Written(args)
    requires s.pos + |Words(args, i)| - s.start <= cap && s.args == Texts(args, i)
    ensures s.start <= t.start <= t.pos == s.pos + |Words(args, i)|
    ensures After(text, t, args[|args| - 1], Texts(args, |args| - 1))
    ensures Run(text, t, cap) == Run(text, s, cap)
    decreases |args| - i
  {
    hide Step, Run, Spell, At, Spellable;
    AtSplit(text, s.pos, Spell(args[i]), Words(args, i + 1));
    t := RunWord(text, s, cap, args[i]);
    if i + 1 < |args| {
      NextReady(text, t, args, i);
      t := RunWords(text, t, cap, args, i + 1);
    }
  }

  lemma NextReady(text: string, t: Scan, args: seq<Word>, i: nat)
    requires i + 1 < |args| && Separated(args) && After(text, t, args[i], Texts(args, i))
    ensures Ready(t, args[i + 1]) && t.args == Texts(args, i + 1)
  {
  }

  lemma NotInVariable(word: string)
    requires word != ""
    ensures !InVariable(word, 1)
  {
  }

  /** A brace behind a bare word: it stays in the word exactly if it belongs to a variable, that is, if it stands
      behind a dollar that is not the first character, or behind another such brace. Otherwise the word ends and a
      block begins. */
  lemma {:induction false} BraceRule(text: string, s: Scan, cap: nat, word: string) returns (t: Scan)
    requires s.start <= s.pos && s.flags == FRESH && CanBeBare(word) && At(text, s.pos, word + "{")
    requires s.pos + |word| + 1 - s.start <= cap
    ensures InVariable(word, |word|) ==>
      && t.start == s.pos && t.pos == s.pos + |word| + 1 && t.args == s.args && t.flags == BareFlags(true)
      && Run(text, t, cap) == Run(text, s, cap)
    ensures !InVariable(word, |word|) ==>
      var m := Run(text, s, cap);
      && m.Stop? && m.code == BlockStart && m.s.args == s.args + [word] && m.s.pos == s.pos + |word| + 1
  {
    hide Step, Unescape, InVariable;
    AtSplit(text, s.pos, word, "{");
    AtChar(text, s.pos, word, 0);
    BareFirst(text, s);
    RunMore(text, s, cap);
    NotInVariable(word);
    var u := Step(text, s).s;
    var v := RunRest(text, u, cap, word, 1);
    AtChar(text, v.pos, "{", 0);
    BareBrace(text, v, InVariable(word, |word|));
    forall k | v.start <= k < v.pos ensures text[k] != '\\' {
      AtChar(text, v.start, word, k - v.start);
    }
    UnescapePlain(text, v.start, v.pos);
    assert text[v.start..v.pos] == word;
    t := Step(text, v).s;
  }

  lemma BareBrace(text: string, s: Scan, variable: bool)
    requires s.start < s.pos < |text| && s.flags == BareFlags(variable) && text[s.pos] == '{'
    ensures var m := Step(text, s);
      && m.s.start == s.start && m.s.pos == s.pos + 1
      && (if variable then m.More? && m.s.args == s.args && m.s.flags == BareFlags(true)
          else m.Stop? && m.code == BlockStart && m.s.args == s.args + [Unescape(text, s.start, s.pos)])
  {
    hide Unescape;
  }

  /** The end of a directive, behind a gap or directly behind the last word. */
  lemma EndStep(text: string, s: Scan, w: Word, before: seq<string>)
    requires After(text, s, w, before) && s.pos < |text| && (text[s.pos] == ';' || text[s.pos] == '{')
    requires text[s.pos] == '{' && w.gap == "" && w.style.Bare? ==> !InVariable(w.text, |w.text|)
    ensures var m := Step(text, s);
      && m.Stop? && m.code == (if text[s.pos] == ';' then Simple else BlockStart)
      && m.s.args == before + [w.text] && m.s.pos == s.pos + 1
  {
    hide Unescape, InVariable;
    if w.gap == "" && w.style.Bare? {
      assert s.start < s.pos;
      UnescapePlain(text, s.start, s.pos);
    }
  }

  lemma RunStops(text: string, s: Scan, cap: nat)
    requires s.start <= s.pos < |text| && s.pos - s.start < cap && Step(text, s).Stop?
    ensures Run(text, s, cap) == Step(text, s)
  {
  }

  lemma CloseStep(text: string, s: Scan)
    requires s.start <= s.pos < |text| && s.flags == FRESH && text[s.pos] == '}'
    ensures var m := Step(text, s);
      && m.Stop? && m.s.args == s.args && m.s.pos == s.pos + 1
      && m.code == if s.args == [] then BlockDone else Unexpected('}')
  {
  }

  lemma ItemParts(text: string, pos: nat, item: Item)
    requires At(text, pos, Render(item))
    ensures var n, m := |item.lead|, |Words(WordsOf(item), 0)|;
      && |Render(item)| == n + m + 1 && pos + n + m < |text| && text[pos + n + m] == LastOf(item)
      && At(text, pos, item.lead) && At(text, pos + n, Words(WordsOf(item), 0))
  {
    hide Words, At;
    var words := Words(WordsOf(item), 0);
    AtSplit(text, pos, item.lead, words + [LastOf(item)]);
    AtSplit(text, pos + |item.lead|, words, [LastOf(item)]);
    AtChar(text, pos + |item.lead| + |words|, [LastOf(item)], 0);
  }

  /** One call reads back one item, whatever the words are, if the item fits into the buffer. */
  lemma {:induction false} TokenOfItem(text: string, pos: nat, line: nat, cap: nat, item: Item)
    requires At(text, pos, Render(item)) && Writable(item) && |Render(item)| <= cap
    ensures var o := Token(text, pos, line, cap);
      && o.code == CodeOf(item) && o.args == ArgsOf(item) && o.pos == pos + |Render(item)|
  {
    hide Run, Step, Words, At, Render, Written, IsGap, InVariable, After;
    ItemParts(text, pos, item);
    var s := RunGap(text, Begin(pos, line), cap, item.lead, false);
    if item.Closing? {
      assert Words(WordsOf(item), 0) == "" by { NoWords(); }
      CloseStep(text, s);
      RunStops(text, s, cap);
    } else {
      var t := RunWords(text, s, cap, item.args, 0);
      var last := item.args[|item.args| - 1];
      EndStep(text, t, last, Texts(item.args, |item.args| - 1));
      RunStops(text, t, cap);
    }
  }

  lemma NoWords()
    ensures Words([], 0) == ""
  {
  }

  /** What is out of place: an end without words, a closing brace behind words, and words without an end. */
  lemma {:induction false} Misplaced(text: string, pos: nat, line: nat, cap: nat, lead: string, args: seq<Word>,
                                     end: string)
    requires At(text, pos, lead + (Words(args, 0) + end)) && IsGap(lead, false) && Written(args)
    requires |lead + (Words(args, 0) + end)| <= cap
    ensures args == [] && (end == ";" || end == "{") ==> Token(text, pos, line, cap).code == Unexpected(end[0])
    ensures args != [] && args[|args| - 1].gap != "" && end == "}" ==>
            Token(text, pos, line, cap).code == Unexpected('}')
    ensures args != [] && pos + |lead + Words(args, 0)| == |text| ==> Token(text, pos, line, cap).code == UnexpectedEnd
  {
    hide Run, Step, Words, At, Written, IsGap;
    AtSplit(text, pos, lead, Words(args, 0) + end);
    AtSplit(text, pos + |lead|, Words(args, 0), end);
    var s := RunGap(text, Begin(pos, line), cap, lead, false);
    if args == [] {
      NoWords();
      if end == ";" || end == "{" {
        AtChar(text, s.pos, end, 0);
        EmptyStep(text, s);
        RunStops(text, s, cap);
      }
    } else {
      var t := RunWords(text, s, cap, args, 0);
      if args[|args| - 1].gap != "" && end == "}" {
        AtChar(text, t.pos, end, 0);
        CloseStep(text, t);
        RunStops(text, t, cap);
      }
      if t.pos == |text| { RunEnds(text, t, cap); }
    }
  }

  lemma EmptyStep(text: string, s: Scan)
    requires s.start <= s.pos < |text| && s.flags == FRESH && s.args == [] && (text[s.pos] == ';' || text[s.pos] == '{')
    ensures Step(text, s).Stop? && Step(text, s).code == Unexpected(text[s.pos])
  {
  }

  // ----- whole configurations

  function RenderAll(items: seq<Item>, i: nat): string
    requires i <= |items|
    decreases |items| - i
  {
    if i == |items| then "" else Render(items[i]) + RenderAll(items, i + 1)
  }

  ghost predicate AllWritable(items: seq<Item>, cap: nat) {
    forall k :: 0 <= k < |items| ==> Writable(items[k]) && |Render(items[k])| <= cap
  }

  predicate Reads(o: Outcome, item: Item) {
    o.code == CodeOf(item) && o.args == ArgsOf(item)
  }

  /** A whole configuration is read back item by item through any buffer that holds its longest item. */
  lemma {:induction false} CallsOfItems(items: seq<Item>, tail: string, text: string, pos: nat, line: nat, cap: nat,
                                        i: nat)
    requires i <= |items| && AllWritable(items, cap)
    requires pos + |RenderAll(items, i) + tail| == |text| && At(text, pos, RenderAll(items, i) + tail)
    requires IsGap(tail, false) && |tail| <= cap
    ensures var calls := Calls(text, pos, line, cap);
      && |calls| == |items| - i + 1
      && (forall k :: i <= k < |items| ==> Reads(calls[k - i], items[k]))
      && calls[|items| - i].code == FileDone && calls[|items| - i].args == []
    decreases |items| - i
  {
    hide Token, Render, Writable, ArgsOf, IsGap;
    if i < |items| {
      assert RenderAll(items, i) + tail == Render(items[i]) + (RenderAll(items, i + 1) + tail);
      AtSplit(text, pos, Render(items[i]), RenderAll(items, i + 1) + tail);
      TokenOfItem(text, pos, line, cap, items[i]);
      var o := Token(text, pos, line, cap);
      CallsOfItems(items, tail, text, o.pos, o.line, cap, i + 1);
      var rest := Calls(text, o.pos, o.line, cap);
      assert Calls(text, pos, line, cap) == [o] + rest;
    } else {
      assert RenderAll(items, i) + tail == tail;
      TokenAtEnd(text, pos, line, cap, tail);
    }
  }

  lemma TokenAtEnd(text: string, pos: nat, line: nat, cap: nat, tail: string)
    requires pos + |tail| == |text| && At(text, pos, tail) && IsGap(tail, false) && |tail| <= cap
    ensures var o := Token(text, pos, line, cap); o.code == FileDone && o.args == [] && o.pos == |text|
  {
    hide Run, IsGap, At;
    var t := RunGap(text, Begin(pos, line), cap, tail, false);
    RunEnds(text, t, cap);
  }

  /** A configuration that has been written is read back item by item, and then the file ends. */
  lemma {:induction false} WrittenIsRead(items: seq<Item>, tail: string, line: nat, cap: nat)
    requires AllWritable(items, cap) && IsGap(tail, false) && |tail| <= cap
    ensures var calls := Calls(RenderAll(items, 0) + tail, 0, line, cap);
      && |calls| == |items| + 1
      && (forall k :: 0 <= k < |items| ==> Reads(calls[k], items[k]))
      && calls[|items|].code == FileDone
  {
    CallsOfItems(items, tail, RenderAll(items, 0) + tail, 0, line, cap, 0);
  }
}
