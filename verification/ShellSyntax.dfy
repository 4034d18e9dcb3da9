/** Command lines as they are written: what the quoting rules of `/bin/sh` make of every kind of word. */
module ShellSyntax {
  import opened Basics
  import opened ShellWords

  /** Inside double quotes: a character, an escaped one, a backslash that stays, or a line continued. */
  datatype InDouble = Char(c: char) | Escaped(c: char) | Slash(c: char) | Joined

  /** A piece of a word. */
  datatype Part = Bare(c: char) | Quoted(c: char) | Continued | Single(text: string) | Double(inside: seq<InDouble>)

  /** What may stand between words. */
  datatype Sep = Blank(c: char) | Broken

  datatype Spaced = Spaced(word: seq<Part>, gap: seq<Sep>)

  // ---- how it is spelled, and what it stands for ----

  predicate InDoubleOk(p: InDouble) {
    match p
    case Char(c) => c != '"' && c != '\\'
    case Escaped(c) => c == '$' || c == '`' || c == '"' || c == '\\'
    case Slash(c) => c != '$' && c != '`' && c != '"' && c != '\\' && c != '\n'
    case Joined => true
  }

  function InDoubleText(p: InDouble): string {
    match p
    case Char(c) => [c]
    case Escaped(c) => ['\\', c]
    case Slash(c) => ['\\', c]
    case Joined => "\\\n"
  }

  function InDoubleWord(p: InDouble): string {
    match p
    case Char(c) => [c]
    case Escaped(c) => [c]
    case Slash(c) => ['\\', c]
    case Joined => ""
  }

  function DoubleText(ps: seq<InDouble>): string {
    if ps == [] then "" else DoubleText(ps[..|ps| - 1]) + InDoubleText(ps[|ps| - 1])
  }

  function DoubleWord(ps: seq<InDouble>): string {
    if ps == [] then "" else DoubleWord(ps[..|ps| - 1]) + InDoubleWord(ps[|ps| - 1])
  }

  predicate AllInDouble(ps: seq<InDouble>) {
    forall i :: 0 <= i < |ps| ==> InDoubleOk(ps[i])
  }

  predicate PartOk(p: Part) {
    match p
    case Bare(c) => c != ' ' && c != '\t' && c != '\n' && c != '\\' && c != '\'' && c != '"'
    case Quoted(c) => c != '\n'
    case Continued => true
    case Single(text) => '\'' !in text
    case Double(inside) => AllInDouble(inside)
  }

  function PartText(p: Part): string {
    match p
    case Bare(c) => [c]
    case Quoted(c) => ['\\', c]
    case Continued => "\\\n"
    case Single(text) => "'" + text + "'"
    case Double(inside) => "\"" + DoubleText(inside) + "\""
  }

  function PartWord(p: Part): string {
    match p
    case Bare(c) => [c]
    case Quoted(c) => [c]
    case Continued => ""
    case Single(text) => text
    case Double(inside) => DoubleWord(inside)
  }

  function WordText(ps: seq<Part>): string {
    if ps == [] then "" else WordText(ps[..|ps| - 1]) + PartText(ps[|ps| - 1])
  }

  function Word(ps: seq<Part>): string {
    if ps == [] then "" else Word(ps[..|ps| - 1]) + PartWord(ps[|ps| - 1])
  }

  /** A word has a first piece that is more than a continued line. */
  predicate WordOk(ps: seq<Part>) {
    ps != [] && !ps[0].Continued? && forall i :: 0 <= i < |ps| ==> PartOk(ps[i])
  }

  predicate SepOk(p: Sep) {
    p.Blank? ==> p.c == ' ' || p.c == '\t' || p.c == '\n'
  }

  function SepText(p: Sep): string {
    match p
    case Blank(c) => [c]
    case Broken => "\\\n"
  }

  function GapText(g: seq<Sep>): string {
    if g == [] then "" else GapText(g[..|g| - 1]) + SepText(g[|g| - 1])
  }

  predicate AllSep(g: seq<Sep>) {
    forall i :: 0 <= i < |g| ==> SepOk(g[i])
  }

  /** A word is over at a blank, tab or newline. */
  predicate SpacedOk(w: Spaced) {
    WordOk(w.word) && AllSep(w.gap) && w.gap != [] && w.gap[0].Blank?
  }

  function SpacedText(ws: seq<Spaced>): string {
    if ws == [] then "" else SpacedText(ws[..|ws| - 1]) + (WordText(ws[|ws| - 1].word) + GapText(ws[|ws| - 1].gap))
  }

  function Words(ws: seq<Spaced>): seq<string> {
    seq(|ws|, i requires 0 <= i < |ws| => Word(ws[i].word))
  }

  // ---- the automaton reads it so ----

  lemma RunTwo(s: Shell, a: char, b: char)
    ensures Run(s, [a, b]) == Step(Step(s, a), b)
  {
    RunOne(Step(s, a), b);
    RunFirst(s, [a, b]);
    assert [a, b][1..] == [b];
  }

  lemma InDoubleRuns(s: Shell, p: InDouble)
    requires s.mode.Double? && InDoubleOk(p)
    ensures Run(s, InDoubleText(p)) == s.(word := s.word + InDoubleWord(p))
  {
    match p
    case Char(c) => RunOne(s, c);
    case Escaped(c) => RunTwo(s, '\\', c);
    case Slash(c) => RunTwo(s, '\\', c);
    case Joined =>
      RunTwo(s, '\\', '\n');
      assert s.word + "" == s.word;
  }

  lemma {:induction false} DoubleRuns(s: Shell, ps: seq<InDouble>)
    requires s.mode.Double? && AllInDouble(ps)
    ensures Run(s, DoubleText(ps)) == s.(word := s.word + DoubleWord(ps))
    decreases |ps|
  {
    hide Run, InDoubleText, InDoubleWord;
    if ps == [] {
      RunEmpty(s);
      assert s.word + "" == s.word;
    } else {
      var init, last := ps[..|ps| - 1], ps[|ps| - 1];
      DoubleRuns(s, init);
      RunConcat(s, DoubleText(init), InDoubleText(last));
      InDoubleRuns(s.(word := s.word + DoubleWord(init)), last);
      Assoc(s.word, DoubleWord(init), InDoubleWord(last));
    }
  }

  /** Text up to a closing quote in a mode of its own. */
  lemma Enclosed(s: Shell, open: char, text: string, close: char)
    ensures Run(s, [open] + text + [close]) == Step(Run(Step(s, open), text), close)
  {
    hide Run, Step;
    RunConcat(s, [open] + text, [close]);
    RunConcat(s, [open], text);
    RunOne(s, open);
    RunOne(Run(Step(s, open), text), close);
  }

  lemma {:induction false} SingleRuns(s: Shell, text: string)
    requires s.mode.Single? && '\'' !in text
    ensures Run(s, text) == s.(word := s.word + text)
    decreases |text|
  {
    if text == "" {
      assert s.word + "" == s.word;
    } else {
      SingleRuns(Step(s, text[0]), text[1..]);
      assert s.word + [text[0]] + text[1..] == s.word + text;
    }
  }

  /** What a piece adds to a word, inside one or as its beginning. */
  lemma PartRuns(s: Shell, p: Part)
    requires PartOk(p) && (s.mode.Raw? || (s.mode.Between? && s.word == "" && !p.Continued?))
    ensures Run(s, PartText(p)) == s.(mode := Raw, word := s.word + PartWord(p))
  {
    hide Run, DoubleText, DoubleWord;
    match p
    case Bare(c) => RunOne(s, c);
    case Quoted(c) => RunTwo(s, '\\', c);
    case Continued =>
      RunTwo(s, '\\', '\n');
      assert s.word + "" == s.word;
    case Single(text) =>
      Enclosed(s, '\'', text, '\'');
      SingleRuns(Step(s, '\''), text);
    case Double(inside) =>
      Enclosed(s, '"', DoubleText(inside), '"');
      DoubleRuns(Step(s, '"'), inside);
  }

  lemma {:induction false} WordRuns(s: Shell, ps: seq<Part>)
    requires s.mode.Between? && s.word == "" && WordOk(ps)
    ensures Run(s, WordText(ps)) == s.(mode := Raw, word := Word(ps))
    decreases |ps|
  {
    hide Run, PartText, PartWord, PartOk;
    var init, last := ps[..|ps| - 1], ps[|ps| - 1];
    RunConcat(s, WordText(init), PartText(last));
    if init == [] {
      RunEmpty(s);
      PartRuns(s, last);
    } else {
      WordRuns(s, init);
      PartRuns(s.(mode := Raw, word := Word(init)), last);
    }
  }

  lemma SepRuns(s: Shell, p: Sep)
    requires s.mode.Between? && SepOk(p)
    ensures Run(s, SepText(p)) == s
  {
    match p
    case Blank(c) => RunOne(s, c);
    case Broken => RunTwo(s, '\\', '\n');
  }

  lemma {:induction false} GapRuns(s: Shell, g: seq<Sep>)
    requires s.mode.Between? && AllSep(g)
    ensures Run(s, GapText(g)) == s
    decreases |g|
  {
    hide Run, SepText, SepOk;
    if g == [] {
      RunEmpty(s);
    } else {
      GapRuns(s, g[..|g| - 1]);
      RunConcat(s, GapText(g[..|g| - 1]), SepText(g[|g| - 1]));
      SepRuns(s, g[|g| - 1]);
    }
  }

  /** The gap behind a word ends it. */
  lemma {:induction false} EndRuns(s: Shell, g: seq<Sep>)
    requires s.mode.Raw? && AllSep(g) && g != [] && g[0].Blank?
    ensures Run(s, GapText(g)) == Shell(s.words + [s.word], "", Between)
    decreases |g|
  {
    hide Run, SepText;
    var init, last := g[..|g| - 1], g[|g| - 1];
    RunConcat(s, GapText(init), SepText(last));
    if init == [] {
      RunEmpty(s);
      BlankEnds(s, last);
    } else {
      EndRuns(s, init);
      SepRuns(Shell(s.words + [s.word], "", Between), last);
    }
  }

  lemma BlankEnds(s: Shell, p: Sep)
    requires s.mode.Raw? && p.Blank? && SepOk(p)
    ensures Run(s, SepText(p)) == Shell(s.words + [s.word], "", Between)
  {
    RunOne(s, p.c);
  }

  lemma {:induction false} SpacedRuns(ws: seq<Spaced>)
    requires forall i :: 0 <= i < |ws| ==> SpacedOk(ws[i])
    ensures Run(START, SpacedText(ws)) == Shell(Words(ws), "", Between)
    decreases |ws|
  {
    hide Run, WordText, Word, GapText, WordOk, AllSep;
    if ws == [] {
      RunEmpty(START);
    } else {
      var init, last := ws[..|ws| - 1], ws[|ws| - 1];
      SpacedRuns(init);
      var s := Shell(Words(init), "", Between);
      RunConcat(START, SpacedText(init), WordText(last.word) + GapText(last.gap));
      RunConcat(s, WordText(last.word), GapText(last.gap));
      WordRuns(s, last.word);
      EndRuns(s.(mode := Raw, word := Word(last.word)), last.gap);
      assert Words(ws) == Words(init) + [Word(last.word)];
    }
  }

  /** Leading blanks and complete words leave the automaton between words. */
  lemma LineRuns(lead: seq<Sep>, ws: seq<Spaced>)
    requires AllSep(lead) && forall i :: 0 <= i < |ws| ==> SpacedOk(ws[i])
    ensures Run(START, GapText(lead) + SpacedText(ws)) == Shell(Words(ws), "", Between)
  {
    hide Run, GapText, SpacedText;
    RunConcat(START, GapText(lead), SpacedText(ws));
    GapRuns(START, lead);
    SpacedRuns(ws);
  }

  /**
    Every command line is split into the words it is written to mean: blanks and continued lines separate, single
    quotes keep everything, and inside double quotes a backslash escapes `$`, backquote, `"` and itself, vanishes with
    a newline, and otherwise stays.
  */
  method SplitWritten(lead: seq<Sep>, ws: seq<Spaced>, last: Option<seq<Part>>) returns (words: seq<string>, err: Option<Error>)
    requires AllSep(lead) && (forall i :: 0 <= i < |ws| ==> SpacedOk(ws[i])) && (last.Some? ==> WordOk(last.value))
    ensures err == None && words == Words(ws) + if last.Some? then [Word(last.value)] else []
  {
    hide Run, GapText, SpacedText, WordText, Word, Words, WordOk, SpacedOk, AllSep;
    LineRuns(lead, ws);
    var line := GapText(lead) + SpacedText(ws);
    if last.None? {
      assert Words(ws) + [] == Words(ws);
      words, err := StringToArgs(line);
    } else {
      RunConcat(START, line, WordText(last.value));
      WordRuns(Shell(Words(ws), "", Between), last.value);
      words, err := StringToArgs(line + WordText(last.value));
    }
  }

  /** What may be left open at the end of a command line. */
  datatype Open = OpenSingle(text: string) | OpenDouble(inside: seq<InDouble>, slash: bool) | OpenEscape

  function OpenText(o: Open): string {
    match o
    case OpenSingle(text) => "'" + text
    case OpenDouble(inside, slash) => "\"" + DoubleText(inside) + if slash then "\\" else ""
    case OpenEscape => "\\"
  }

  predicate OpenOk(o: Open) {
    match o
    case OpenSingle(text) => '\'' !in text
    case OpenDouble(inside, _) => AllInDouble(inside)
    case OpenEscape => true
  }

  function OpenError(o: Open): Error {
    match o
    case OpenSingle(_) => UnterminatedSingleQuote
    case OpenDouble(_, _) => UnterminatedDoubleQuote
    case OpenEscape => UnterminatedEscape
  }

  lemma OpenRuns(s: Shell, o: Open)
    requires (s.mode.Raw? || s.mode.Between?) && OpenOk(o)
    ensures Finish(Run(s, OpenText(o))) == Split(s.words, Some(OpenError(o)))
  {
    hide Run, DoubleText, DoubleWord;
    match o
    case OpenSingle(text) =>
      RunConcat(s, "'", text);
      RunOne(s, '\'');
      SingleRuns(Step(s, '\''), text);
    case OpenDouble(inside, slash) =>
      var end := if slash then "\\" else "";
      RunConcat(s, "\"" + DoubleText(inside), end);
      RunConcat(s, "\"", DoubleText(inside));
      RunOne(s, '"');
      DoubleRuns(Step(s, '"'), inside);
      var t := Run(Step(s, '"'), DoubleText(inside));
      if slash {
        RunOne(t, '\\');
      } else {
        RunEmpty(t);
      }
    case OpenEscape =>
      RunOne(s, '\\');
  }

  /** A command line that ends inside a quote or behind a backslash is refused with the error for it. */
  method SplitOpen(lead: seq<Sep>, ws: seq<Spaced>, begun: seq<Part>, o: Open) returns (words: seq<string>, err: Option<Error>)
    requires AllSep(lead) && (forall i :: 0 <= i < |ws| ==> SpacedOk(ws[i])) && (begun != [] ==> WordOk(begun)) && OpenOk(o)
    ensures err == Some(OpenError(o)) && words == Words(ws)
  {
    hide Run, GapText, SpacedText, WordText, Word, Words, WordOk, SpacedOk, AllSep, OpenText, OpenOk;
    LineRuns(lead, ws);
    var line := GapText(lead) + SpacedText(ws);
    var s := Shell(Words(ws), "", Between);
    BegunRuns(s, begun);
    RunConcat(START, line, WordText(begun));
    RunConcat(START, line + WordText(begun), OpenText(o));
    OpenRuns(Run(s, WordText(begun)), o);
    words, err := StringToArgs(line + WordText(begun) + OpenText(o));
  }

  lemma BegunRuns(s: Shell, begun: seq<Part>)
    requires s.mode.Between? && s.word == "" && (begun != [] ==> WordOk(begun))
    ensures var t := Run(s, WordText(begun)); (t.mode.Raw? || t.mode.Between?) && t.words == s.words
  {
    if begun == [] {
      RunEmpty(s);
    } else {
      WordRuns(s, begun);
    }
  }
}
