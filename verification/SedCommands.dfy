/** What the commands of sed do to a whole input, script by script, with the text they write spelled out. */
module SedCommands {
  import opened Basics
  import opened SedMachine
  import opened SedScript
  import opened SedSyntax
  import opened SedCompile
  import opened SedRanges

  // ---- runs that write a text per line ----

  /** The texts one after the other. */
  function Concat(texts: seq<string>): string {
    if texts == [] then "" else Concat(texts[..|texts| - 1]) + texts[|texts| - 1]
  }

  /** Each pass goes from one state to the next, writes the text in between, and asks for another line. */
  ghost predicate Walks(b: Block, quiet: bool, states: seq<State>, texts: seq<string>)
    requires BlockOk(b)
  {
    |states| == |texts| + 1 && forall i :: 0 <= i < |texts| ==> WalksAt(b, quiet, states[i], states[i + 1], texts[i])
  }

  ghost predicate WalksAt(b: Block, quiet: bool, s: State, t: State, text: string)
    requires BlockOk(b)
  {
    forall out :: Pass(b, Script(s, out, NextLineFirst, false), quiet) == Script(t, out + text, NextLineFirst, false)
  }

  lemma {:induction false} WalkedTo(b: Block, quiet: bool, states: seq<State>, texts: seq<string>, n: nat)
    requires BlockOk(b) && Walks(b, quiet, states, texts) && n <= |texts|
    ensures Passes(b, Script(states[0], "", NextLineFirst, false), quiet, n) == Script(states[n], Concat(texts[..n]), NextLineFirst, false)
    decreases n
  {
    hide Pass, BlockOk;
    if n > 0 {
      WalkedTo(b, quiet, states, texts, n - 1);
      PassesLast(b, Script(states[0], "", NextLineFirst, false), quiet, n - 1);
      assert WalksAt(b, quiet, states[n - 1], states[n - 1 + 1], texts[n - 1]);
      assert texts[..n][..n - 1] == texts[..n - 1];
    }
  }

  /** At the end of the input what is pending is written, and the run is over. */
  lemma EndsThere(b: Block, quiet: bool, s: State, out: string)
    requires BlockOk(b) && s.lastl
    ensures var x := Pass(b, Script(s, out, NextLineFirst, false), quiet);
      x.over && x.out == out + if s.appl.Some? then s.appl.value else ""
  {
  }

  /** A walk over all lines, and its end. */
  lemma WalkedThrough(b: Block, quiet: bool, states: seq<State>, texts: seq<string>)
    requires BlockOk(b) && Walks(b, quiet, states, texts) && states[|texts|].lastl
    ensures var x := Passes(b, Script(states[0], "", NextLineFirst, false), quiet, |texts| + 1);
      x.over && x.out == Concat(texts) + if states[|texts|].appl.Some? then states[|texts|].appl.value else ""
  {
    hide Pass, BlockOk, WalksAt, Concat, Passes;
    WalkedTo(b, quiet, states, texts, |texts|);
    assert texts[..|texts|] == texts;
    PassesLast(b, Script(states[0], "", NextLineFirst, false), quiet, |texts|);
    EndsThere(b, quiet, states[|texts|], Concat(texts));
  }

  // ---- scripts of commands without addresses ----

  /** The commands, one per line. */
  function Plainly(cmds: seq<Command>): Lines
    decreases |cmds|
  {
    if cmds == [] then Empty else More(Plain(cmds[0]), Plainly(cmds[1..]))
  }

  predicate AllFit(cmds: seq<Command>) {
    forall i :: 0 <= i < |cmds| ==> ArgumentsFit(cmds[i])
  }

  lemma {:induction false} PlainlyFits(cmds: seq<Command>)
    requires AllFit(cmds)
    ensures Fits(Plainly(cmds)) && BlockOk(Tree(Plainly(cmds)))
    decreases |cmds|
  {
    if cmds != [] {
      PlainlyFits(cmds[1..]);
      AcceptedIs(cmds[0]);
      assert ItemFits(Plain(cmds[0])) && NodeOk(Do(cmds[0]));
    }
  }

  /** The next line has been read into a state that was left at the end of a cycle. */
  function Next(s: State, line: string, ahead: seq<string>): State {
    s.(pat := line, lineno := s.lineno + 1, modified := false, appl := None,
       nxtl := if ahead == [] then "" else ahead[0], input := if ahead == [] then [] else ahead[1..],
       lastl := s.lastl || ahead == [])
  }

  /** The lines `k` on are still to be read. */
  ghost predicate Ahead(s: State, lines: seq<string>, k: nat) {
    && k <= |lines| && s.lineno == k && (s.lastl <==> k == |lines|)
    && (k < |lines| ==> s.nxtl == lines[k] && s.input == lines[k + 1..]) && (k == |lines| ==> s.nxtl == "" && s.input == [])
  }

  lemma AdvanceTo(s: State, lines: seq<string>, k: nat)
    requires Ahead(s, lines, k) && k < |lines|
    ensures Advance(s) == Result(Next(s, lines[k], lines[k + 1..]), if s.appl.Some? then s.appl.value else "", Through)
    ensures Ahead(Next(s, lines[k], lines[k + 1..]), lines, k + 1)
  {
  }

  lemma NextIs(s: State, line: string, ahead: seq<string>)
    ensures var t := Next(s, line, ahead);
      t.pat == line && t.appl == None && t.hold == s.hold && t.files == s.files && t.lineno == s.lineno + 1 && !t.modified
  {
  }

  lemma AheadStays(s: State, t: State, lines: seq<string>, k: nat)
    requires Ahead(s, lines, k) && t == s.(pat := t.pat, hold := t.hold, appl := t.appl, modified := t.modified, files := t.files)
    ensures Ahead(t, lines, k)
  {
  }

  lemma PrimeAhead(lines: seq<string>)
    ensures Ahead(Prime(lines, map[]), lines, 0)
  {
  }

  /** A pass that reads one line: the text pending, what the script writes, and the automatic print if it gets there. */
  lemma OneLinePass(b: Block, quiet: bool, s: State, lines: seq<string>, k: nat, r: Result)
    requires BlockOk(b) && Ahead(s, lines, k) && k < |lines|
    requires r == EvalBlock(b, 1, Next(s, lines[k], lines[k + 1..]), quiet) && r.exit in {Through, EndCycle, NewCycle}
    ensures var pending := if s.appl.Some? then s.appl.value else "";
      var printed := if r.exit == NewCycle || quiet then "" else r.s.pat + "\n";
      WalksAt(b, quiet, s, r.s, pending + (r.out + printed))
  {
    AdvanceTo(s, lines, k);
    var pending := if s.appl.Some? then s.appl.value else "";
    var printed := if r.exit == NewCycle || quiet then "" else r.s.pat + "\n";
    hide Advance, EvalBlock, Next, Ahead;
    assert r.out + "" == r.out;
    forall out ensures Pass(b, Script(s, out, NextLineFirst, false), quiet)
      == Script(r.s, out + (pending + (r.out + printed)), NextLineFirst, false)
    {
      Assoc(out, pending, r.out + printed);
    }
  }

  /** The commands as a tree, the first one apart. */
  lemma PlainlyTree(c: Command, rest: seq<Command>)
    requires ArgumentsFit(c) && AllFit(rest)
    ensures Accepted(c) && Tree(Plainly([c] + rest)) == Cons(Do(c), Tree(Plainly(rest)))
    ensures BlockOk(Tree(Plainly(rest))) && BlockOk(Tree(Plainly([c] + rest)))
  {
    AcceptedIs(c);
    PlainlyFits(rest);
    assert ([c] + rest)[1..] == rest;
    assert NodeOk(Do(c));
  }

  lemma NoCommands()
    ensures Tree(Plainly([])) == Nil && BlockOk(Nil)
  {
  }

  lemma OneCommand(c: Command, s: State, quiet: bool)
    requires ArgumentsFit(c)
    ensures BlockOk(Tree(Plainly([c]))) && Accepted(c)
    ensures EvalBlock(Tree(Plainly([c])), 1, s, quiet) == EvalCommand(c, s, quiet)
  {
    hide EvalCommand, Tree, Plainly, ArgumentsFit;
    PlainlyTree(c, []);
    NoCommands();
    assert [c] + [] == [c];
    OneNode(Do(c), 1, s, quiet);
  }

  // ---- commands that rewrite or print the line ----

  /** What a command and the automatic print write for a line, from an empty hold space. */
  function Writes(c: Command, line: string, n: nat): string {
    match c
    case CPrint => line + "\n" + (line + "\n")
    case CDelete => ""
    case CInsert(text) => text + (line + "\n")
    case CChange(text) => text
    case CLineNo => LineNumber(n) + "\n" + (line + "\n")
    case CTranslate(f) => if f.Some? then f.value(line) + "\n" else ""
    case CSubstitute(f, printing) =>
      if f.None? then ""
      else
        (match f.value(line)
         case None => line + "\n"
         case Some(p) => (if printing then p + "\n" else "") + (p + "\n"))
    case CGet => "\n"
    case CGetAppend => line + "\n" + "\n"
    case _ => line + "\n"
  }

  /** The pattern space a command leaves. */
  function Leaves(c: Command, line: string): string {
    match c
    case CTranslate(f) => if f.Some? then f.value(line) else line
    case CSubstitute(f, _) => if f.Some? && f.value(line).Some? then f.value(line).value else line
    case CGet => ""
    case CGetAppend => line + "\n"
    case _ => line
  }

  predicate Rewrites(c: Command) {
    || c.CPrint? || c.CDelete? || c.CInsert? || c.CChange? || c.CLineNo? || c.CTranslate? || c.CSubstitute?
    || c.CGet? || c.CGetAppend?
  }

  /** One of these commands on a line. */
  lemma RewritesLine(c: Command, s: State)
    requires Rewrites(c) && ArgumentsFit(c) && s.hold == "" && s.lineno >= 0
    ensures Accepted(c)
    ensures var r := EvalCommand(c, s, false);
      && r.exit in {Through, NewCycle} && r.s == s.(pat := Leaves(c, s.pat), modified := r.s.modified)
      && r.out + (if r.exit == NewCycle then "" else r.s.pat + "\n") == Writes(c, s.pat, s.lineno)
  {
    hide LineNumber;
    AcceptedIs(c);
    assert s.pat + "\n" + "" == s.pat + "\n" && "" + (s.pat + "\n") == s.pat + "\n";
  }

  /** Where such a script stands after `k` lines. */
  ghost predicate Rewritten(s: State, lines: seq<string>, k: nat) {
    Ahead(s, lines, k) && s.hold == "" && s.appl == None
  }

  lemma {:induction false} RewrittenLines(c: Command, lines: seq<string>, k: nat) returns (states: seq<State>, texts: seq<string>)
    requires Rewrites(c) && ArgumentsFit(c) && k <= |lines|
    ensures BlockOk(Tree(Plainly([c]))) && |texts| == k && Walks(Tree(Plainly([c])), false, states, texts)
    ensures states[0] == Prime(lines, map[]) && Rewritten(states[k], lines, k)
    ensures forall i :: 0 <= i < k ==> texts[i] == Writes(c, lines[i], i + 1)
    decreases k
  {
    hide Pass, Tree, Plainly, EvalBlock, BlockOk, EvalCommand, Writes, Leaves, Ahead, Prime, WalksAt, Rewrites;
    PlainlyFits([c]);
    if k == 0 {
      states, texts := [Prime(lines, map[])], [];
      PrimeAhead(lines);
      PrimeIs(lines);
    } else {
      states, texts := RewrittenLines(c, lines, k - 1);
      var s, t, text := RewrittenOne(c, lines, k - 1, states[k - 1]);
      states, texts := WalkOn(Tree(Plainly([c])), false, states, texts, t, text);
    }
  }

  lemma PrimeIs(lines: seq<string>)
    ensures var s := Prime(lines, map[]); s.hold == "" && s.appl == None && s.files == []
  {
  }

  lemma WalkOn(b: Block, quiet: bool, states: seq<State>, texts: seq<string>, t: State, text: string)
    returns (states': seq<State>, texts': seq<string>)
    requires BlockOk(b) && Walks(b, quiet, states, texts) && WalksAt(b, quiet, states[|texts|], t, text)
    ensures states' == states + [t] && texts' == texts + [text] && Walks(b, quiet, states', texts')
  {
    hide WalksAt, BlockOk;
    states', texts' := states + [t], texts + [text];
    forall i | 0 <= i < |texts'| ensures WalksAt(b, quiet, states'[i], states'[i + 1], texts'[i]) {
      if i < |texts| {
        assert WalksAt(b, quiet, states[i], states[i + 1], texts[i]);
      }
    }
  }

  lemma RewrittenOne(c: Command, lines: seq<string>, k: nat, s: State) returns (read: State, t: State, text: string)
    requires Rewrites(c) && ArgumentsFit(c) && k < |lines| && Rewritten(s, lines, k)
    ensures BlockOk(Tree(Plainly([c]))) && WalksAt(Tree(Plainly([c])), false, s, t, text)
    ensures Rewritten(t, lines, k + 1) && text == Writes(c, lines[k], k + 1)
  {
    read := Next(s, lines[k], lines[k + 1..]);
    AdvanceTo(s, lines, k);
    assert read.pat == lines[k] && read.lineno == k + 1 && read.hold == "" && read.appl == None;
    hide Pass, Tree, Plainly, EvalBlock, BlockOk, EvalCommand, Writes, Leaves, Ahead, WalksAt, Rewrites, Next;
    OneCommand(c, read, false);
    RewritesLine(c, read);
    var r := EvalCommand(c, read, false);
    OneLinePass(Tree(Plainly([c])), false, s, lines, k, r);
    t := r.s;
    text := "" + (r.out + if r.exit == NewCycle then "" else r.s.pat + "\n");
    assert "" + Writes(c, lines[k], k + 1) == Writes(c, lines[k], k + 1);
    AheadStays(read, t, lines, k + 1);
  }

  function AllWrites(c: Command, lines: seq<string>): seq<string> {
    seq(|lines|, i requires 0 <= i < |lines| => Writes(c, lines[i], i + 1))
  }

  /** `p`, `d`, `i`, `c`, `=`, `y`, `s`, `g` and `G` alone, on any input: line by line, exactly the text written out above. */
  lemma RewriteScripts(c: Command, lines: seq<string>)
    requires Rewrites(c) && ArgumentsFit(c)
    ensures BlockOk(Tree(Plainly([c])))
    ensures var x := Passes(Tree(Plainly([c])), Script(Prime(lines, map[]), "", NextLineFirst, false), false, |lines| + 1);
      x.over && x.out == Concat(AllWrites(c, lines))
  {
    hide Tree, Plainly, BlockOk, Writes, Walks, Passes, Concat, Prime, Rewrites;
    PlainlyFits([c]);
    var states, texts := RewrittenLines(c, lines, |lines|);
    assert texts == AllWrites(c, lines);
    WalkedThrough(Tree(Plainly([c])), false, states, texts);
    assert Concat(texts) + "" == Concat(texts);
  }

  // ---- commands that keep something for later ----

  /** Text from `a` or `r` is written behind the line it was appended to. */
  lemma {:induction false} AppendedLines(c: Command, text: string, lines: seq<string>, k: nat)
    returns (states: seq<State>, texts: seq<string>)
    requires (c == CAppend(text) || c == CReadFile(Some(text))) && k <= |lines|
    ensures BlockOk(Tree(Plainly([c]))) && |texts| == k && Walks(Tree(Plainly([c])), false, states, texts)
    ensures states[0] == Prime(lines, map[]) && Ahead(states[k], lines, k)
    ensures states[k].appl == if k == 0 then None else Some(text)
    ensures forall i :: 0 <= i < k ==> texts[i] == (if i == 0 then "" else text) + (lines[i] + "\n")
    decreases k
  {
    hide Pass, Tree, Plainly, EvalBlock, BlockOk, Ahead, Prime, WalksAt;
    PlainlyFits([c]);
    if k == 0 {
      states, texts := [Prime(lines, map[])], [];
      PrimeAhead(lines);
      PrimeIs(lines);
    } else {
      states, texts := AppendedLines(c, text, lines, k - 1);
      var s := states[k - 1];
      var t, w := AppendedOne(c, text, lines, k - 1, s);
      states, texts := WalkOn(Tree(Plainly([c])), false, states, texts, t, w);
    }
  }

  lemma AppendDoes(c: Command, text: string, s: State)
    requires (c == CAppend(text) || c == CReadFile(Some(text))) && s.appl == None
    ensures EvalCommand(c, s, false) == Result(s.(appl := Some(text)), "", Through)
  {
  }

  lemma AppendedOne(c: Command, text: string, lines: seq<string>, k: nat, s: State) returns (t: State, w: string)
    requires (c == CAppend(text) || c == CReadFile(Some(text))) && k < |lines| && Ahead(s, lines, k)
    ensures BlockOk(Tree(Plainly([c]))) && WalksAt(Tree(Plainly([c])), false, s, t, w)
    ensures Ahead(t, lines, k + 1) && t.appl == Some(text)
    ensures w == (if s.appl.Some? then s.appl.value else "") + (lines[k] + "\n")
  {
    hide Tree, Plainly, EvalBlock, EvalCommand, BlockOk, Ahead, WalksAt, Next;
    var read := Next(s, lines[k], lines[k + 1..]);
    AdvanceTo(s, lines, k);
    NextIs(s, lines[k], lines[k + 1..]);
    OneCommand(c, read, false);
    AppendDoes(c, text, read);
    var r := EvalCommand(c, read, false);
    OneLinePass(Tree(Plainly([c])), false, s, lines, k, r);
    t, w := r.s, (if s.appl.Some? then s.appl.value else "") + (r.out + (r.s.pat + "\n"));
    assert "" + (lines[k] + "\n") == lines[k] + "\n";
    AheadStays(read, t, lines, k + 1);
  }

  /** Every line with the text behind it. */
  function Followed(text: string, lines: seq<string>): seq<string> {
    seq(|lines|, i requires 0 <= i < |lines| => lines[i] + "\n" + text)
  }

  lemma {:induction false} Interleaved(text: string, lines: seq<string>, texts: seq<string>, k: nat)
    requires k <= |lines| && |texts| == k
    requires forall i :: 0 <= i < k ==> texts[i] == (if i == 0 then "" else text) + (lines[i] + "\n")
    ensures Concat(texts) + (if k == 0 then "" else text) == Concat(Followed(text, lines[..k]))
    decreases k
  {
    if k > 0 {
      var both := Followed(text, lines[..k]);
      Interleaved(text, lines, texts[..k - 1], k - 1);
      assert both[..k - 1] == Followed(text, lines[..k - 1]);
      var a, b, l := Concat(texts[..k - 1]), if k == 1 then "" else text, lines[k - 1] + "\n";
      assert Concat(texts) == a + (b + l) && Concat(both) == Concat(both[..k - 1]) + (l + text);
      hide Concat, Followed;
      Regrouped(a, b, l, text);
    }
  }

  lemma Regrouped(a: string, b: string, l: string, text: string)
    ensures a + (b + l) + text == (a + b) + (l + text)
  {
  }

  /** `a` and `r` alone, on any input: the text stands behind every line. */
  lemma AppendScripts(c: Command, text: string, lines: seq<string>)
    requires c == CAppend(text) || c == CReadFile(Some(text))
    ensures BlockOk(Tree(Plainly([c])))
    ensures var x := Passes(Tree(Plainly([c])), Script(Prime(lines, map[]), "", NextLineFirst, false), false, |lines| + 1);
      x.over && x.out == Concat(Followed(text, lines))
  {
    hide Tree, Plainly, BlockOk, WalksAt, Passes, Concat, Prime, Followed, ArgumentsFit, Ahead;
    var states, texts := AppendedLines(c, text, lines, |lines|);
    AtEnd(states[|lines|], lines);
    WalkedThrough(Tree(Plainly([c])), false, states, texts);
    Interleaved(text, lines, texts, |lines|);
    assert lines[..|lines|] == lines;
  }

  lemma AtEnd(s: State, lines: seq<string>)
    requires Ahead(s, lines, |lines|)
    ensures s.lastl
  {
  }

  /** What the hold space holds behind `k` lines under `x`, `h`, `H`, and what is written for a line. */
  function Held(c: Command, lines: seq<string>, k: nat): string
    requires k <= |lines|
  {
    if k == 0 then "" else if c.CHoldAppend? then Held(c, lines, k - 1) + "\n" + lines[k - 1] else lines[k - 1]
  }

  /** Every line as it is written under one of these commands. */
  function HeldTexts(c: Command, lines: seq<string>): seq<string> {
    seq(|lines|, i requires 0 <= i < |lines| => (if c.CSwap? then Held(c, lines, i) else lines[i]) + "\n")
  }

  predicate Holds(c: Command) {
    c.CSwap? || c.CHold? || c.CHoldAppend?
  }

  lemma {:induction false} HeldLines(c: Command, lines: seq<string>, k: nat) returns (states: seq<State>, texts: seq<string>)
    requires Holds(c) && k <= |lines|
    ensures BlockOk(Tree(Plainly([c]))) && |texts| == k && Walks(Tree(Plainly([c])), false, states, texts)
    ensures states[0] == Prime(lines, map[]) && Ahead(states[k], lines, k) && states[k].appl == None
    ensures states[k].hold == Held(c, lines, k)
    ensures forall i :: 0 <= i < k ==> texts[i] == (if c.CSwap? then Held(c, lines, i) else lines[i]) + "\n"
    decreases k
  {
    hide Pass, Tree, Plainly, EvalBlock, BlockOk, Ahead, Prime, WalksAt, Held, Holds;
    HoldsFit(c);
    PlainlyFits([c]);
    if k == 0 {
      states, texts := [Prime(lines, map[])], [];
      PrimeAhead(lines);
      PrimeIs(lines);
      HeldNone(c, lines);
    } else {
      states, texts := HeldLines(c, lines, k - 1);
      var t, w := HeldOne(c, lines, k - 1, states[k - 1]);
      states, texts := WalkOn(Tree(Plainly([c])), false, states, texts, t, w);
    }
  }

  lemma HoldsFit(c: Command)
    requires Holds(c)
    ensures AllFit([c])
  {
  }

  lemma HeldNone(c: Command, lines: seq<string>)
    ensures Held(c, lines, 0) == ""
  {
  }

  lemma HoldDoes(c: Command, lines: seq<string>, k: nat, s: State)
    requires Holds(c) && k < |lines| && s.pat == lines[k] && s.hold == Held(c, lines, k)
    ensures EvalCommand(c, s, false)
         == Result(s.(pat := if c.CSwap? then Held(c, lines, k) else lines[k], hold := Held(c, lines, k + 1)), "", Through)
  {
  }

  lemma HeldOne(c: Command, lines: seq<string>, k: nat, s: State) returns (t: State, w: string)
    requires Holds(c) && k < |lines| && Ahead(s, lines, k) && s.appl == None && s.hold == Held(c, lines, k)
    ensures BlockOk(Tree(Plainly([c]))) && WalksAt(Tree(Plainly([c])), false, s, t, w)
    ensures Ahead(t, lines, k + 1) && t.appl == None && t.hold == Held(c, lines, k + 1)
    ensures w == (if c.CSwap? then Held(c, lines, k) else lines[k]) + "\n"
  {
    hide Tree, Plainly, EvalBlock, EvalCommand, BlockOk, Ahead, WalksAt, Next, Held;
    var read := Next(s, lines[k], lines[k + 1..]);
    AdvanceTo(s, lines, k);
    NextIs(s, lines[k], lines[k + 1..]);
    OneCommand(c, read, false);
    HoldDoes(c, lines, k, read);
    var r := EvalCommand(c, read, false);
    OneLinePass(Tree(Plainly([c])), false, s, lines, k, r);
    t, w := r.s, "" + ("" + (r.s.pat + "\n"));
    assert w == r.s.pat + "\n";
    AheadStays(read, t, lines, k + 1);
  }

  /**
    `x`, `h` and `H` alone, on any input: `x` writes every line one line late, behind an empty one; `h` keeps the last
    line and `H` all of them, each behind a newline, and neither changes what is written.
  */
  lemma HoldScripts(c: Command, lines: seq<string>)
    requires Holds(c)
    ensures BlockOk(Tree(Plainly([c])))
    ensures var x := Script(Prime(lines, map[]), "", NextLineFirst, false);
      && Passes(Tree(Plainly([c])), x, false, |lines|).s.hold == Held(c, lines, |lines|)
      && Passes(Tree(Plainly([c])), x, false, |lines| + 1).over
      && Passes(Tree(Plainly([c])), x, false, |lines| + 1).out == Concat(HeldTexts(c, lines))
  {
    hide Tree, Plainly, BlockOk, WalksAt, Passes, Concat, Prime, Held, Holds, Ahead, HeldTexts;
    var states, texts := HeldLines(c, lines, |lines|);
    AtEnd(states[|lines|], lines);
    SameTexts(c, lines, texts);
    WalkedThrough(Tree(Plainly([c])), false, states, texts);
    WalkedAll(Tree(Plainly([c])), false, states, texts);
    assert Concat(texts) + "" == Concat(texts);
  }

  lemma SameTexts(c: Command, lines: seq<string>, texts: seq<string>)
    requires |texts| == |lines|
    requires forall i :: 0 <= i < |lines| ==> texts[i] == (if c.CSwap? then Held(c, lines, i) else lines[i]) + "\n"
    ensures texts == HeldTexts(c, lines)
  {
    hide Held;
  }

  lemma WalkedAll(b: Block, quiet: bool, states: seq<State>, texts: seq<string>)
    requires BlockOk(b) && Walks(b, quiet, states, texts)
    ensures |states| == |texts| + 1
    ensures Passes(b, Script(states[0], "", NextLineFirst, false), quiet, |texts|)
         == Script(states[|texts|], Concat(texts), NextLineFirst, false)
  {
    hide Pass, BlockOk, WalksAt, Concat, Passes;
    WalkedTo(b, quiet, states, texts, |texts|);
    assert texts[..|texts|] == texts;
  }

  function Filed(file: string, lines: seq<string>): seq<(string, string)> {
    seq(|lines|, i requires 0 <= i < |lines| => (file, lines[i] + "\n"))
  }

  lemma {:induction false} WrittenLines(file: string, lines: seq<string>, k: nat) returns (states: seq<State>, texts: seq<string>)
    requires k <= |lines|
    ensures BlockOk(Tree(Plainly([CWriteFile(file)]))) && |texts| == k
    ensures Walks(Tree(Plainly([CWriteFile(file)])), false, states, texts)
    ensures states[0] == Prime(lines, map[]) && Ahead(states[k], lines, k) && states[k].appl == None
    ensures states[k].files == Filed(file, lines[..k])
    ensures forall i :: 0 <= i < k ==> texts[i] == lines[i] + "\n"
    decreases k
  {
    hide Pass, Tree, Plainly, EvalBlock, BlockOk, Ahead, Prime, WalksAt;
    PlainlyFits([CWriteFile(file)]);
    if k == 0 {
      states, texts := [Prime(lines, map[])], [];
      PrimeAhead(lines);
      PrimeIs(lines);
    } else {
      states, texts := WrittenLines(file, lines, k - 1);
      var before := states[k - 1].files;
      var t, w := WrittenOne(file, lines, k - 1, states[k - 1]);
      states, texts := WalkOn(Tree(Plainly([CWriteFile(file)])), false, states, texts, t, w);
      assert Filed(file, lines[..k]) == before + [(file, lines[k - 1] + "\n")];
    }
  }

  lemma WrittenOne(file: string, lines: seq<string>, k: nat, s: State) returns (t: State, w: string)
    requires k < |lines| && Ahead(s, lines, k) && s.appl == None
    ensures BlockOk(Tree(Plainly([CWriteFile(file)]))) && WalksAt(Tree(Plainly([CWriteFile(file)])), false, s, t, w)
    ensures Ahead(t, lines, k + 1) && t.appl == None && t.files == s.files + [(file, lines[k] + "\n")] && w == lines[k] + "\n"
  {
    var c, read := CWriteFile(file), Next(s, lines[k], lines[k + 1..]);
    AdvanceTo(s, lines, k);
    NextIs(s, lines[k], lines[k + 1..]);
    hide Tree, Plainly, EvalBlock, BlockOk, Ahead, WalksAt, Next;
    OneCommand(c, read, false);
    var r := EvalCommand(c, read, false);
    assert r == Result(read.(files := s.files + [(file, lines[k] + "\n")]), "", Through);
    OneLinePass(Tree(Plainly([c])), false, s, lines, k, r);
    t, w := r.s, "" + ("" + (r.s.pat + "\n"));
    assert w == r.s.pat + "\n";
    AheadStays(read, t, lines, k + 1);
  }

  /** `w` alone, on any input: the file gets every line, in order, and what is written does not change. */
  lemma WriteScripts(file: string, lines: seq<string>)
    ensures BlockOk(Tree(Plainly([CWriteFile(file)])))
    ensures var x := Passes(Tree(Plainly([CWriteFile(file)])), Script(Prime(lines, map[]), "", NextLineFirst, false), false, |lines|);
      x.s.files == Filed(file, lines) && x.out == Head(lines, |lines|)
  {
    hide Tree, Plainly, BlockOk, WalksAt, Passes, Concat, Prime, Filed, Ahead;
    var states, texts := WrittenLines(file, lines, |lines|);
    WalkedAll(Tree(Plainly([CWriteFile(file)])), false, states, texts);
    assert lines[..|lines|] == lines;
    HeadIs(lines, texts, |lines|);
    assert texts[..|lines|] == texts;
  }

  lemma {:induction false} HeadIs(lines: seq<string>, texts: seq<string>, k: nat)
    requires k <= |lines| == |texts| && forall i :: 0 <= i < |lines| ==> texts[i] == lines[i] + "\n"
    ensures Concat(texts[..k]) == Head(lines, k)
    decreases k
  {
    if k > 0 {
      HeadIs(lines, texts, k - 1);
      assert texts[..k][..k - 1] == texts[..k - 1];
    }
  }

  // ---- commands that read on ----

  lemma TwoCommands(c: Command, d: Command, s: State, quiet: bool)
    requires ArgumentsFit(c) && ArgumentsFit(d)
    ensures BlockOk(Tree(Plainly([c, d]))) && Accepted(c) && Accepted(d)
    ensures var r := EvalCommand(c, s, quiet);
      EvalBlock(Tree(Plainly([c, d])), 1, s, quiet)
        == if r.exit != Through then r else var r' := EvalCommand(d, r.s, quiet); r'.(out := r.out + r'.out)
  {
    hide EvalCommand, Tree, Plainly, ArgumentsFit, EvalBlock, BlockOk;
    PlainlyTree(c, [d]);
    assert [c] + [d] == [c, d];
    OneTree(d);
    FirstDone(c, Cons(Do(d), Nil), 1, s, quiet);
    OneCommandAt(d, 1 + NodeSize(Do(c), quiet), EvalCommand(c, s, quiet).s, quiet);
  }

  lemma OneTree(c: Command)
    requires ArgumentsFit(c)
    ensures Accepted(c) && Tree(Plainly([c])) == Cons(Do(c), Nil) && BlockOk(Cons(Do(c), Nil))
  {
    hide Tree, Plainly, ArgumentsFit;
    PlainlyTree(c, []);
    NoCommands();
    assert [c] + [] == [c];
  }

  /** A pass that reads two lines. */
  lemma TwoLinePass(b: Block, quiet: bool, s: State, lines: seq<string>, k: nat, r: Result)
    requires BlockOk(b) && Ahead(s, lines, k) && k + 1 < |lines| && s.appl == None
    requires r == EvalBlock(b, 1, Next(s, lines[k], lines[k + 1..]), quiet) && r.exit == Through
    ensures WalksAt(b, quiet, s, r.s, r.out + if quiet then "" else r.s.pat + "\n")
  {
    hide EvalBlock, Next, Ahead, WalksAt;
    OneLinePass(b, quiet, s, lines, k, r);
    var w := r.out + if quiet then "" else r.s.pat + "\n";
    assert "" + w == w;
  }

  /** Where a script that reads two lines per cycle stands. */
  ghost predicate AtPair(s: State, lines: seq<string>, k: nat) {
    Ahead(s, lines, k) && s.appl == None
  }

  lemma NextDoes(s: State, t: State)
    requires s.appl == None && Advance(s) == Result(t, "", Through)
    ensures EvalCommand(CNext, s, true) == Result(t, "", Through) && EvalCommand(CPrint, t, true) == Result(t, t.pat + "\n", Through)
    ensures EvalCommand(CNextAppend, s, false) == Result(t.(pat := s.pat + "\n" + t.pat), "", Through)
    ensures "" + (t.pat + "\n") == t.pat + "\n"
  {
    assert "" + "" == "";
  }

  /** `n` then `p`, silent: the second line of each pair is printed. */
  lemma PairPrinted(lines: seq<string>, k: nat, s: State) returns (t: State)
    requires k + 1 < |lines| && AtPair(s, lines, k)
    ensures var b := Tree(Plainly([CNext, CPrint])); BlockOk(b) && WalksAt(b, true, s, t, lines[k + 1] + "\n")
    ensures AtPair(t, lines, k + 2)
  {
    hide Tree, Plainly, EvalBlock, EvalCommand, BlockOk, Ahead, WalksAt, Next, Advance;
    var read := Next(s, lines[k], lines[k + 1..]);
    AdvanceTo(s, lines, k);
    NextIs(s, lines[k], lines[k + 1..]);
    AdvanceTo(read, lines, k + 1);
    t := Next(read, lines[k + 1], lines[k + 2..]);
    NextIs(read, lines[k + 1], lines[k + 2..]);
    TwoCommands(CNext, CPrint, read, true);
    NextDoes(read, t);
    var r := EvalBlock(Tree(Plainly([CNext, CPrint])), 1, read, true);
    assert r == Result(t, lines[k + 1] + "\n", Through);
    TwoLinePass(Tree(Plainly([CNext, CPrint])), true, s, lines, k, r);
    assert lines[k + 1] + "\n" + "" == lines[k + 1] + "\n";
  }

  /** `N`, printing: each pair comes out joined by a newline. */
  lemma PairJoined(lines: seq<string>, k: nat, s: State) returns (t: State)
    requires k + 1 < |lines| && AtPair(s, lines, k)
    ensures var b := Tree(Plainly([CNextAppend]));
      BlockOk(b) && WalksAt(b, false, s, t, lines[k] + "\n" + lines[k + 1] + "\n")
    ensures AtPair(t, lines, k + 2)
  {
    hide Tree, Plainly, EvalBlock, EvalCommand, BlockOk, Ahead, WalksAt, Next, Advance;
    var read := Next(s, lines[k], lines[k + 1..]);
    AdvanceTo(s, lines, k);
    NextIs(s, lines[k], lines[k + 1..]);
    AdvanceTo(read, lines, k + 1);
    var second := Next(read, lines[k + 1], lines[k + 2..]);
    NextIs(read, lines[k + 1], lines[k + 2..]);
    t := second.(pat := lines[k] + "\n" + lines[k + 1]);
    OneCommand(CNextAppend, read, false);
    NextDoes(read, second);
    var r := EvalCommand(CNextAppend, read, false);
    TwoLinePass(Tree(Plainly([CNextAppend])), false, s, lines, k, r);
    assert "" + (t.pat + "\n") == t.pat + "\n";
    AheadStays(second, t, lines, k + 2);
  }

  /** A line without a partner: both scripts end there, and write nothing for it. */
  lemma LastAlone(lines: seq<string>, s: State, out: string)
    requires |lines| > 0 && AtPair(s, lines, |lines| - 1)
    ensures BlockOk(Tree(Plainly([CNext, CPrint]))) && BlockOk(Tree(Plainly([CNextAppend])))
    ensures var x := Pass(Tree(Plainly([CNext, CPrint])), Script(s, out, NextLineFirst, false), true); x.over && x.out == out
    ensures var x := Pass(Tree(Plainly([CNextAppend])), Script(s, out, NextLineFirst, false), false); x.over && x.out == out
  {
    hide Ahead, Pass, Tree, Plainly, EvalBlock, BlockOk, EvalCommand, Advance, Next;
    var read := LastRead(lines, s);
    TwoCommands(CNext, CPrint, read, true);
    OneCommand(CNextAppend, read, false);
    NextStops(read);
    StopsThere(Tree(Plainly([CNext, CPrint])), true, s, read, out, "");
    StopsThere(Tree(Plainly([CNextAppend])), false, s, read, out, "");
    assert out + "" == out;
  }

  lemma LastRead(lines: seq<string>, s: State) returns (read: State)
    requires |lines| > 0 && AtPair(s, lines, |lines| - 1)
    ensures Advance(s) == Result(read, "", Through) && read.lastl && read.appl == None
  {
    var k := |lines| - 1;
    read := Next(s, lines[k], lines[k + 1..]);
    AdvanceTo(s, lines, k);
  }

  lemma NextStops(s: State)
    requires s.lastl && s.appl == None
    ensures EvalCommand(CNext, s, true).exit == Over && EvalCommand(CNext, s, true).out == ""
    ensures EvalCommand(CNextAppend, s, false).exit == Over && EvalCommand(CNextAppend, s, false).out == ""
  {
  }

  /** A pass in which the script ends the run. */
  lemma StopsThere(b: Block, quiet: bool, s: State, read: State, out: string, text: string)
    requires BlockOk(b) && Advance(s) == Result(read, "", Through)
    requires EvalBlock(b, 1, read, quiet).exit == Over && EvalBlock(b, 1, read, quiet).out == text
    ensures var x := Pass(b, Script(s, out, NextLineFirst, false), quiet); x.over && x.out == out + text
  {
    hide EvalBlock, Advance, BlockOk;
    assert out + "" == out;
  }

  lemma {:induction false} PairWalk(lines: seq<string>, joined: bool, k: nat) returns (states: seq<State>, texts: seq<string>)
    requires 2 * k <= |lines|
    ensures BlockOk(PairScript(joined)) && |texts| == k && Walks(PairScript(joined), !joined, states, texts)
    ensures states[0] == Prime(lines, map[]) && AtPair(states[k], lines, 2 * k)
    ensures forall i :: 0 <= i < k ==>
      texts[i] == (if joined then lines[2 * i] + "\n" + lines[2 * i + 1] else lines[2 * i + 1]) + "\n"
    decreases k
  {
    hide Tree, Plainly, EvalBlock, BlockOk, Ahead, Prime, WalksAt;
    PairScriptOk(joined);
    if k == 0 {
      states, texts := [Prime(lines, map[])], [];
      PrimeAhead(lines);
      PrimeIs(lines);
    } else {
      states, texts := PairWalk(lines, joined, k - 1);
      var t: State;
      if joined {
        t := PairJoined(lines, 2 * k - 2, states[k - 1]);
      } else {
        t := PairPrinted(lines, 2 * k - 2, states[k - 1]);
      }
      states, texts := WalkOn(PairScript(joined), !joined, states, texts, t,
                              (if joined then lines[2 * k - 2] + "\n" + lines[2 * k - 1] else lines[2 * k - 1]) + "\n");
    }
  }

  /** `N`, or `n` and `p`. */
  function PairScript(joined: bool): Block {
    Tree(Plainly(if joined then [CNextAppend] else [CNext, CPrint]))
  }

  lemma PairScriptOk(joined: bool)
    ensures BlockOk(PairScript(joined))
  {
    PlainlyFits([CNextAppend]);
    PlainlyFits([CNext, CPrint]);
  }

  /**
    `sed N` and `sed -n 'n;p'` on any input: the first writes every pair of lines joined by a newline, the second every
    second line; a last line without a partner is written by neither.
  */
  lemma PairScripts(lines: seq<string>, joined: bool)
    ensures BlockOk(PairScript(joined))
    ensures var x := Passes(PairScript(joined), Script(Prime(lines, map[]), "", NextLineFirst, false), !joined, |lines| / 2 + 1);
      x.over && x.out == Concat(PairTexts(lines, joined))
  {
    hide WalksAt, Passes, Concat, Prime, Pass, BlockOk, PairScript, Ahead, PairTexts;
    var k := |lines| / 2;
    var states, texts := PairWalk(lines, joined, k);
    SamePairs(lines, joined, texts);
    if 2 * k == |lines| {
      AtEnd(states[k], lines);
      WalkedThrough(PairScript(joined), !joined, states, texts);
      assert Concat(texts) + "" == Concat(texts);
    } else {
      WalkedAll(PairScript(joined), !joined, states, texts);
      PassesLast(PairScript(joined), Script(states[0], "", NextLineFirst, false), !joined, k);
      OddLine(lines, joined, states[k], Concat(texts));
    }
  }

  function PairTexts(lines: seq<string>, joined: bool): seq<string> {
    seq(|lines| / 2, i requires 0 <= i < |lines| / 2 =>
      (if joined then lines[2 * i] + "\n" + lines[2 * i + 1] else lines[2 * i + 1]) + "\n")
  }

  lemma SamePairs(lines: seq<string>, joined: bool, texts: seq<string>)
    requires |texts| == |lines| / 2
    requires forall i :: 0 <= i < |texts| ==>
      texts[i] == (if joined then lines[2 * i] + "\n" + lines[2 * i + 1] else lines[2 * i + 1]) + "\n"
    ensures texts == PairTexts(lines, joined)
  {
  }

  lemma OddLine(lines: seq<string>, joined: bool, s: State, out: string)
    requires |lines| > 0 && AtPair(s, lines, |lines| - 1)
    ensures BlockOk(PairScript(joined))
    ensures var x := Pass(PairScript(joined), Script(s, out, NextLineFirst, false), !joined); x.over && x.out == out
  {
    hide Tree, Plainly, Pass, AtPair, BlockOk;
    LastAlone(lines, s, out);
  }

  // ---- branches on a change, and the end ----

  lemma TestDoes(f: string -> Option<string>, s: State)
    requires !s.modified
    ensures EvalCommand(CSubstitute(Some(f), false), s, false)
         == match f(s.pat) case Some(p) => Result(s.(pat := p, modified := true), "", Through) case None => Result(s, "", Through)
    ensures EvalCommand(CTest(""), s, false) == Result(s, "", Through)
    ensures forall p :: EvalCommand(CTest(""), s.(pat := p, modified := true), false) == Result(s.(pat := p), "", EndCycle)
    ensures EvalCommand(CPrint, s, false) == Result(s, s.pat + "\n", Through) && "" + (s.pat + "\n") == s.pat + "\n"
  {
  }

  /** `s`, `t` and `p`: a changed line is written once, any other twice. */
  lemma TestedLine(f: string -> Option<string>, lines: seq<string>, k: nat, s: State) returns (t: State, w: string)
    requires k < |lines| && AtPair(s, lines, k)
    ensures var b := Tree(Plainly([CSubstitute(Some(f), false), CTest(""), CPrint])); BlockOk(b) && WalksAt(b, false, s, t, w)
    ensures AtPair(t, lines, k + 1)
    ensures w == match f(lines[k])
                 case Some(p) => p + "\n"
                 case None => lines[k] + "\n" + (lines[k] + "\n")
  {
    var c := CSubstitute(Some(f), false);
    var b := Tree(Plainly([c, CTest(""), CPrint]));
    hide Tree, Plainly, EvalBlock, EvalCommand, BlockOk, Ahead, WalksAt, Next;
    var read := Next(s, lines[k], lines[k + 1..]);
    AdvanceTo(s, lines, k);
    NextIs(s, lines[k], lines[k + 1..]);
    ThreeCommands(c, CTest(""), CPrint, read);
    TestDoes(f, read);
    var r := EvalBlock(b, 1, read, false);
    OneLinePass(b, false, s, lines, k, r);
    t, w := r.s, "" + (r.out + (r.s.pat + "\n"));
    assert "" + (r.s.pat + "\n") == r.s.pat + "\n";
    assert w == r.out + (r.s.pat + "\n");
    AheadStays(read, t, lines, k + 1);
  }

  lemma ThreeCommands(c: Command, d: Command, e: Command, s: State)
    requires ArgumentsFit(c) && ArgumentsFit(d) && ArgumentsFit(e)
    ensures BlockOk(Tree(Plainly([c, d, e]))) && Accepted(c) && Accepted(d) && Accepted(e)
    ensures var r := EvalCommand(c, s, false);
      r.exit == Through && r.out == "" ==>
        EvalBlock(Tree(Plainly([c, d, e])), 1, s, false)
          == var q := EvalCommand(d, r.s, false);
             if q.exit != Through then q else var p := EvalCommand(e, q.s, false); p.(out := q.out + p.out)
  {
    hide EvalCommand, Tree, Plainly, ArgumentsFit, EvalBlock, BlockOk;
    PlainlyTree(c, [d, e]);
    assert [c] + [d, e] == [c, d, e];
    PlainlyTree(d, [e]);
    assert [d] + [e] == [d, e];
    OneTree(e);
    FirstDone(c, Cons(Do(d), Cons(Do(e), Nil)), 1, s, false);
    var r := EvalCommand(c, s, false);
    var at := 1 + NodeSize(Do(c), false);
    FirstDone(d, Cons(Do(e), Nil), at, r.s, false);
    OneCommandAt(e, at + NodeSize(Do(d), false), EvalCommand(d, r.s, false).s, false);
  }

  /** A command that falls through, and what follows it. */
  lemma FirstDone(c: Command, rest: Block, at: int, s: State, quiet: bool)
    requires Accepted(c) && BlockOk(rest)
    ensures BlockOk(Cons(Do(c), rest))
    ensures var r := EvalCommand(c, s, quiet);
      EvalBlock(Cons(Do(c), rest), at, s, quiet)
        == if r.exit != Through then r
           else var q := EvalBlock(rest, at + NodeSize(Do(c), quiet), r.s, quiet); q.(out := r.out + q.out)
    ensures var r := EvalCommand(c, s, quiet);
      r.exit == Through && r.out == "" ==>
        EvalBlock(Cons(Do(c), rest), at, s, quiet) == EvalBlock(rest, at + NodeSize(Do(c), quiet), r.s, quiet)
  {
    hide EvalCommand;
    var r := EvalCommand(c, s, quiet);
    assert EvalNode(Do(c), at, s, quiet) == r;
    var q := EvalBlock(rest, at + NodeSize(Do(c), quiet), r.s, quiet);
    assert "" + q.out == q.out;
  }

  lemma OneCommandAt(c: Command, at: int, s: State, quiet: bool)
    requires Accepted(c)
    ensures BlockOk(Cons(Do(c), Nil)) && EvalBlock(Cons(Do(c), Nil), at, s, quiet) == EvalCommand(c, s, quiet)
  {
    assert BlockOk(Nil) && NodeOk(Do(c));
    hide EvalCommand;
    OneNode(Do(c), at, s, quiet);
  }

  lemma {:induction false} TestedWalk(f: string -> Option<string>, lines: seq<string>, k: nat)
    returns (states: seq<State>, texts: seq<string>)
    requires k <= |lines|
    ensures var b := Tree(Plainly([CSubstitute(Some(f), false), CTest(""), CPrint]));
      BlockOk(b) && |texts| == k && Walks(b, false, states, texts)
    ensures states[0] == Prime(lines, map[]) && AtPair(states[k], lines, k)
    ensures forall i :: 0 <= i < k ==> texts[i] == Tested(f, lines[i])
    decreases k
  {
    hide Tree, Plainly, EvalBlock, BlockOk, Ahead, Prime, WalksAt;
    var cmds := [CSubstitute(Some(f), false), CTest(""), CPrint];
    PlainlyFits(cmds);
    if k == 0 {
      states, texts := [Prime(lines, map[])], [];
      PrimeAhead(lines);
      PrimeIs(lines);
    } else {
      states, texts := TestedWalk(f, lines, k - 1);
      var t, w := TestedLine(f, lines, k - 1, states[k - 1]);
      states, texts := WalkOn(Tree(Plainly(cmds)), false, states, texts, t, w);
    }
  }

  function Tested(f: string -> Option<string>, line: string): string {
    match f(line)
    case Some(p) => p + "\n"
    case None => line + "\n" + (line + "\n")
  }

  /** `sed 's///;t;p'` on any input: lines the substitution changes are written once, changed, and the others twice. */
  lemma TestScripts(f: string -> Option<string>, lines: seq<string>)
    ensures BlockOk(Tree(Plainly([CSubstitute(Some(f), false), CTest(""), CPrint])))
    ensures var b := Tree(Plainly([CSubstitute(Some(f), false), CTest(""), CPrint]));
      var x := Passes(b, Script(Prime(lines, map[]), "", NextLineFirst, false), false, |lines| + 1);
      x.over && x.out == Concat(TestedTexts(f, lines))
  {
    hide Tree, Plainly, BlockOk, WalksAt, Passes, Concat, Prime, Ahead, Tested, TestedTexts;
    var cmds := [CSubstitute(Some(f), false), CTest(""), CPrint];
    var states, texts := TestedWalk(f, lines, |lines|);
    AtEnd(states[|lines|], lines);
    SameTested(f, lines, texts);
    WalkedThrough(Tree(Plainly(cmds)), false, states, texts);
    assert Concat(texts) + "" == Concat(texts);
  }

  function TestedTexts(f: string -> Option<string>, lines: seq<string>): seq<string> {
    seq(|lines|, i requires 0 <= i < |lines| => Tested(f, lines[i]))
  }

  lemma SameTested(f: string -> Option<string>, lines: seq<string>, texts: seq<string>)
    requires |texts| == |lines| && forall i :: 0 <= i < |lines| ==> texts[i] == Tested(f, lines[i])
    ensures texts == TestedTexts(f, lines)
  {
    hide Tested;
  }

  /** `q` under a line number writes its line and ends the run. */
  lemma QuitAt(n: int, lines: seq<string>, i: nat, out: string)
    requires i < |lines|
    ensures BlockOk(Tree(OneAddress(Number(n), false, CQuit)))
    ensures var x := Pass(Tree(OneAddress(Number(n), false, CQuit)), Script(Reading(lines, i), out, NextLineFirst, false), false);
      if n == i + 1 then x.over && x.out == out + (lines[i] + "\n")
      else x == Script(Reading(lines, i + 1), out + (lines[i] + "\n"), NextLineFirst, false)
  {
    hide Reading, Tree, OneAddress, Pass, BlockOk;
    OneAddressOk(Number(n), false, CQuit);
    ReadingIs(lines, i + 1);
    var s := Reading(lines, i + 1);
    if n == i + 1 {
      AdvanceOne(lines, i);
      QuitBlock(n, lines, i);
      StopsThere(Tree(OneAddress(Number(n), false, CQuit)), false, Reading(lines, i), s, out, lines[i] + "\n");
    } else {
      OneAddressPass(Number(n), false, CQuit, false, lines, i, out);
      assert "" + (lines[i] + "\n") == lines[i] + "\n";
    }
  }

  lemma QuitBlock(n: int, lines: seq<string>, i: nat)
    requires i < |lines| && n == i + 1
    ensures BlockOk(Tree(OneAddress(Number(n), false, CQuit)))
    ensures var r := EvalBlock(Tree(OneAddress(Number(n), false, CQuit)), 1, Reading(lines, i + 1), false);
      r.exit == Over && r.out == lines[i] + "\n"
  {
    OneAddressTree(Number(n), false, CQuit);
    PicksIs(Number(n), lines, i);
    ReadingIs(lines, i + 1);
    hide Reading, Tree, OneAddress, IsMet, NextLine;
    var s, body := Reading(lines, i + 1), Cons(Do(CQuit), Nil);
    OneNode(Guard(LineNo(n), false, body), 1, s, false);
    OneNode(Do(CQuit), 2, s, false);
  }

  /** The lines up to `k`, each with its newline. */
  function Head(lines: seq<string>, k: nat): string
    requires k <= |lines|
  {
    if k == 0 then "" else Head(lines, k - 1) + (lines[k - 1] + "\n")
  }

  lemma {:induction false} BeforeQuit(n: int, lines: seq<string>, k: nat)
    requires k <= |lines| && (n > k || n <= 0)
    ensures BlockOk(Tree(OneAddress(Number(n), false, CQuit)))
    ensures Passes(Tree(OneAddress(Number(n), false, CQuit)), Script(Prime(lines, map[]), "", NextLineFirst, false), false, k)
         == Script(Reading(lines, k), Head(lines, k), NextLineFirst, false)
    decreases k
  {
    hide Pass, Tree, OneAddress, BlockOk, NextLine;
    OneAddressOk(Number(n), false, CQuit);
    if k > 0 {
      BeforeQuit(n, lines, k - 1);
      PassesLast(Tree(OneAddress(Number(n), false, CQuit)), Script(Prime(lines, map[]), "", NextLineFirst, false), false, k - 1);
      QuitAt(n, lines, k - 1, Head(lines, k - 1));
    }
  }

  /** `sed 'n q'` on any input writes the first `n` lines, or all of them if there are fewer or `n` is no line number. */
  lemma QuitScripts(n: int, lines: seq<string>)
    ensures BlockOk(Tree(OneAddress(Number(n), false, CQuit)))
    ensures var k := if 1 <= n <= |lines| then n else |lines| + 1;
      var x := Passes(Tree(OneAddress(Number(n), false, CQuit)), Script(Prime(lines, map[]), "", NextLineFirst, false), false, k);
      x.over && x.out == Head(lines, if 1 <= n <= |lines| then n else |lines|)
  {
    hide Tree, OneAddress, BlockOk, Passes, Head, Prime;
    OneAddressOk(Number(n), false, CQuit);
    if 1 <= n <= |lines| {
      QuitsAt(n, lines);
    } else {
      BeforeQuit(n, lines, |lines|);
      AtLastLine(Tree(OneAddress(Number(n), false, CQuit)), lines, Head(lines, |lines|), false);
    }
  }

  lemma QuitsAt(n: nat, lines: seq<string>)
    requires 1 <= n <= |lines|
    ensures BlockOk(Tree(OneAddress(Number(n), false, CQuit)))
    ensures var x := Passes(Tree(OneAddress(Number(n), false, CQuit)), Script(Prime(lines, map[]), "", NextLineFirst, false), false, n);
      x.over && x.out == Head(lines, n)
  {
    hide Pass, Tree, OneAddress, BlockOk, Passes, Head, Prime, Reading;
    BeforeQuit(n, lines, n - 1);
    PassesLast(Tree(OneAddress(Number(n), false, CQuit)), Script(Prime(lines, map[]), "", NextLineFirst, false), false, n - 1);
    QuitAt(n, lines, n - 1, Head(lines, n - 1));
    HeadMore(lines, n);
  }

  lemma HeadMore(lines: seq<string>, k: nat)
    requires 0 < k <= |lines|
    ensures Head(lines, k) == Head(lines, k - 1) + (lines[k - 1] + "\n")
  {
  }
}
