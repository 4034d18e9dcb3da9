/** What two-address guards select over a whole input, stated without the guard's on/off state. */
module SedRanges {
  import opened Basics
  import opened SedMachine
  import opened SedScript
  import opened SedSyntax
  import opened SedCompile

  // ---- intervals, declaratively: on[i] and off[i] say whether line i meets the start and end address ----

  /** An interval begins at line `i`: the start address is met and no earlier interval still covers the line. */
  ghost predicate Opens(on: seq<bool>, off: seq<bool>, i: nat)
    requires i < |on| == |off|
    decreases i, 1
  {
    on[i] && !Covered(on, off, i)
  }

  /** Some interval that began before line `i` has not met its end before line `i`. */
  ghost predicate Covered(on: seq<bool>, off: seq<bool>, i: nat)
    requires i <= |on| == |off|
    decreases i, 0
  {
    exists a: nat :: a < i && Opens(on, off, a) && NoEnd(off, a, i)
  }

  /** No line strictly between `a` and `b` meets the end address. */
  ghost predicate NoEnd(off: seq<bool>, a: nat, b: nat)
    requires b <= |off|
  {
    forall j :: a < j < b ==> !off[j]
  }

  ghost predicate Selected(on: seq<bool>, off: seq<bool>, i: nat)
    requires i < |on| == |off|
  {
    Opens(on, off, i) || Covered(on, off, i)
  }

  /** Line `i` is the last line of an interval that began before it. */
  ghost predicate Closes(on: seq<bool>, off: seq<bool>, i: nat)
    requires i < |on| == |off|
  {
    Covered(on, off, i) && off[i]
  }

  lemma {:induction false} CoveredNext(on: seq<bool>, off: seq<bool>, i: nat)
    requires i < |on| == |off|
    ensures Covered(on, off, i + 1) <==> Opens(on, off, i) || (Covered(on, off, i) && !off[i])
  {
    if Opens(on, off, i) {
      assert NoEnd(off, i, i + 1);
    }
    if Covered(on, off, i) && !off[i] {
      var a: nat :| a < i && Opens(on, off, a) && NoEnd(off, a, i);
      assert NoEnd(off, a, i + 1);
    }
    if Covered(on, off, i + 1) {
      var a: nat :| a < i + 1 && Opens(on, off, a) && NoEnd(off, a, i + 1);
      if a < i {
        assert NoEnd(off, a, i);
      }
    }
  }

  /** An interval with an end closes on its first end line and on no other of its lines. */
  lemma ClosesOnce(on: seq<bool>, off: seq<bool>, a: nat, b: nat, i: nat)
    requires a < b < |on| == |off| && Opens(on, off, a) && off[b] && NoEnd(off, a, b) && a <= i <= b
    ensures Closes(on, off, i) <==> i == b
  {
    if i == b {
      assert Covered(on, off, b);
    }
  }

  /** An interval that never meets its end runs to the last line and closes nowhere. */
  lemma NeverCloses(on: seq<bool>, off: seq<bool>, a: nat, i: nat)
    requires a <= i < |on| == |off| && Opens(on, off, a) && NoEnd(off, a, |off|)
    ensures Selected(on, off, i) && !Closes(on, off, i)
  {
    if a < i {
      assert NoEnd(off, a, i);
    }
  }

  // ---- the guard, run once per line ----

  /** The guard's state after the lines before line `i`, from a fresh engine. */
  function After(start: Cond, end: Cond, lines: seq<State>, i: nat): Range
    requires i <= |lines|
  {
    if i == 0 then Range(false, 0)
    else RunRange(start, end, After(start, end, lines, i - 1), lines[i - 1]).0
  }

  ghost predicate Numbered(lines: seq<State>) {
    forall i :: 0 <= i < |lines| ==> lines[i].lineno == i + 1
  }

  ghost function Meets(c: Cond, lines: seq<State>): seq<bool> {
    seq(|lines|, i requires 0 <= i < |lines| => IsMet(c, lines[i]))
  }

  /** The on/off state between two lines says exactly whether the next line is covered. */
  ghost predicate Tracks(r: Range, i: nat, covered: bool) {
    if covered then r == Range(true, 0) else r == Range(false, 0) || (r.isOn && r.offFrom == i && i > 0)
  }

  lemma {:induction false} GuardTracks(start: Cond, end: Cond, lines: seq<State>, i: nat)
    requires i <= |lines| && Numbered(lines)
    ensures Tracks(After(start, end, lines, i), i, Covered(Meets(start, lines), Meets(end, lines), i))
    decreases i
  {
    if i > 0 {
      GuardTracks(start, end, lines, i - 1);
      CoveredNext(Meets(start, lines), Meets(end, lines), i - 1);
    }
  }

  /** A guard run once per line selects exactly the declarative intervals, and its last-line test marks their ends. */
  lemma GuardSelects(start: Cond, end: Cond, lines: seq<State>, i: nat)
    requires i < |lines| && Numbered(lines)
    ensures var on, off := Meets(start, lines), Meets(end, lines);
            var (r, selected) := RunRange(start, end, After(start, end, lines, i), lines[i]);
            && (selected <==> Selected(on, off, i))
            && (selected && IsLastLine(r, lines[i]) <==> Closes(on, off, i))
  {
    GuardTracks(start, end, lines, i);
  }

  // ---- the lines a machine sees, and `$` ----

  /** The machine after reading `k` lines, if nothing else happens to it. */
  function Reading(lines: seq<string>, k: nat): State {
    if k == 0 then Prime(lines, map[]) else NextLine(Reading(lines, k - 1))
  }

  lemma {:induction false} ReadingIs(lines: seq<string>, k: nat)
    requires k <= |lines|
    ensures var s := Reading(lines, k);
            && s.lineno == k && s.appl == None && (k > 0 ==> s.pat == lines[k - 1])
            && (k < |lines| ==> !s.lastl && s.nxtl == lines[k] && s.input == lines[k + 1..])
            && (k == |lines| ==> s.lastl)
    decreases k
  {
    if k > 0 {
      ReadingIs(lines, k - 1);
    }
  }

  /** How far a machine has read: the line ahead and the rest are the lines after the current one. */
  ghost predicate ReadSoFar(s: State, lines: seq<string>) {
    && 0 <= s.lineno <= |lines| && (s.lastl <==> s.lineno == |lines|)
    && (s.lineno < |lines| ==> s.nxtl == lines[s.lineno] && s.input == lines[s.lineno + 1..])
  }

  lemma PrimeReads(lines: seq<string>, ranges: map<int, Range>)
    ensures ReadSoFar(Prime(lines, ranges), lines)
  {
  }

  lemma NextLineReads(s: State, lines: seq<string>)
    requires ReadSoFar(s, lines) && !s.lastl
    ensures ReadSoFar(NextLine(s), lines)
  {
  }

  lemma StepReads(i: Instr, ip: int, s: State, lines: seq<string>)
    requires ReadSoFar(s, lines)
    ensures ReadSoFar(Step(i, ip, s).s, lines)
  {
    hide NextLine, RunRange, FirstLine, LineNumber, IsMet, ReadSoFar;
    if !s.lastl {
      NextLineReads(s, lines);
    }
    var t := Step(i, ip, s).s;
    if i.FillAppend? && s.appl.None? && !s.lastl {
      SameLines(NextLine(s), t, lines);
    } else if !(i.Fill? && s.appl.None? && !s.lastl) {
      SameLines(s, t, lines);
    }
  }

  lemma SameLines(s: State, t: State, lines: seq<string>)
    requires ReadSoFar(s, lines)
    requires t.lineno == s.lineno && t.lastl == s.lastl && t.nxtl == s.nxtl && t.input == s.input
    ensures ReadSoFar(t, lines)
  {
  }

  lemma {:induction false} RunReads(p: seq<Instr>, c: Conf, lines: seq<string>, n: nat)
    requires ReadSoFar(c.s, lines)
    ensures ReadSoFar(Iter(p, c, n).s, lines)
    decreases n
  {
    hide Step, ReadSoFar;
    if n > 0 {
      if c.phase == Going && 0 <= c.ip < |p| {
        StepReads(p[c.ip], c.ip, c.s, lines);
      }
      RunReads(p, StepConf(p, c), lines, n - 1);
    }
  }

  /** In every state of every run of every program, `$` is met exactly when the current line is the last one. */
  lemma DollarIsLast(p: seq<Instr>, lines: seq<string>, ranges: map<int, Range>, n: nat)
    ensures var s := Iter(p, Conf(0, Prime(lines, ranges), "", Going), n).s;
      0 <= s.lineno <= |lines| && (IsMet(LastLine, s) <==> s.lineno == |lines|)
  {
    hide Iter, Prime;
    PrimeReads(lines, ranges);
    RunReads(p, Conf(0, Prime(lines, ranges), "", Going), lines, n);
  }

  // ---- whole scripts of one guard ----

  lemma {:induction false} PassesLast(b: Block, x: Script, quiet: bool, n: nat)
    requires BlockOk(b)
    ensures Passes(b, x, quiet, n + 1) == Pass(b, Passes(b, x, quiet, n), quiet)
    decreases n
  {
    hide Pass;
    if n > 0 {
      PassesLast(b, Pass(b, x, quiet), quiet, n - 1);
    }
  }

  ghost function LineStates(lines: seq<string>): seq<State> {
    seq(|lines|, i requires 0 <= i < |lines| => Reading(lines, i + 1))
  }

  lemma LineStatesNumbered(lines: seq<string>)
    ensures Numbered(LineStates(lines))
  {
    forall i | 0 <= i < |lines| ensures LineStates(lines)[i].lineno == i + 1 {
      ReadingIs(lines, i + 1);
    }
  }

  /** Which lines an address picks: the one with the number, the last one, or those that match. */
  predicate Picks(a: Address, lines: seq<string>, i: nat)
    requires i < |lines|
  {
    match a
    case Number(n) => n == i + 1
    case Dollar => i + 1 == |lines|
    case Pattern(m) => m(lines[i])
  }

  function Picked(a: Address, lines: seq<string>): seq<bool> {
    seq(|lines|, i requires 0 <= i < |lines| => Picks(a, lines, i))
  }

  lemma PicksIs(a: Address, lines: seq<string>, i: nat)
    requires i < |lines|
    ensures IsMet(CondOf(a), Reading(lines, i + 1)) <==> Picks(a, lines, i)
  {
    ReadingIs(lines, i + 1);
  }

  lemma PickedIs(a: Address, lines: seq<string>)
    ensures Meets(CondOf(a), LineStates(lines)) == Picked(a, lines)
  {
    forall i | 0 <= i < |lines| ensures Meets(CondOf(a), LineStates(lines))[i] == Picked(a, lines)[i] {
      PicksIs(a, lines, i);
    }
  }

  /** The lines kept by a choice, each with its newline. */
  ghost function Chosen(pick: seq<bool>, lines: seq<string>, n: nat): string
    requires n <= |lines| == |pick|
  {
    if n == 0 then "" else Chosen(pick, lines, n - 1) + if pick[n - 1] then lines[n - 1] + "\n" else ""
  }

  /** The lines an address picks, or with `!` the others. */
  function Governed(a: Address, bang: bool, lines: seq<string>): seq<bool> {
    seq(|lines|, i requires 0 <= i < |lines| => Picks(a, lines, i) != bang)
  }

  /** A script of one command under one address. */
  function OneAddress(a: Address, bang: bool, cmd: Command): (l: Lines)
    requires ArgumentsFit(cmd)
    ensures Fits(l)
  {
    assert BodyFits(One(cmd)) && Fits(Empty);
    assert ItemFits(Addressed(a, bang, One(cmd)));
    More(Addressed(a, bang, One(cmd)), Empty)
  }

  lemma OneAddressTree(a: Address, bang: bool, cmd: Command)
    requires ArgumentsFit(cmd)
    ensures Tree(OneAddress(a, bang, cmd)) == Cons(Guard(CondOf(a), bang, Cons(Do(cmd), Nil)), Nil)
    ensures BlockOk(Tree(OneAddress(a, bang, cmd))) && BlockOk(Cons(Do(cmd), Nil))
  {
    assert Tree(Empty) == Nil && BodyTree(One(cmd)) == Cons(Do(cmd), Nil);
    assert BlockOk(Nil) && NodeOk(Do(cmd));
    assert BlockOk(Cons(Do(cmd), Nil));
    assert NodeOk(Guard(CondOf(a), bang, Cons(Do(cmd), Nil)));
  }

  /** One pass of a one-address script over a line. */
  lemma OneAddressPass(a: Address, bang: bool, cmd: Command, quiet: bool, lines: seq<string>, n: nat, out: string)
    requires ArgumentsFit(cmd) && n < |lines|
    ensures BlockOk(Tree(OneAddress(a, bang, cmd)))
    ensures var s := Reading(lines, n + 1);
      var r := if Picks(a, lines, n) != bang then EvalCommand(cmd, s, quiet) else Result(s, "", Through);
      r.s == s && r.exit in {Through, NewCycle} ==>
        Pass(Tree(OneAddress(a, bang, cmd)), Script(Reading(lines, n), out, NextLineFirst, false), quiet)
          == Script(s, out + (r.out + if r.exit == Through then AutoPrint(s, quiet) else ""), NextLineFirst, false)
  {
    hide EvalCommand, AutoPrint, Reading, IsMet, Picks, CondOf, NextLine, OneAddress, Tree;
    OneAddressTree(a, bang, cmd);
    var s, body := Reading(lines, n + 1), Cons(Do(cmd), Nil);
    AdvanceOne(lines, n);
    PicksIs(a, lines, n);
    OneNode(Guard(CondOf(a), bang, body), 1, s, quiet);
    OneNode(Do(cmd), 2, s, quiet);
    var r := if Picks(a, lines, n) != bang then EvalCommand(cmd, s, quiet) else Result(s, "", Through);
    assert EvalBlock(Tree(OneAddress(a, bang, cmd)), 1, s, quiet) == r;
    assert out + "" + r.out == out + r.out && r.out + "" == r.out;
    assert out + "" + (r.out + AutoPrint(s, quiet)) == out + (r.out + AutoPrint(s, quiet));
  }

  lemma AdvanceOne(lines: seq<string>, n: nat)
    requires n < |lines|
    ensures Advance(Reading(lines, n)) == Result(Reading(lines, n + 1), "", Through)
  {
    ReadingIs(lines, n);
  }

  /** A pass over line `i` copies the line or leaves it out, as the choice says, and ends the cycle. */
  ghost predicate CopiesLine(b: Block, quiet: bool, lines: seq<string>, pick: seq<bool>, i: nat)
    requires BlockOk(b) && i < |lines| == |pick|
  {
    forall out :: Pass(b, Script(Reading(lines, i), out, NextLineFirst, false), quiet)
      == Script(Reading(lines, i + 1), out + if pick[i] then lines[i] + "\n" else "", NextLineFirst, false)
  }

  /** Line by line, a script that copies chosen lines writes exactly those. */
  lemma {:induction false} LinesCopied(b: Block, quiet: bool, lines: seq<string>, pick: seq<bool>, n: nat)
    requires BlockOk(b) && n <= |lines| == |pick| && forall i :: 0 <= i < |lines| ==> CopiesLine(b, quiet, lines, pick, i)
    ensures Passes(b, Script(Prime(lines, map[]), "", NextLineFirst, false), quiet, n)
         == Script(Reading(lines, n), Chosen(pick, lines, n), NextLineFirst, false)
    decreases n
  {
    hide Pass, BlockOk, NextLine, Prime;
    if n > 0 {
      LinesCopied(b, quiet, lines, pick, n - 1);
      PassesLast(b, Script(Prime(lines, map[]), "", NextLineFirst, false), quiet, n - 1);
      assert CopiesLine(b, quiet, lines, pick, n - 1);
    }
  }

  /** `-n` and `p` under an address copies the governed lines. */
  lemma PrintCopies(a: Address, bang: bool, lines: seq<string>, i: nat)
    requires i < |lines|
    ensures BlockOk(Tree(OneAddress(a, bang, CPrint)))
    ensures CopiesLine(Tree(OneAddress(a, bang, CPrint)), true, lines, Governed(a, bang, lines), i)
  {
    hide Pass, Tree, BlockOk, Reading, Picks, OneAddress;
    OneAddressOk(a, bang, CPrint);
    ReadingIs(lines, i + 1);
    forall out ensures Pass(Tree(OneAddress(a, bang, CPrint)), Script(Reading(lines, i), out, NextLineFirst, false), true)
      == Script(Reading(lines, i + 1), out + if Governed(a, bang, lines)[i] then lines[i] + "\n" else "", NextLineFirst, false)
    {
      OneAddressPass(a, bang, CPrint, true, lines, i, out);
      assert lines[i] + "\n" + "" == lines[i] + "\n";
    }
  }

  /** `d` under an address, printing, copies the other lines. */
  lemma DeleteCopies(a: Address, bang: bool, lines: seq<string>, i: nat)
    requires i < |lines|
    ensures BlockOk(Tree(OneAddress(a, bang, CDelete)))
    ensures CopiesLine(Tree(OneAddress(a, bang, CDelete)), false, lines, Governed(a, !bang, lines), i)
  {
    hide Pass, Tree, BlockOk, Reading, Picks, OneAddress;
    OneAddressOk(a, bang, CDelete);
    ReadingIs(lines, i + 1);
    forall out ensures Pass(Tree(OneAddress(a, bang, CDelete)), Script(Reading(lines, i), out, NextLineFirst, false), false)
      == Script(Reading(lines, i + 1), out + if Governed(a, !bang, lines)[i] then lines[i] + "\n" else "", NextLineFirst, false)
    {
      OneAddressPass(a, bang, CDelete, false, lines, i, out);
      assert "" + (lines[i] + "\n") == lines[i] + "\n";
    }
  }

  lemma OneAddressOk(a: Address, bang: bool, cmd: Command)
    requires ArgumentsFit(cmd)
    ensures BlockOk(Tree(OneAddress(a, bang, cmd)))
  {
    hide OneAddress;
    OneAddressTree(a, bang, cmd);
  }

  /**
    As written and on any input: `sed -n 'a p'` prints exactly the lines the address picks and `sed 'a d'` exactly the
    others; with `!` it is the other way round.
  */
  lemma OneAddressScripts(a: Address, bang: bool, lines: seq<string>)
    ensures ParseBlock(Tokens(OneAddress(a, bang, CPrint)), true) == Ok(Tree(OneAddress(a, bang, CPrint)), [])
    ensures ParseBlock(Tokens(OneAddress(a, bang, CDelete)), true) == Ok(Tree(OneAddress(a, bang, CDelete)), [])
    ensures BlockOk(Tree(OneAddress(a, bang, CPrint))) && BlockOk(Tree(OneAddress(a, bang, CDelete)))
    ensures var x := Script(Prime(lines, map[]), "", NextLineFirst, false);
      var printed := Passes(Tree(OneAddress(a, bang, CPrint)), x, true, |lines| + 1);
      var deleted := Passes(Tree(OneAddress(a, bang, CDelete)), x, false, |lines| + 1);
      && printed.over && printed.out == Chosen(Governed(a, bang, lines), lines, |lines|)
      && deleted.over && deleted.out == Chosen(Governed(a, !bang, lines), lines, |lines|)
  {
    hide Tree, Passes, Chosen, ParseBlock, OneAddress, Tokens, Fits, BlockOk, Prime, Governed;
    ScriptReads(OneAddress(a, bang, CPrint));
    ScriptReads(OneAddress(a, bang, CDelete));
    PrintScripts(a, bang, lines);
    DeleteScripts(a, bang, lines);
  }

  lemma PrintScripts(a: Address, bang: bool, lines: seq<string>)
    ensures BlockOk(Tree(OneAddress(a, bang, CPrint)))
    ensures var x := Passes(Tree(OneAddress(a, bang, CPrint)), Script(Prime(lines, map[]), "", NextLineFirst, false), true, |lines| + 1);
      x.over && x.out == Chosen(Governed(a, bang, lines), lines, |lines|)
  {
    hide Tree, Passes, Chosen, OneAddress, BlockOk, Prime, CopiesLine, Picks;
    OneAddressOk(a, bang, CPrint);
    forall i: nat | i < |lines| ensures CopiesLine(Tree(OneAddress(a, bang, CPrint)), true, lines, Governed(a, bang, lines), i) {
      PrintCopies(a, bang, lines, i);
    }
    ChosenWritten(Tree(OneAddress(a, bang, CPrint)), true, lines, Governed(a, bang, lines));
  }

  lemma DeleteScripts(a: Address, bang: bool, lines: seq<string>)
    ensures BlockOk(Tree(OneAddress(a, bang, CDelete)))
    ensures var x := Passes(Tree(OneAddress(a, bang, CDelete)), Script(Prime(lines, map[]), "", NextLineFirst, false), false, |lines| + 1);
      x.over && x.out == Chosen(Governed(a, !bang, lines), lines, |lines|)
  {
    hide Tree, Passes, Chosen, OneAddress, BlockOk, Prime, CopiesLine, Picks;
    OneAddressOk(a, bang, CDelete);
    var pick := Governed(a, !bang, lines);
    forall i: nat | i < |lines| ensures CopiesLine(Tree(OneAddress(a, bang, CDelete)), false, lines, pick, i) {
      DeleteCopies(a, bang, lines, i);
    }
    ChosenWritten(Tree(OneAddress(a, bang, CDelete)), false, lines, pick);
  }

  lemma ChosenWritten(b: Block, quiet: bool, lines: seq<string>, pick: seq<bool>)
    requires BlockOk(b) && |lines| == |pick| && forall i :: 0 <= i < |lines| ==> CopiesLine(b, quiet, lines, pick, i)
    ensures var x := Passes(b, Script(Prime(lines, map[]), "", NextLineFirst, false), quiet, |lines| + 1);
      x.over && x.out == Chosen(pick, lines, |lines|)
  {
    hide Passes, Chosen, BlockOk, Prime, CopiesLine, Reading;
    LinesCopied(b, quiet, lines, pick, |lines|);
    AtLastLine(b, lines, Chosen(pick, lines, |lines|), quiet);
  }

  /** A run that stands at the last line ends with the next pass. */
  lemma AtLastLine(b: Block, lines: seq<string>, out: string, quiet: bool)
    requires BlockOk(b)
    requires Passes(b, Script(Prime(lines, map[]), "", NextLineFirst, false), quiet, |lines|)
          == Script(Reading(lines, |lines|), out, NextLineFirst, false)
    ensures var x := Passes(b, Script(Prime(lines, map[]), "", NextLineFirst, false), quiet, |lines| + 1); x.over && x.out == out
  {
    hide Passes, BlockOk, Prime, Reading, Pass;
    PassesLast(b, Script(Prime(lines, map[]), "", NextLineFirst, false), quiet, |lines|);
    NoLineLeft(b, lines, out, quiet);
  }

  lemma NoLineLeft(b: Block, lines: seq<string>, out: string, quiet: bool)
    requires BlockOk(b)
    ensures var x := Pass(b, Script(Reading(lines, |lines|), out, NextLineFirst, false), quiet); x.over && x.out == out
  {
    ReadingIs(lines, |lines|);
    assert out + "" == out;
  }

  /** `c1,c2p` and `c1,c2c\` as scripts. */
  function PrintScript(c1: Cond, c2: Cond): (b: Block)
    ensures BlockOk(b)
  {
    var body := Cons(Do(CPrint), Nil);
    assert BlockOk(body);
    Cons(RangeGuard(c1, c2, false, body), Nil)
  }

  function ChangeScript(c1: Cond, c2: Cond, text: string): (b: Block)
    ensures BlockOk(b)
  {
    Cons(RangeChange(c1, c2, text), Nil)
  }

  /** The lines of the intervals, in order. */
  ghost function PrintedLines(on: seq<bool>, off: seq<bool>, lines: seq<string>, n: nat): string
    requires n <= |lines| == |on| == |off|
  {
    if n == 0 then ""
    else PrintedLines(on, off, lines, n - 1) + if Selected(on, off, n - 1) then lines[n - 1] + "\n" else ""
  }

  /** The lines outside the intervals, with the text once at the end of each interval that ends. */
  ghost function ChangedLines(on: seq<bool>, off: seq<bool>, lines: seq<string>, text: string, n: nat): string
    requires n <= |lines| == |on| == |off|
  {
    if n == 0 then ""
    else
      ChangedLines(on, off, lines, text, n - 1)
      + if Closes(on, off, n - 1) then text else if Selected(on, off, n - 1) then "" else lines[n - 1] + "\n"
  }

  /** After `n` passes the run has read `n` lines, its guard is in the right state, and `out` is written. */
  ghost predicate Stands(x: Script, c1: Cond, c2: Cond, lines: seq<string>, n: nat, out: string)
    requires n <= |lines|
  {
    && !x.over && x.start == NextLineFirst && x.out == out
    && x.s == Reading(lines, n).(ranges := x.s.ranges)
    && RangeAt(x.s, 1) == After(c1, c2, LineStates(lines), n)
  }

  /** A guard does not look at the states of the guards. */
  lemma RangesUnseen(c1: Cond, c2: Cond, r: Range, s: State, t: State)
    requires s == t.(ranges := s.ranges)
    ensures RunRange(c1, c2, r, s) == RunRange(c1, c2, r, t) && IsLastLine(r, s) == IsLastLine(r, t)
  {
    assert IsMet(c1, s) == IsMet(c1, t) && IsMet(c2, s) == IsMet(c2, t);
  }

  /** Advancing a run that stands at line `n` reads the next line and nothing else. */
  lemma AdvanceReads(x: Script, c1: Cond, c2: Cond, lines: seq<string>, n: nat, out: string)
    requires n < |lines| && Stands(x, c1, c2, lines, n, out)
    ensures var f := Advance(x.s);
      && f.exit == Through && f.out == "" && f.s == Reading(lines, n + 1).(ranges := x.s.ranges) && f.s.pat == lines[n]
      && RangeAt(f.s, 1) == After(c1, c2, LineStates(lines), n)
  {
    hide After, LineStates;
    ReadingIs(lines, n);
    ReadingIs(lines, n + 1);
  }

  lemma AfterNext(c1: Cond, c2: Cond, lines: seq<string>, n: nat)
    requires n < |lines|
    ensures |LineStates(lines)| == |lines| && LineStates(lines)[n] == Reading(lines, n + 1)
    ensures After(c1, c2, LineStates(lines), n + 1)
         == RunRange(c1, c2, After(c1, c2, LineStates(lines), n), Reading(lines, n + 1)).0
  {
    hide Reading, RunRange;
  }

  /** One line through a one-guard script, up to the guard's decision. */
  lemma OneLine(x: Script, c1: Cond, c2: Cond, lines: seq<string>, n: nat, out: string)
    requires n < |lines| && Stands(x, c1, c2, lines, n, out)
    ensures var f := Advance(x.s);
            var on, off := Meets(c1, LineStates(lines)), Meets(c2, LineStates(lines));
            var (r, selected) := RunRange(c1, c2, RangeAt(f.s, 1), f.s);
            && f.exit == Through && f.out == "" && f.s == Reading(lines, n + 1).(ranges := x.s.ranges) && f.s.pat == lines[n]
            && r == After(c1, c2, LineStates(lines), n + 1)
            && (selected <==> Selected(on, off, n)) && (selected && IsLastLine(r, f.s) <==> Closes(on, off, n))
  {
    hide Selected, Closes, Reading, RunRange, After, LineStates, Meets, IsLastLine, Stands, Advance;
    AdvanceReads(x, c1, c2, lines, n, out);
    AfterNext(c1, c2, lines, n);
    LineStatesNumbered(lines);
    GuardSelects(c1, c2, LineStates(lines), n);
    var f := Advance(x.s);
    RangesUnseen(c1, c2, After(c1, c2, LineStates(lines), n), f.s, Reading(lines, n + 1));
    RangesUnseen(c1, c2, After(c1, c2, LineStates(lines), n + 1), f.s, Reading(lines, n + 1));
  }

  /** A script of one node means what the node means. */
  lemma OneNode(n: Node, at: int, s: State, quiet: bool)
    requires NodeOk(n) && BlockOk(Cons(n, Nil))
    ensures EvalBlock(Cons(n, Nil), at, s, quiet) == EvalNode(n, at, s, quiet)
  {
    var r := EvalNode(n, at, s, quiet);
    assert r.out + "" == r.out;
    assert EvalBlock(Nil, at + NodeSize(n, quiet), r.s, quiet) == Result(r.s, "", Through);
  }

  lemma PrintScriptIs(c1: Cond, c2: Cond, s: State)
    ensures var (r, selected) := RunRange(c1, c2, RangeAt(s, 1), s);
      EvalScript(PrintScript(c1, c2), NextLineFirst, s, true)
        == Result(s.(ranges := s.ranges[1 := r]), if selected then s.pat + "\n" else "", NewCycle)
  {
    hide RunRange;
    var (r, selected) := RunRange(c1, c2, RangeAt(s, 1), s);
    var t, body := s.(ranges := s.ranges[1 := r]), Cons(Do(CPrint), Nil);
    OneNode(RangeGuard(c1, c2, false, body), 1, s, true);
    OneNode(Do(CPrint), 2, t, true);
    assert EvalNode(Do(CPrint), 2, t, true) == Result(t, t.pat + "\n", Through);
    var text := if selected then t.pat + "\n" else "";
    assert text + "" == text;
  }

  lemma ChangeScriptIs(c1: Cond, c2: Cond, text: string, s: State)
    ensures var (r, selected) := RunRange(c1, c2, RangeAt(s, 1), s);
      EvalScript(ChangeScript(c1, c2, text), NextLineFirst, s, false)
        == Result(s.(ranges := s.ranges[1 := r]),
                  if !selected then s.pat + "\n" else if IsLastLine(r, s) then text else "", NewCycle)
  {
    hide RunRange;
    OneNode(RangeChange(c1, c2, text), 1, s, false);
    assert "" + (s.pat + "\n") == s.pat + "\n";
  }

  /** A pass over a line that ends the cycle, from a run that stands at line `n`. */
  lemma StandsNext(b: Block, x: Script, quiet: bool, c1: Cond, c2: Cond, lines: seq<string>, n: nat, out: string, text: string)
    requires BlockOk(b) && n < |lines| && Stands(x, c1, c2, lines, n, out)
    requires var f := Advance(x.s);
      var (r, _) := RunRange(c1, c2, RangeAt(f.s, 1), f.s);
      EvalScript(b, NextLineFirst, f.s, quiet) == Result(f.s.(ranges := f.s.ranges[1 := r]), text, NewCycle)
    ensures Stands(Pass(b, x, quiet), c1, c2, lines, n + 1, out + text)
  {
    hide Selected, Closes, Reading, RunRange, After, LineStates, Meets, EvalScript, Advance;
    OneLine(x, c1, c2, lines, n, out);
    assert out + "" + text == out + text;
  }

  lemma PrintPass(x: Script, c1: Cond, c2: Cond, lines: seq<string>, n: nat, out: string)
    requires n < |lines| && Stands(x, c1, c2, lines, n, out)
    ensures var on, off := Meets(c1, LineStates(lines)), Meets(c2, LineStates(lines));
            Stands(Pass(PrintScript(c1, c2), x, true), c1, c2, lines, n + 1,
                   out + if Selected(on, off, n) then lines[n] + "\n" else "")
  {
    hide Selected, Closes, Meets, After, Reading, RunRange, LineStates, Stands, Advance, EvalScript, PrintScript, Pass;
    OneLine(x, c1, c2, lines, n, out);
    var f := Advance(x.s);
    PrintScriptIs(c1, c2, f.s);
    var (r, selected) := RunRange(c1, c2, RangeAt(f.s, 1), f.s);
    StandsNext(PrintScript(c1, c2), x, true, c1, c2, lines, n, out, if selected then f.s.pat + "\n" else "");
  }

  lemma ChangePass(x: Script, c1: Cond, c2: Cond, lines: seq<string>, text: string, n: nat, out: string)
    requires n < |lines| && Stands(x, c1, c2, lines, n, out)
    ensures var on, off := Meets(c1, LineStates(lines)), Meets(c2, LineStates(lines));
            Stands(Pass(ChangeScript(c1, c2, text), x, false), c1, c2, lines, n + 1,
                   out + if Closes(on, off, n) then text else if Selected(on, off, n) then "" else lines[n] + "\n")
  {
    hide Selected, Closes, Meets, After, Reading, RunRange, LineStates, Stands, Advance, EvalScript, ChangeScript, Pass, IsLastLine;
    OneLine(x, c1, c2, lines, n, out);
    var f := Advance(x.s);
    ChangeScriptIs(c1, c2, text, f.s);
    var (r, selected) := RunRange(c1, c2, RangeAt(f.s, 1), f.s);
    StandsNext(ChangeScript(c1, c2, text), x, false, c1, c2, lines, n, out,
               if !selected then f.s.pat + "\n" else if IsLastLine(r, f.s) then text else "");
  }

  lemma {:induction false} PrintPasses(c1: Cond, c2: Cond, lines: seq<string>, n: nat)
    requires n <= |lines|
    ensures var on, off := Meets(c1, LineStates(lines)), Meets(c2, LineStates(lines));
            Stands(Passes(PrintScript(c1, c2), Script(Prime(lines, map[]), "", NextLineFirst, false), true, n), c1, c2, lines, n,
                   PrintedLines(on, off, lines, n))
    decreases n
  {
    hide Selected, Pass, RunRange, PrintScript;
    if n > 0 {
      PrintPasses(c1, c2, lines, n - 1);
      var x := Script(Prime(lines, map[]), "", NextLineFirst, false);
      PassesLast(PrintScript(c1, c2), x, true, n - 1);
      PrintPass(Passes(PrintScript(c1, c2), x, true, n - 1), c1, c2, lines, n - 1,
                PrintedLines(Meets(c1, LineStates(lines)), Meets(c2, LineStates(lines)), lines, n - 1));
    }
  }

  lemma {:induction false} ChangePasses(c1: Cond, c2: Cond, lines: seq<string>, text: string, n: nat)
    requires n <= |lines|
    ensures var on, off := Meets(c1, LineStates(lines)), Meets(c2, LineStates(lines));
            Stands(Passes(ChangeScript(c1, c2, text), Script(Prime(lines, map[]), "", NextLineFirst, false), false, n), c1, c2, lines, n,
                   ChangedLines(on, off, lines, text, n))
    decreases n
  {
    hide Selected, Closes, Pass, RunRange;
    if n > 0 {
      ChangePasses(c1, c2, lines, text, n - 1);
      var x := Script(Prime(lines, map[]), "", NextLineFirst, false);
      PassesLast(ChangeScript(c1, c2, text), x, false, n - 1);
      ChangePass(Passes(ChangeScript(c1, c2, text), x, false, n - 1), c1, c2, lines, text, n - 1,
                 ChangedLines(Meets(c1, LineStates(lines)), Meets(c2, LineStates(lines)), lines, text, n - 1));
    }
  }

  /** The pass that finds no line left ends the run and writes nothing. */
  lemma LastPass(b: Block, x: Script, quiet: bool, c1: Cond, c2: Cond, lines: seq<string>, out: string)
    requires BlockOk(b) && Stands(x, c1, c2, lines, |lines|, out)
    ensures Pass(b, x, quiet).over && Pass(b, x, quiet).out == out
  {
    ReadingIs(lines, |lines|);
    assert x.out + "" == out;
  }

  /** On any input, `sed -n 'c1,c2p'` writes exactly the lines of the intervals, and `c` each closed interval's text once. */
  lemma OneGuardScripts(c1: Cond, c2: Cond, lines: seq<string>, text: string)
    ensures var on, off := Meets(c1, LineStates(lines)), Meets(c2, LineStates(lines));
            var x := Script(Prime(lines, map[]), "", NextLineFirst, false);
            var printed := Passes(PrintScript(c1, c2), x, true, |lines| + 1);
            var changed := Passes(ChangeScript(c1, c2, text), x, false, |lines| + 1);
            && printed.over && printed.out == PrintedLines(on, off, lines, |lines|)
            && changed.over && changed.out == ChangedLines(on, off, lines, text, |lines|)
  {
    hide Pass, PrintScript, PrintedLines, ChangedLines, Passes;
    var n := |lines|;
    var on, off := Meets(c1, LineStates(lines)), Meets(c2, LineStates(lines));
    var x := Script(Prime(lines, map[]), "", NextLineFirst, false);
    PrintPasses(c1, c2, lines, n);
    PassesLast(PrintScript(c1, c2), x, true, n);
    LastPass(PrintScript(c1, c2), Passes(PrintScript(c1, c2), x, true, n), true, c1, c2, lines, PrintedLines(on, off, lines, n));
    ChangePasses(c1, c2, lines, text, n);
    PassesLast(ChangeScript(c1, c2, text), x, false, n);
    LastPass(ChangeScript(c1, c2, text), Passes(ChangeScript(c1, c2, text), x, false, n), false, c1, c2, lines,
             ChangedLines(on, off, lines, text, n));
  }

  lemma RangeTrees(a: Address, b: Address, text: string)
    ensures Tree(More(Ranged(a, b, false, One(CPrint)), Empty)) == PrintScript(CondOf(a), CondOf(b))
    ensures Tree(More(Ranged(a, b, false, Changed(text)), Empty)) == ChangeScript(CondOf(a), CondOf(b), text)
  {
    assert Tree(Empty) == Nil && BodyTree(One(CPrint)) == Cons(Do(CPrint), Nil);
    assert ItemTree(Ranged(a, b, false, One(CPrint))) == RangeGuard(CondOf(a), CondOf(b), false, Cons(Do(CPrint), Nil));
  }

  /** The same of the scripts as written, with the lines their addresses pick. */
  lemma WrittenRanges(a: Address, b: Address, lines: seq<string>, text: string)
    ensures Tree(More(Ranged(a, b, false, One(CPrint)), Empty)) == PrintScript(CondOf(a), CondOf(b))
    ensures Tree(More(Ranged(a, b, false, Changed(text)), Empty)) == ChangeScript(CondOf(a), CondOf(b), text)
    ensures var on, off := Picked(a, lines), Picked(b, lines);
            var x := Script(Prime(lines, map[]), "", NextLineFirst, false);
            var printed := Passes(PrintScript(CondOf(a), CondOf(b)), x, true, |lines| + 1);
            var changed := Passes(ChangeScript(CondOf(a), CondOf(b), text), x, false, |lines| + 1);
            && printed.over && printed.out == PrintedLines(on, off, lines, |lines|)
            && changed.over && changed.out == ChangedLines(on, off, lines, text, |lines|)
  {
    RangeTrees(a, b, text);
    hide Tree, PrintScript, ChangeScript, Passes, PrintedLines, ChangedLines, Prime, CondOf;
    PickedIs(a, lines);
    PickedIs(b, lines);
    OneGuardScripts(CondOf(a), CondOf(b), lines, text);
  }
}
