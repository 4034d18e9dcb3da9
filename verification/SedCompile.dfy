/** Compiler correctness: the flat code of a script runs as an evaluator of the tree says, branches to labels included. */
module SedCompile {
  import opened Basics
  import opened SedMachine
  import opened SedScript

  // ---- the structured meaning of a script ----

  /** How control leaves a command or block. */
  datatype Exit =
    | Through   // on to the next command
    | EndCycle  // to the end of the script (b and t without a label)
    | Jump(to: string)  // to the last place that has the label
    | NewCycle  // to the next input line, without the automatic print
    | Restart   // to the start of the script, without reading a line
    | Over      // the program ends

  datatype Result = Result(s: State, out: string, exit: Exit)

  /** Reads the next line after writing out pending text; at the end of input the program is over. */
  function Advance(s: State): Result {
    var flushed := if s.appl.Some? then s.appl.value else "";
    var t := s.(appl := None);
    if t.lastl then Result(t, flushed, Over) else Result(NextLine(t), flushed, Through)
  }

  function AutoPrint(s: State, quiet: bool): string {
    if quiet then "" else s.pat + "\n"
  }

  /** Where a branch goes: without a label, or to the name kept for that, to the end of the script. */
  function Leave(to: string): Exit {
    if Key(to) == END_OF_PROGRAM then EndCycle else Jump(to)
  }

  function EvalCommand(c: Command, s: State, quiet: bool): Result
    requires Accepted(c)
  {
    match c
    case CLineNo => Result(s, LineNumber(s.lineno) + "\n", Through)
    case CDeleteFirst =>
      var n := |FirstLine(s.pat)|;
      if n >= |s.pat| then Result(s.(pat := ""), "", NewCycle) else Result(s.(pat := s.pat[n + 1..]), "", Restart)
    case CGetAppend => Result(s.(pat := s.pat + "\n" + s.hold), "", Through)
    case CHoldAppend => Result(s.(hold := s.hold + "\n" + s.pat), "", Through)
    case CNextAppend =>
      var r := Advance(s);
      r.(s := r.s.(pat := s.pat + "\n" + r.s.pat))
    case CPrintFirst => Result(s, FirstLine(s.pat) + "\n", Through)
    case CAppend(text) => Result(s.(appl := Some(if s.appl.Some? then s.appl.value + text else text)), "", Through)
    case CBranch(to) => Result(s, "", Leave(to))
    case CTest(to) => if s.modified then Result(s.(modified := false), "", Leave(to)) else Result(s, "", Through)
    case CChange(text) => Result(s, text, NewCycle)
    case CDelete => Result(s, "", NewCycle)
    case CGet => Result(s.(pat := s.hold), "", Through)
    case CHold => Result(s.(hold := s.pat), "", Through)
    case CInsert(text) => Result(s, text, Through)
    case CNext =>
      var r := Advance(s);
      r.(out := AutoPrint(s, quiet) + r.out)
    case CPrint => Result(s, s.pat + "\n", Through)
    case CQuit => Result(s, AutoPrint(s, quiet), Over)
    case CReadFile(text) =>
      Result(s.(appl := Some(if s.appl.Some? then s.appl.value + text.value else text.value)), "", Through)
    case CSubstitute(f, printing) =>
      (match f.value(s.pat)
       case None => Result(s, "", Through)
       case Some(p) => Result(s.(pat := p, modified := true), if printing then p + "\n" else "", Through))
    case CWriteFile(file) => Result(s.(files := s.files + [(file, s.pat + "\n")]), "", Through)
    case CSwap => Result(s.(pat := s.hold, hold := s.pat), "", Through)
    case CTranslate(f) => Result(s.(pat := f.value(s.pat)), "", Through)
  }

  /** A branch without a label, or to the name kept for that, goes to the end of the script. */
  lemma BranchLeaves(to: string, s: State, quiet: bool)
    ensures EvalCommand(CBranch(to), s, quiet) == Result(s, "", if to == "" || to == "the end" then EndCycle else Jump(to))
  {
  }

  /** `P` and `D` on a pattern space of several lines: the first is printed, and what is behind it stays. */
  lemma FirstOfSeveral(s: State, line: string, rest: string, quiet: bool)
    requires '\n' !in line && s.pat == line + "\n" + rest
    ensures EvalCommand(CPrintFirst, s, quiet) == Result(s, line + "\n", Through)
    ensures EvalCommand(CDeleteFirst, s, quiet) == Result(s.(pat := rest), "", Restart)
  {
    FirstLineOf(line, rest);
    assert s.pat[|line| + 1..] == rest;
  }

  /** `P` and `D` on a pattern space of one line: it is printed, and nothing stays. */
  lemma FirstIsAll(s: State, quiet: bool)
    requires '\n' !in s.pat
    ensures EvalCommand(CPrintFirst, s, quiet) == Result(s, s.pat + "\n", Through)
    ensures EvalCommand(CDeleteFirst, s, quiet) == Result(s.(pat := ""), "", NewCycle)
  {
    FirstLineOf(s.pat, "");
  }

  /** `=` prints the digits of the line number. */
  lemma LineNumberPrinted(s: State, quiet: bool)
    requires s.lineno >= 0
    ensures var r := EvalCommand(CLineNo, s, quiet);
      exists digits :: Digits(digits) && Value(digits) == s.lineno && r == Result(s, digits + "\n", Through)
  {
    LineNumberReads(s.lineno);
  }

  /** A node; a two-address guard keeps its state under its position `at` in the script. */
  function EvalNode(n: Node, at: int, s: State, quiet: bool): Result
    requires NodeOk(n)
  {
    match n
    case Do(c) => EvalCommand(c, s, quiet)
    case Label(_) => Result(s, "", Through)
    case Guard(c, negated, body) =>
      if IsMet(c, s) != negated then EvalBlock(body, at + 1, s, quiet) else Result(s, "", Through)
    case RangeGuard(c1, c2, negated, body) =>
      var (r, on) := RunRange(c1, c2, RangeAt(s, at), s);
      var t := s.(ranges := s.ranges[at := r]);
      if on != negated then EvalBlock(body, at + 1, t, quiet) else Result(t, "", Through)
    case RangeChange(c1, c2, text) =>
      var (r, on) := RunRange(c1, c2, RangeAt(s, at), s);
      var t := s.(ranges := s.ranges[at := r]);
      if on then Result(t, if IsLastLine(r, t) then text else "", NewCycle) else Result(t, "", Through)
  }

  function EvalBlock(b: Block, at: int, s: State, quiet: bool): Result
    requires BlockOk(b)
  {
    match b
    case Nil => Result(s, "", Through)
    case Cons(n, t) =>
      var r := EvalNode(n, at, s, quiet);
      if r.exit != Through then r
      else
        var r' := EvalBlock(t, at + NodeSize(n, quiet), r.s, quiet);
        r'.(out := r.out + r'.out)
  }

  predicate NodeHas(n: Node, name: string) {
    match n
    case Label(l) => l == name
    case Guard(_, _, body) => BlockHas(body, name)
    case RangeGuard(_, _, _, body) => BlockHas(body, name)
    case _ => false
  }

  predicate BlockHas(b: Block, name: string) {
    b.Cons? && (NodeHas(b.head, name) || BlockHas(b.tail, name))
  }

  /** A node entered at the last place in it that has the label: guards around the place are not asked. */
  function ResumeNode(n: Node, name: string, at: int, s: State, quiet: bool): Result
    requires NodeOk(n) && NodeHas(n, name)
  {
    match n
    case Label(_) => Result(s, "", Through)
    case Guard(_, _, body) => ResumeBlock(body, name, at + 1, s, quiet)
    case RangeGuard(_, _, _, body) => ResumeBlock(body, name, at + 1, s, quiet)
  }

  function ResumeBlock(b: Block, name: string, at: int, s: State, quiet: bool): Result
    requires BlockOk(b) && BlockHas(b, name)
  {
    var at' := at + NodeSize(b.head, quiet);
    if BlockHas(b.tail, name) then ResumeBlock(b.tail, name, at', s, quiet)
    else
      var r := ResumeNode(b.head, name, at, s, quiet);
      if r.exit != Through then r
      else
        var r' := EvalBlock(b.tail, at', r.s, quiet);
        r'.(out := r.out + r'.out)
  }

  /** Where a pass over the script starts. */
  datatype Start =
    | NextLineFirst    // at the top, after reading a line
    | Top              // at the top
    | At(name: string) // at a label

  /** The commands of the script from the top, or from a label it has. */
  function EvalBody(b: Block, start: Start, s: State, quiet: bool): Result
    requires BlockOk(b)
  {
    if start.At? && BlockHas(b, start.name) then ResumeBlock(b, start.name, 1, s, quiet) else EvalBlock(b, 1, s, quiet)
  }

  /** The same with the automatic print at the end of the script. */
  function EvalScript(b: Block, start: Start, s: State, quiet: bool): Result
    requires BlockOk(b)
  {
    var r := EvalBody(b, start, s, quiet);
    if r.exit in {Through, EndCycle} then Result(r.s, r.out + AutoPrint(r.s, quiet), NewCycle) else r
  }

  /** Where a run stands between passes. */
  datatype Script = Script(s: State, out: string, start: Start, over: bool)

  function Starts(e: Exit): Start {
    match e
    case Restart => Top
    case Jump(to) => At(to)
    case _ => NextLineFirst
  }

  function Pass(b: Block, x: Script, quiet: bool): Script
    requires BlockOk(b)
  {
    if x.over then x
    else
      var f := if x.start.NextLineFirst? then Advance(x.s) else Result(x.s, "", Through);
      if f.exit == Over then Script(f.s, x.out + f.out, NextLineFirst, true)
      else
        var r := EvalScript(b, x.start, f.s, quiet);
        Script(r.s, x.out + f.out + r.out, Starts(r.exit), r.exit == Over)
  }

  function Passes(b: Block, x: Script, quiet: bool, n: nat): Script
    requires BlockOk(b)
    decreases n
  {
    if n == 0 then x else Passes(b, Pass(b, x, quiet), quiet, n - 1)
  }

  // ---- simulation ----

  /** The code of a block sits at address `at` of program `p`. */
  ghost predicate Placed(p: seq<Instr>, code: seq<Instr>, at: int) {
    0 <= at && at + |code| <= |p| && p[at..at + |code|] == code
  }

  lemma PlacedConcat(p: seq<Instr>, a: seq<Instr>, b: seq<Instr>, at: int)
    requires Placed(p, a + b, at)
    ensures Placed(p, a, at) && Placed(p, b, at + |a|)
  {
    assert p[at..at + |a|] == p[at..at + |a + b|][..|a|];
    assert p[at + |a|..at + |a| + |b|] == p[at..at + |a + b|][|a|..];
  }

  lemma PlacedAt(p: seq<Instr>, code: seq<Instr>, at: int, i: int)
    requires Placed(p, code, at) && 0 <= i < |code|
    ensures 0 <= at + i < |p| && p[at + i] == code[i]
  {
    assert p[at..at + |code|][i] == p[at + i];
  }

  /** The machine stands where the evaluator says control went, in the same state, with the same text written. */
  ghost predicate Lands(c: Conf, r: Result, out: string, next: int, env: map<string, int>) {
    && c.s == r.s && c.out == out + r.out
    && match r.exit
       case Through => c.phase == Going && c.ip == next
       case EndCycle => c.phase == Going && END_OF_PROGRAM in env && c.ip == env[END_OF_PROGRAM]
       case Jump(to) => c.phase == Going && to != END_OF_PROGRAM && to in env && c.ip == env[to]
       case NewCycle => c.phase == Going && c.ip == 0
       case Restart => c.phase == Going && c.ip == 1
       case Over => c.phase == Halted
  }

  lemma OneStep(p: seq<Instr>, c: Conf)
    ensures Iter(p, c, 1) == StepConf(p, c)
  {
  }

  /** The fill instruction, its flush step included, does what `Advance` says. */
  lemma FillRuns(p: seq<Instr>, at: int, s: State, out: string, env: map<string, int>) returns (k: nat)
    requires 0 <= at < |p| && p[at] == Fill
    ensures k >= 1 && Lands(Iter(p, Conf(at, s, out, Going), k), Advance(s), out, at + 1, env)
  {
    var c := Conf(at, s, out, Going);
    OneStep(p, c);
    if s.appl.Some? {
      var c' := StepConf(p, c);
      OneStep(p, c');
      IterAdd(p, c, 1, 1);
      assert out + s.appl.value + "" == out + s.appl.value;
      k := 2;
    } else {
      assert out + "" == out;
      k := 1;
    }
  }

  lemma FillAppendRuns(p: seq<Instr>, at: int, s: State, out: string, env: map<string, int>) returns (k: nat)
    requires 0 <= at < |p| && p[at] == FillAppend
    ensures k >= 1 && Lands(Iter(p, Conf(at, s, out, Going), k), EvalCommand(CNextAppend, s, true), out, at + 1, env)
  {
    var c := Conf(at, s, out, Going);
    OneStep(p, c);
    if s.appl.Some? {
      var c' := StepConf(p, c);
      OneStep(p, c');
      IterAdd(p, c, 1, 1);
      assert out + s.appl.value + "" == out + s.appl.value;
      k := 2;
    } else {
      assert out + "" == out;
      k := 1;
    }
  }

  /** A stretch that falls through, followed by another: the outputs join and the second decides the exit. */
  lemma Sequenced(p: seq<Instr>, c: Conf, k1: nat, r1: Result, mid: int, k2: nat, r2: Result, out: string, next: int, env: map<string, int>)
    requires Lands(Iter(p, c, k1), r1, out, mid, env) && r1.exit == Through
    requires Lands(Iter(p, Conf(mid, r1.s, out + r1.out, Going), k2), r2, out + r1.out, next, env)
    ensures Lands(Iter(p, c, k1 + k2), r2.(out := r1.out + r2.out), out, next, env)
  {
    IterAdd(p, c, k1, k2);
    assert (out + r1.out) + r2.out == out + (r1.out + r2.out);
  }

  lemma PrintRuns(p: seq<Instr>, at: int, s: State, out: string, env: map<string, int>)
    requires 0 <= at < |p| && p[at] == Print
    ensures Lands(Iter(p, Conf(at, s, out, Going), 1), Result(s, s.pat + "\n", Through), out, at + 1, env)
  {
    OneStep(p, Conf(at, s, out, Going));
  }

  /** Two-instruction commands in a printing engine: print, then fill or quit. */
  lemma PrintedRuns(c: Command, p: seq<Instr>, at: int, s: State, out: string, env: map<string, int>) returns (k: nat)
    requires (c == CNext || c == CQuit) && Placed(p, CommandCode(c, false, env), at)
    ensures k >= 1 && Lands(Iter(p, Conf(at, s, out, Going), k), EvalCommand(c, s, false), out, at + 2, env)
  {
    hide Iter, StepConf;
    PlacedAt(p, CommandCode(c, false, env), at, 0);
    PlacedAt(p, CommandCode(c, false, env), at, 1);
    var printed := Result(s, s.pat + "\n", Through);
    PrintRuns(p, at, s, out, env);
    if c == CNext {
      k := FillRuns(p, at + 1, s, out + printed.out, env);
      Sequenced(p, Conf(at, s, out, Going), 1, printed, at + 1, k, Advance(s), out, at + 2, env);
    } else {
      k := 1;
      QuitRuns(p, at + 1, s, out + printed.out, env);
      Sequenced(p, Conf(at, s, out, Going), 1, printed, at + 1, k, Result(s, "", Over), out, at + 2, env);
      assert printed.out + "" == printed.out;
    }
    k := k + 1;
  }

  lemma QuitRuns(p: seq<Instr>, at: int, s: State, out: string, env: map<string, int>)
    requires 0 <= at < |p| && p[at] == Quit
    ensures Lands(Iter(p, Conf(at, s, out, Going), 1), Result(s, "", Over), out, at + 1, env)
  {
    OneStep(p, Conf(at, s, out, Going));
    assert out + "" == out;
  }

  /** The next address after an exit that stays in the program. */
  function Onward(e: Exit, next: int, env: map<string, int>): int {
    match e
    case Through => next
    case EndCycle => Target(env, "")
    case Jump(to) => Target(env, to)
    case NewCycle => 0
    case Restart => 1
    case Over => next
  }

  /** One instruction has the effect the evaluator gives. */
  ghost predicate Effects(e: Effect, r: Result, next: int, env: map<string, int>) {
    && e.s == r.s && e.text == r.out && (e.status == Ended <==> r.exit == Over)
    && (r.exit != Over ==> e.ip == Onward(r.exit, next, env))
  }

  lemma BranchStep(c: Command, at: int, s: State, quiet: bool, env: map<string, int>)
    requires (c.CBranch? || c.CTest?) && Key(c.to) in env
    ensures Effects(Step(CommandCode(c, quiet, env)[0], at, s), EvalCommand(c, s, quiet), at + 1, env)
  {
  }

  /** The commands that rewrite the pattern space by a function. */
  lemma RewriteStep(c: Command, at: int, s: State, quiet: bool, env: map<string, int>)
    requires Accepted(c) && (c.CSubstitute? || c.CTranslate? || c.CDeleteFirst?)
    ensures Effects(Step(CommandCode(c, quiet, env)[0], at, s), EvalCommand(c, s, quiet), at + 1, env)
  {
    hide FirstLine;
  }

  /** The commands between the pattern space and the hold space. */
  lemma HoldStep(c: Command, at: int, s: State, quiet: bool, env: map<string, int>)
    requires c.CGet? || c.CGetAppend? || c.CHold? || c.CHoldAppend? || c.CSwap?
    ensures Effects(Step(CommandCode(c, quiet, env)[0], at, s), EvalCommand(c, s, quiet), at + 1, env)
  {
  }

  lemma SingleStep(c: Command, at: int, s: State, quiet: bool, env: map<string, int>)
    requires Accepted(c) && (c.CBranch? || c.CTest? ==> Key(c.to) in env)
    requires !c.CNext? && !c.CNextAppend? && (c.CQuit? ==> quiet)
    ensures Effects(Step(CommandCode(c, quiet, env)[0], at, s), EvalCommand(c, s, quiet), at + 1, env)
  {
    hide FirstLine, LineNumber, RunRange, IsMet, NextLine, Advance, Key, Target, Leave;
    if c.CBranch? || c.CTest? {
      BranchStep(c, at, s, quiet, env);
    } else if c.CSubstitute? || c.CTranslate? || c.CDeleteFirst? {
      RewriteStep(c, at, s, quiet, env);
    } else if c.CGet? || c.CGetAppend? || c.CHold? || c.CHoldAppend? || c.CSwap? {
      HoldStep(c, at, s, quiet, env);
    }
  }

  /** A branch leaves to a label that is known. */
  lemma ExitKnown(c: Command, s: State, quiet: bool, env: map<string, int>)
    requires Accepted(c) && (c.CBranch? || c.CTest? ==> Key(c.to) in env)
    ensures var e := EvalCommand(c, s, quiet).exit;
      && (e.EndCycle? ==> END_OF_PROGRAM in env)
      && (e.Jump? ==> e.to != "" && e.to != END_OF_PROGRAM && e.to in env)
  {
    hide FirstLine, LineNumber, NextLine;
  }

  lemma SingleRuns(c: Command, p: seq<Instr>, at: int, s: State, out: string, quiet: bool, env: map<string, int>)
    requires Accepted(c) && Placed(p, CommandCode(c, quiet, env), at)
    requires c.CBranch? || c.CTest? ==> Key(c.to) in env
    requires !c.CNext? && !c.CNextAppend? && (c.CQuit? ==> quiet)
    ensures Lands(Iter(p, Conf(at, s, out, Going), 1), EvalCommand(c, s, quiet), out, at + 1, env)
  {
    hide Iter, Placed, Step, EvalCommand, CommandCode;
    PlacedAt(p, CommandCode(c, quiet, env), at, 0);
    OneStep(p, Conf(at, s, out, Going));
    SingleStep(c, at, s, quiet, env);
    ExitKnown(c, s, quiet, env);
  }

  /** Every command's code does what the evaluator says of the command. */
  lemma CommandRuns(c: Command, p: seq<Instr>, at: int, s: State, out: string, quiet: bool, env: map<string, int>)
    returns (k: nat)
    requires Accepted(c) && Placed(p, CommandCode(c, quiet, env), at)
    requires c.CBranch? || c.CTest? ==> Key(c.to) in env
    ensures k >= 1 && Lands(Iter(p, Conf(at, s, out, Going), k), EvalCommand(c, s, quiet), out, at + CommandSize(c, quiet), env)
  {
    hide Iter, EvalCommand;
    if !quiet && (c.CNext? || c.CQuit?) {
      k := PrintedRuns(c, p, at, s, out, env);
    } else if c.CNextAppend? {
      PlacedAt(p, CommandCode(c, quiet, env), at, 0);
      k := FillAppendRuns(p, at, s, out, env);
      QuietNext(s, quiet);
    } else if c.CNext? {
      PlacedAt(p, CommandCode(c, quiet, env), at, 0);
      k := FillRuns(p, at, s, out, env);
      QuietNext(s, quiet);
    } else {
      k := 1;
      SingleRuns(c, p, at, s, out, quiet, env);
    }
  }

  lemma QuietNext(s: State, quiet: bool)
    ensures EvalCommand(CNextAppend, s, quiet) == EvalCommand(CNextAppend, s, true)
    ensures quiet ==> EvalCommand(CNext, s, quiet) == Advance(s)
  {
    assert "" + Advance(s).out == Advance(s).out;
  }

  /** A guard instruction goes into its body or over it. */
  lemma OneCondRuns(p: seq<Instr>, at: int, s: State, out: string, env: map<string, int>)
    requires 0 <= at < |p| && p[at].OneCond?
    ensures Lands(Iter(p, Conf(at, s, out, Going), 1), Result(s, "", Through), out,
                  if IsMet(p[at].cond, s) then p[at].met else p[at].unmet, env)
  {
    OneStep(p, Conf(at, s, out, Going));
    assert out + "" == out;
  }

  lemma TwoCondRuns(p: seq<Instr>, at: int, s: State, out: string, env: map<string, int>)
    requires 0 <= at < |p| && p[at].TwoCond?
    ensures var (r, on) := RunRange(p[at].start, p[at].end, RangeAt(s, at), s);
            Lands(Iter(p, Conf(at, s, out, Going), 1), Result(s.(ranges := s.ranges[at := r]), "", Through), out,
                  if on then p[at].met else p[at].unmet, env)
  {
    OneStep(p, Conf(at, s, out, Going));
    assert out + "" == out;
  }

  lemma ChangeRuns(p: seq<Instr>, at: int, s: State, out: string, env: map<string, int>)
    requires 0 <= at < |p| && p[at].Change? && p[at].guard.Some?
    ensures Lands(Iter(p, Conf(at, s, out, Going), 1),
                  Result(s, if IsLastLine(RangeAt(s, p[at].guard.value), s) then p[at].text else "", NewCycle), out, at + 1, env)
  {
    OneStep(p, Conf(at, s, out, Going));
    assert out + "" == out;
  }

  lemma {:induction false} NodeRuns(n: Node, p: seq<Instr>, at: int, s: State, out: string, quiet: bool, env: map<string, int>)
    returns (k: nat)
    requires NodeOk(n) && NodeUses(n) <= env.Keys && Placed(p, NodeCode(n, at, quiet, env), at)
    ensures Lands(Iter(p, Conf(at, s, out, Going), k), EvalNode(n, at, s, quiet), out, at + NodeSize(n, quiet), env)
    ensures EvalNode(n, at, s, quiet).exit != Through ==> k >= 1
    decreases n, 0
  {
    hide Iter, Lands, CommandCode, BlockCode, EvalCommand, EvalBlock, Placed, BlockOk, RunRange, IsMet;
    match n
    case Do(cmd) =>
      k := CommandRuns(cmd, p, at, s, out, quiet, env);
    case Label(_) =>
      k := 0;
      NothingRuns(p, at, s, out, env);
    case Guard(_, _, _) =>
      k := GuardRuns(n, p, at, s, out, quiet, env);
    case RangeGuard(_, _, _, _) =>
      k := RangeGuardRuns(n, p, at, s, out, quiet, env);
    case RangeChange(c1, c2, text) =>
      k := RangeChangeRuns(c1, c2, text, p, at, s, out, quiet, env);
  }

  lemma {:induction false} GuardRuns(n: Node, p: seq<Instr>, at: int, s: State, out: string, quiet: bool, env: map<string, int>)
    returns (k: nat)
    requires n.Guard? && NodeOk(n) && NodeUses(n) <= env.Keys && Placed(p, NodeCode(n, at, quiet, env), at)
    ensures k >= 1
    ensures Lands(Iter(p, Conf(at, s, out, Going), k), EvalNode(n, at, s, quiet), out, at + NodeSize(n, quiet), env)
    decreases n.body, 2
  {
    hide Iter, Lands, BlockCode, EvalBlock, Placed, BlockOk, BlockUses, BlockSize, IsMet;
    var head := NodeCode(n, at, quiet, env)[0];
    PlacedAt(p, NodeCode(n, at, quiet, env), at, 0);
    OneCondRuns(p, at, s, out, env);
    k := 1;
    if IsMet(n.cond, s) != n.negated {
      k := IntoBody(n.body, p, at, head, s, s, out, quiet, env);
    }
  }

  lemma {:induction false} RangeGuardRuns(n: Node, p: seq<Instr>, at: int, s: State, out: string, quiet: bool,
                                          env: map<string, int>) returns (k: nat)
    requires n.RangeGuard? && NodeOk(n) && NodeUses(n) <= env.Keys && Placed(p, NodeCode(n, at, quiet, env), at)
    ensures k >= 1
    ensures Lands(Iter(p, Conf(at, s, out, Going), k), EvalNode(n, at, s, quiet), out, at + NodeSize(n, quiet), env)
    decreases n.body, 2
  {
    hide Iter, Lands, BlockCode, EvalBlock, Placed, BlockOk, BlockUses, BlockSize, RunRange;
    var head := NodeCode(n, at, quiet, env)[0];
    PlacedAt(p, NodeCode(n, at, quiet, env), at, 0);
    var (r, on) := RunRange(n.start, n.end, RangeAt(s, at), s);
    TwoCondRuns(p, at, s, out, env);
    k := 1;
    if on != n.negated {
      k := IntoBody(n.body, p, at, head, s, s.(ranges := s.ranges[at := r]), out, quiet, env);
    }
  }

  /** A guard that went into its body at `at + 1`, then the body. */
  lemma {:induction false} IntoBody(body: Block, p: seq<Instr>, at: int, head: Instr, s: State, t: State, out: string,
                                    quiet: bool, env: map<string, int>) returns (k: nat)
    requires BlockOk(body) && BlockUses(body) <= env.Keys && Placed(p, [head] + BlockCode(body, at + 1, quiet, env), at)
    requires Lands(Iter(p, Conf(at, s, out, Going), 1), Result(t, "", Through), out, at + 1, env)
    ensures k >= 1
    ensures Lands(Iter(p, Conf(at, s, out, Going), k), EvalBlock(body, at + 1, t, quiet), out,
                  at + 1 + BlockSize(body, quiet), env)
    decreases body, 1
  {
    hide Iter, Lands, BlockCode, EvalBlock, Placed, BlockOk, BlockUses, BlockSize;
    PlacedConcat(p, [head], BlockCode(body, at + 1, quiet, env), at);
    k := BlockRuns(body, p, at + 1, t, out + "", quiet, env);
    var r := EvalBlock(body, at + 1, t, quiet);
    Sequenced(p, Conf(at, s, out, Going), 1, Result(t, "", Through), at + 1, k, r, out, at + 1 + BlockSize(body, quiet), env);
    assert r.(out := "" + r.out) == r;
    k := 1 + k;
  }

  lemma RangeChangeRuns(c1: Cond, c2: Cond, text: string, p: seq<Instr>, at: int, s: State, out: string, quiet: bool,
                        env: map<string, int>) returns (k: nat)
    requires Placed(p, NodeCode(RangeChange(c1, c2, text), at, quiet, env), at)
    ensures k >= 1
    ensures Lands(Iter(p, Conf(at, s, out, Going), k), EvalNode(RangeChange(c1, c2, text), at, s, quiet), out, at + 2, env)
  {
    hide Iter, Lands, Placed;
    var n := RangeChange(c1, c2, text);
    var code := NodeCode(n, at, quiet, env);
    PlacedAt(p, code, at, 0);
    PlacedAt(p, code, at, 1);
    var (r, on) := RunRange(c1, c2, RangeAt(s, at), s);
    var t := s.(ranges := s.ranges[at := r]);
    TwoCondRuns(p, at, s, out, env);
    k := 1;
    if on {
      ChangeRuns(p, at + 1, t, out + "", env);
      var r' := EvalNode(n, at, s, quiet);
      Sequenced(p, Conf(at, s, out, Going), 1, Result(t, "", Through), at + 1, 1, r', out, at + 2, env);
      assert r'.(out := "" + r'.out) == r';
      k := 2;
    }
  }

  lemma {:induction false} BlockRuns(b: Block, p: seq<Instr>, at: int, s: State, out: string, quiet: bool, env: map<string, int>)
    returns (k: nat)
    requires BlockOk(b) && BlockUses(b) <= env.Keys && Placed(p, BlockCode(b, at, quiet, env), at)
    ensures Lands(Iter(p, Conf(at, s, out, Going), k), EvalBlock(b, at, s, quiet), out, at + BlockSize(b, quiet), env)
    ensures EvalBlock(b, at, s, quiet).exit != Through ==> k >= 1
    decreases b, 0
  {
    hide NodeCode, EvalNode, NodeOk, NodeUses, NodeSize, Placed, Lands, Iter;
    match b
    case Nil =>
      k := 0;
      NothingRuns(p, at, s, out, env);
    case Cons(n, t) =>
      var at' := at + NodeSize(n, quiet);
      PlacedConcat(p, NodeCode(n, at, quiet, env), BlockCode(t, at', quiet, env), at);
      k := NodeRuns(n, p, at, s, out, quiet, env);
      var r := EvalNode(n, at, s, quiet);
      if r.exit == Through {
        var k' := BlockRuns(t, p, at', r.s, out + r.out, quiet, env);
        Sequenced(p, Conf(at, s, out, Going), k, r, at', k', EvalBlock(t, at', r.s, quiet), out, at + BlockSize(b, quiet), env);
        k := k + k';
      } else {
        LandsAnywhere(Iter(p, Conf(at, s, out, Going), k), r, out, at', at + BlockSize(b, quiet), env);
      }
  }

  lemma NothingRuns(p: seq<Instr>, at: int, s: State, out: string, env: map<string, int>)
    ensures Lands(Iter(p, Conf(at, s, out, Going), 0), Result(s, "", Through), out, at, env)
  {
    assert out + "" == out;
  }

  lemma LandsAnywhere(c: Conf, r: Result, out: string, next: int, next': int, env: map<string, int>)
    requires Lands(c, r, out, next, env) && r.exit != Through
    ensures Lands(c, r, out, next', env)
  {
  }

  // ---- entering at a label ----

  lemma {:induction false} LabelsAre(b: Block, at: int, quiet: bool, name: string)
    ensures name in BlockLabels(b, at, quiet) <==> BlockHas(b, name)
    decreases b
  {
    match b
    case Nil =>
    case Cons(n, t) =>
      match n {
        case Guard(_, _, body) => LabelsAre(body, at + 1, quiet, name);
        case RangeGuard(_, _, _, body) => LabelsAre(body, at + 1, quiet, name);
        case _ =>
      }
      LabelsAre(t, at + NodeSize(n, quiet), quiet, name);
  }

  /** From the address of a label the code of a node does what resuming the node says. */
  lemma {:induction false} NodeResumes(n: Node, name: string, p: seq<Instr>, at: int, s: State, out: string, quiet: bool,
                                       env: map<string, int>) returns (k: nat)
    requires NodeOk(n) && NodeUses(n) <= env.Keys && Placed(p, NodeCode(n, at, quiet, env), at) && NodeHas(n, name)
    ensures name in NodeLabels(n, at, quiet)
    ensures Lands(Iter(p, Conf(NodeLabels(n, at, quiet)[name], s, out, Going), k), ResumeNode(n, name, at, s, quiet), out,
                  at + NodeSize(n, quiet), env)
    ensures ResumeNode(n, name, at, s, quiet).exit != Through ==> k >= 1
    decreases n, 0
  {
    hide Iter, Lands, BlockCode, Placed, BlockOk, BlockUses, ResumeBlock, BlockHas;
    match n
    case Label(_) =>
      k := 0;
      NothingRuns(p, at, s, out, env);
    case Guard(_, _, body) =>
      PlacedConcat(p, [NodeCode(n, at, quiet, env)[0]], BlockCode(body, at + 1, quiet, env), at);
      k := BlockResumes(body, name, p, at + 1, s, out, quiet, env);
    case RangeGuard(_, _, _, body) =>
      PlacedConcat(p, [NodeCode(n, at, quiet, env)[0]], BlockCode(body, at + 1, quiet, env), at);
      k := BlockResumes(body, name, p, at + 1, s, out, quiet, env);
  }

  /** The same of a block, however deep inside it the label is. */
  lemma {:induction false} BlockResumes(b: Block, name: string, p: seq<Instr>, at: int, s: State, out: string, quiet: bool,
                                        env: map<string, int>) returns (k: nat)
    requires BlockOk(b) && BlockUses(b) <= env.Keys && Placed(p, BlockCode(b, at, quiet, env), at) && BlockHas(b, name)
    ensures name in BlockLabels(b, at, quiet)
    ensures Lands(Iter(p, Conf(BlockLabels(b, at, quiet)[name], s, out, Going), k), ResumeBlock(b, name, at, s, quiet), out,
                  at + BlockSize(b, quiet), env)
    ensures ResumeBlock(b, name, at, s, quiet).exit != Through ==> k >= 1
    decreases b, 0
  {
    hide Iter, Lands, NodeCode, Placed, NodeOk, NodeUses, ResumeNode, NodeHas, NodeSize, NodeLabels, EvalBlock;
    var n, t := b.head, b.tail;
    var at' := at + NodeSize(n, quiet);
    LabelsAre(t, at', quiet, name);
    PlacedConcat(p, NodeCode(n, at, quiet, env), BlockCode(t, at', quiet, env), at);
    if BlockHas(t, name) {
      k := BlockResumes(t, name, p, at', s, out, quiet, env);
    } else {
      k := NodeResumes(n, name, p, at, s, out, quiet, env);
      var c := Conf(NodeLabels(n, at, quiet)[name], s, out, Going);
      var r := ResumeNode(n, name, at, s, quiet);
      if r.exit == Through {
        var k' := BlockRuns(t, p, at', r.s, out + r.out, quiet, env);
        Sequenced(p, c, k, r, at', k', EvalBlock(t, at', r.s, quiet), out, at + BlockSize(b, quiet), env);
        k := k + k';
      } else {
        LandsAnywhere(Iter(p, c, k), r, out, at', at + BlockSize(b, quiet), env);
      }
    }
  }

  // ---- whole runs ----

  /** Every label the script branches to is somewhere in it, as the compiler demands. */
  predicate Linked(b: Block, quiet: bool) {
    BlockUses(b) <= Env(b, quiet).Keys
  }

  /** The address at which a pass starts. */
  function Entry(b: Block, start: Start, quiet: bool): int {
    match start
    case NextLineFirst => 0
    case Top => 1
    case At(name) => if name in BlockLabels(b, 1, quiet) then BlockLabels(b, 1, quiet)[name] else 1
  }

  /** The program pointer stands where the pass about to start requires. */
  ghost predicate Between(b: Block, quiet: bool, c: Conf, x: Script) {
    && c.s == x.s && c.out == x.out
    && if x.over then c.phase == Halted else c.phase == Going && c.ip == Entry(b, x.start, quiet)
  }

  /** The trailer: the automatic print and the jump back to the fill. */
  lemma TrailerRuns(p: seq<Instr>, at: int, s: State, out: string, quiet: bool) returns (k: nat)
    requires Placed(p, Trailer(quiet), at)
    ensures k >= 1 && Iter(p, Conf(at, s, out, Going), k) == Conf(0, s, out + AutoPrint(s, quiet), Going)
  {
    var c := Conf(at, s, out, Going);
    PlacedAt(p, Trailer(quiet), at, 0);
    OneStep(p, c);
    k := 1;
    if quiet {
      assert out + "" == out;
    } else {
      PlacedAt(p, Trailer(quiet), at, 1);
      var c' := StepConf(p, c);
      OneStep(p, c');
      IterAdd(p, c, 1, 1);
      assert c'.out + "" == c'.out;
      k := 2;
    }
  }

  /** The body of a pass, from the top or from a label. */
  lemma BodyRuns(b: Block, start: Start, p: seq<Instr>, s: State, out: string, quiet: bool) returns (k: nat)
    requires BlockOk(b) && Linked(b, quiet) && p == Program(b, quiet, Env(b, quiet)) && !start.NextLineFirst?
    ensures var r := EvalBody(b, start, s, quiet);
      && Lands(Iter(p, Conf(Entry(b, start, quiet), s, out, Going), k), r, out, 1 + BlockSize(b, quiet), Env(b, quiet))
      && (r.exit != Through ==> k >= 1)
  {
    hide BlockCode, EvalBlock, ResumeBlock, BlockOk, BlockUses, BlockHas, BlockSize, Iter, Placed, BlockLabels, Lands, Program;
    var env := Env(b, quiet);
    ProgramPlaced(b, p, quiet, env);
    if start.At? {
      LabelsAre(b, 1, quiet, start.name);
    }
    if start.At? && BlockHas(b, start.name) {
      k := BlockResumes(b, start.name, p, 1, s, out, quiet, env);
    } else {
      k := BlockRuns(b, p, 1, s, out, quiet, env);
    }
  }

  /** A pass that has read its line, up to where the next one starts. */
  lemma ScriptRuns(b: Block, start: Start, p: seq<Instr>, s: State, out: string, quiet: bool) returns (k: nat)
    requires BlockOk(b) && Linked(b, quiet) && p == Program(b, quiet, Env(b, quiet)) && !start.NextLineFirst?
    ensures var r := EvalScript(b, start, s, quiet);
      && k >= 1
      && Between(b, quiet, Iter(p, Conf(Entry(b, start, quiet), s, out, Going), k),
                 Script(r.s, out + r.out, Starts(r.exit), r.exit == Over))
  {
    hide EvalBody, BlockOk, BlockSize, Iter, Placed, BlockLabels, Linked, Program, Lands, Between, Entry;
    var c, end := Conf(Entry(b, start, quiet), s, out, Going), 1 + BlockSize(b, quiet);
    ProgramPlaced(b, p, quiet, Env(b, quiet));
    k := BodyRuns(b, start, p, s, out, quiet);
    var r := EvalBody(b, start, s, quiet);
    if r.exit in {Through, EndCycle} {
      AtTrailer(b, quiet, Iter(p, c, k), r, out);
      var k' := TrailerRuns(p, end, r.s, out + r.out, quiet);
      IterAdd(p, c, k, k');
      assert (out + r.out) + AutoPrint(r.s, quiet) == out + (r.out + AutoPrint(r.s, quiet));
      k := k + k';
      AtTop(b, quiet, r.s, out + (r.out + AutoPrint(r.s, quiet)));
    } else {
      AtNextPass(b, quiet, Iter(p, c, k), r, out);
    }
  }

  lemma AtTrailer(b: Block, quiet: bool, c: Conf, r: Result, out: string)
    requires r.exit in {Through, EndCycle} && Lands(c, r, out, 1 + BlockSize(b, quiet), Env(b, quiet))
    ensures c == Conf(1 + BlockSize(b, quiet), r.s, out + r.out, Going)
  {
  }

  lemma AtTop(b: Block, quiet: bool, s: State, out: string)
    ensures Between(b, quiet, Conf(0, s, out, Going), Script(s, out, NextLineFirst, false))
  {
  }

  /** An exit that skips the end of the script leads to where the next pass starts. */
  lemma AtNextPass(b: Block, quiet: bool, c: Conf, r: Result, out: string)
    requires r.exit !in {Through, EndCycle} && Lands(c, r, out, 1 + BlockSize(b, quiet), Env(b, quiet))
    ensures Between(b, quiet, c, Script(r.s, out + r.out, Starts(r.exit), r.exit == Over))
  {
    hide BlockLabels, BlockSize;
  }

  lemma ProgramPlaced(b: Block, p: seq<Instr>, quiet: bool, env: map<string, int>)
    requires BlockOk(b) && p == Program(b, quiet, env)
    ensures |p| > 0 && p[0] == Fill
    ensures Placed(p, BlockCode(b, 1, quiet, env), 1) && Placed(p, Trailer(quiet), 1 + BlockSize(b, quiet))
  {
    hide BlockCode, BlockOk, BlockSize, Placed, Trailer;
    Parts([Fill], BlockCode(b, 1, quiet, env), Trailer(quiet));
  }

  lemma Parts(a: seq<Instr>, b: seq<Instr>, c: seq<Instr>)
    ensures Placed(a + b + c, b, |a|) && Placed(a + b + c, c, |a| + |b|)
  {
    assert (a + b + c)[|a|..|a| + |b|] == b;
    assert (a + b + c)[|a| + |b|..] == c;
  }

  /** A pass that starts inside the script. */
  lemma PassInside(b: Block, p: seq<Instr>, c: Conf, x: Script, quiet: bool) returns (k: nat)
    requires BlockOk(b) && Linked(b, quiet) && p == Program(b, quiet, Env(b, quiet)) && Between(b, quiet, c, x)
    requires !x.over && !x.start.NextLineFirst?
    ensures k >= 1 && Between(b, quiet, Iter(p, c, k), Pass(b, x, quiet))
  {
    hide EvalScript, Program, BlockOk, Linked, Entry, Iter, Advance, Starts;
    assert c == Conf(Entry(b, x.start, quiet), x.s, x.out, Going);
    assert x.out + "" == x.out;
    hide Between;
    k := ScriptRuns(b, x.start, p, x.s, x.out, quiet);
  }

  /** A pass that first reads a line. */
  lemma PassFills(b: Block, p: seq<Instr>, c: Conf, x: Script, quiet: bool) returns (k: nat)
    requires BlockOk(b) && Linked(b, quiet) && p == Program(b, quiet, Env(b, quiet)) && Between(b, quiet, c, x)
    requires !x.over && x.start.NextLineFirst?
    ensures k >= 1 && Between(b, quiet, Iter(p, c, k), Pass(b, x, quiet))
  {
    hide EvalScript, Program, BlockOk, Linked, BlockLabels, BlockSize, Iter, Advance, Starts;
    assert c == Conf(0, x.s, x.out, Going);
    ProgramPlaced(b, p, quiet, Env(b, quiet));
    k := FillRuns(p, 0, x.s, x.out, Env(b, quiet));
    AdvanceExits(x.s);
    var f := Advance(x.s);
    if f.exit != Over {
      assert Iter(p, c, k) == Conf(Entry(b, Top, quiet), f.s, x.out + f.out, Going);
      hide Between, Entry, Lands;
      FromTop(b, f.s, quiet);
      var k' := ScriptRuns(b, Top, p, f.s, x.out + f.out, quiet);
      IterAdd(p, c, k, k');
      k := k + k';
    }
  }

  /** One pass of the evaluator is a finite, non-empty stretch of machine steps. */
  lemma PassRuns(b: Block, p: seq<Instr>, c: Conf, x: Script, quiet: bool) returns (k: nat)
    requires BlockOk(b) && Linked(b, quiet) && p == Program(b, quiet, Env(b, quiet)) && Between(b, quiet, c, x)
    ensures k >= 1 && Between(b, quiet, Iter(p, c, k), Pass(b, x, quiet))
  {
    hide EvalScript, Program, BlockOk, Linked, Entry, Iter, Advance, Starts;
    if x.over {
      k := 1;
      IterStopped(p, c, 1);
    } else if x.start.NextLineFirst? {
      k := PassFills(b, p, c, x, quiet);
    } else {
      k := PassInside(b, p, c, x, quiet);
    }
  }

  lemma FromTop(b: Block, s: State, quiet: bool)
    requires BlockOk(b)
    ensures EvalScript(b, NextLineFirst, s, quiet) == EvalScript(b, Top, s, quiet)
  {
  }

  lemma AdvanceExits(s: State)
    ensures Advance(s).exit in {Through, Over}
  {
  }

  /** Any number of passes is matched by at least as many machine steps that reach the same state and output. */
  lemma {:induction false} PassesRun(b: Block, p: seq<Instr>, c: Conf, x: Script, quiet: bool, n: nat) returns (k: nat)
    requires BlockOk(b) && Linked(b, quiet) && p == Program(b, quiet, Env(b, quiet)) && Between(b, quiet, c, x)
    ensures k >= n && Between(b, quiet, Iter(p, c, k), Passes(b, x, quiet, n))
    decreases n
  {
    hide Pass, Program, BlockOk, Linked, Entry;
    if n == 0 {
      k := 0;
    } else {
      k := PassRuns(b, p, c, x, quiet);
      var k' := PassesRun(b, p, Iter(p, c, k), Pass(b, x, quiet), quiet, n - 1);
      IterAdd(p, c, k, k');
      k := k + k';
    }
  }

  /**
    Compiler correctness for every script with known labels, quiet or not, on every input: the machine halts
    exactly when the evaluator finishes, and then with the same output, pattern space and hold space.
  */
  lemma CompilerCorrect(b: Block, quiet: bool, s: State)
    requires BlockOk(b) && Linked(b, quiet)
    ensures var p := Program(b, quiet, Env(b, quiet));
            var c, x := Conf(0, s, "", Going), Script(s, "", NextLineFirst, false);
            && ((exists k: nat :: Iter(p, c, k).phase == Halted) <==> (exists n: nat :: Passes(b, x, quiet, n).over))
            && forall k: nat, n: nat :: Iter(p, c, k).phase == Halted && Passes(b, x, quiet, n).over ==>
                 Iter(p, c, k).s == Passes(b, x, quiet, n).s && Iter(p, c, k).out == Passes(b, x, quiet, n).out
  {
    hide Iter, Passes, Program, BlockOk, Linked;
    var p := Program(b, quiet, Env(b, quiet));
    var c, x := Conf(0, s, "", Going), Script(s, "", NextLineFirst, false);
    if n: nat :| Passes(b, x, quiet, n).over {
      var k := PassesRun(b, p, c, x, quiet, n);
      assert Iter(p, c, k).phase == Halted;
    }
    if k: nat :| Iter(p, c, k).phase == Halted {
      var m := PassesRun(b, p, c, x, quiet, k);
      HaltedStays(p, c, k, m);
      assert Passes(b, x, quiet, k).over;
    }
    forall k: nat, n: nat | Iter(p, c, k).phase == Halted && Passes(b, x, quiet, n).over
      ensures Iter(p, c, k).s == Passes(b, x, quiet, n).s && Iter(p, c, k).out == Passes(b, x, quiet, n).out
    {
      var m := PassesRun(b, p, c, x, quiet, n);
      if k <= m {
        HaltedStays(p, c, k, m);
      } else {
        HaltedStays(p, c, m, k);
      }
    }
  }

  lemma HaltedStays(p: seq<Instr>, c: Conf, k: nat, m: nat)
    requires Iter(p, c, k).phase == Halted && k <= m
    ensures Iter(p, c, m) == Iter(p, c, k)
  {
    IterAdd(p, c, k, m - k);
    IterStopped(p, Iter(p, c, k), m - k);
  }
}
