/** Jump safety of compiled scripts, labels and branches included, over every run. */
module SedSafety {
  import opened Basics
  import opened SedMachine
  import opened SedScript

  /** Wherever instruction `i` at address `at` may go next lies inside a program of `n` instructions. */
  predicate SafeInstr(i: Instr, at: int, n: int) {
    match i
    case Branch(t) => 0 <= t < n
    case ChangedBranch(t) => 0 <= t < n && 0 <= at + 1 < n
    case OneCond(_, met, unmet) => 0 <= met < n && 0 <= unmet < n
    case TwoCond(_, _, met, unmet) => 0 <= met < n && 0 <= unmet < n
    case Change(_, _) => 0 < n
    case DeleteFirst => 1 < n
    case Quit => true
    case _ => 0 <= at + 1 < n
  }

  ghost predicate SafeCode(code: seq<Instr>, at: int, n: int) {
    forall i :: 0 <= i < |code| ==> SafeInstr(code[i], at + i, n)
  }

  lemma SafeConcat(a: seq<Instr>, b: seq<Instr>, at: int, n: int)
    requires SafeCode(a, at, n) && SafeCode(b, at + |a|, n)
    ensures SafeCode(a + b, at, n)
  {
    hide SafeInstr;
    forall i | 0 <= i < |a + b| ensures SafeInstr((a + b)[i], at + i, n) {
      if i >= |a| {
        assert SafeInstr(b[i - |a|], at + |a| + (i - |a|), n);
      }
    }
  }

  lemma SafeCommand(c: Command, at: int, quiet: bool, env: map<string, int>, n: int)
    requires Accepted(c) && 1 <= at && at + CommandSize(c, quiet) < n
    requires forall k :: k in env ==> 0 <= env[k] < n
    ensures SafeCode(CommandCode(c, quiet, env), at, n)
  {
  }

  lemma {:induction false} SafeNode(nd: Node, at: int, quiet: bool, env: map<string, int>, n: int)
    requires NodeOk(nd) && 1 <= at && at + NodeSize(nd, quiet) < n
    requires forall k :: k in env ==> 0 <= env[k] < n
    ensures SafeCode(NodeCode(nd, at, quiet, env), at, n)
    decreases nd
  {
    hide CommandCode, BlockCode, BlockOk, BlockSize;
    match nd
    case Do(c) => SafeCommand(c, at, quiet, env, n);
    case Label(_) =>
    case RangeChange(_, _, _) =>
    case Guard(c, negated, body) =>
      SafeBlock(body, at + 1, quiet, env, n);
      SafeConcat([NodeCode(nd, at, quiet, env)[0]], BlockCode(body, at + 1, quiet, env), at, n);
    case RangeGuard(c1, c2, negated, body) =>
      SafeBlock(body, at + 1, quiet, env, n);
      SafeConcat([NodeCode(nd, at, quiet, env)[0]], BlockCode(body, at + 1, quiet, env), at, n);
  }

  lemma {:induction false} SafeBlock(b: Block, at: int, quiet: bool, env: map<string, int>, n: int)
    requires BlockOk(b) && 1 <= at && at + BlockSize(b, quiet) < n
    requires forall k :: k in env ==> 0 <= env[k] < n
    ensures SafeCode(BlockCode(b, at, quiet, env), at, n)
    decreases b
  {
    hide SafeCode, NodeCode, NodeSize, NodeOk;
    match b
    case Nil => SafeNothing(at, n);
    case Cons(nd, t) =>
      SafeNode(nd, at, quiet, env, n);
      SafeBlock(t, at + NodeSize(nd, quiet), quiet, env, n);
      SafeConcat(NodeCode(nd, at, quiet, env), BlockCode(t, at + NodeSize(nd, quiet), quiet, env), at, n);
  }

  lemma SafeNothing(at: int, n: int)
    ensures SafeCode([], at, n)
  {
  }

  lemma {:induction false} NodeLabelsIn(nd: Node, at: int, quiet: bool)
    ensures forall k :: k in NodeLabels(nd, at, quiet) ==> at <= NodeLabels(nd, at, quiet)[k] <= at + NodeSize(nd, quiet)
    decreases nd
  {
    match nd
    case Guard(_, _, body) => LabelsIn(body, at + 1, quiet);
    case RangeGuard(_, _, _, body) => LabelsIn(body, at + 1, quiet);
    case _ =>
  }

  lemma {:induction false} LabelsIn(b: Block, at: int, quiet: bool)
    ensures forall k :: k in BlockLabels(b, at, quiet) ==> at <= BlockLabels(b, at, quiet)[k] <= at + BlockSize(b, quiet)
    decreases b
  {
    match b
    case Nil =>
    case Cons(nd, t) =>
      NodeLabelsIn(nd, at, quiet);
      LabelsIn(t, at + NodeSize(nd, quiet), quiet);
  }

  lemma SafeEnds(n: int, quiet: bool)
    requires n >= 1 + |Trailer(quiet)|
    ensures SafeCode([Fill], 0, n) && SafeCode(Trailer(quiet), n - |Trailer(quiet)|, n)
  {
  }

  /** Every program the compiler accepts has all its jumps and fall-throughs inside. */
  lemma ProgramSafe(b: Block, quiet: bool)
    requires BlockOk(b)
    ensures var p := Program(b, quiet, Env(b, quiet)); |p| >= 2 && SafeCode(p, 0, |p|)
  {
    hide BlockCode, BlockSize, BlockOk, BlockLabels;
    var env := Env(b, quiet);
    var p := Program(b, quiet, env);
    LabelsIn(b, 1, quiet);
    SafeBlock(b, 1, quiet, env, |p|);
    SafeEnds(|p|, quiet);
    hide SafeCode;
    SafeConcat([Fill], BlockCode(b, 1, quiet, env), 0, |p|);
    SafeConcat([Fill] + BlockCode(b, 1, quiet, env), Trailer(quiet), 0, |p|);
  }

  lemma StepSafe(p: seq<Instr>, c: Conf)
    requires p != [] && SafeCode(p, 0, |p|) && 0 <= c.ip < |p| && c.phase != Crashed
    ensures 0 <= StepConf(p, c).ip < |p| && StepConf(p, c).phase != Crashed
  {
    assert SafeInstr(p[c.ip], 0 + c.ip, |p|);
  }

  lemma {:induction false} IterSafe(p: seq<Instr>, c: Conf, n: nat)
    requires p != [] && SafeCode(p, 0, |p|) && 0 <= c.ip < |p| && c.phase != Crashed
    ensures 0 <= Iter(p, c, n).ip < |p| && Iter(p, c, n).phase != Crashed
    decreases n
  {
    if n > 0 {
      StepSafe(p, c);
      IterSafe(p, StepConf(p, c), n - 1);
    }
  }

  /** No run of an accepted script, on any input and from any state, ever fetches outside the program. */
  lemma NeverCrashes(toks: seq<Token>, quiet: bool, s: State, n: nat)
    requires Compile(toks, quiet).Some?
    ensures var p := Compile(toks, quiet).value;
            var c := Iter(p, Conf(0, s, "", Going), n);
            0 <= c.ip < |p| && c.phase != Crashed
  {
    ParsedOk(toks, true);
    var b := ParseBlock(toks, true).value;
    ProgramSafe(b, quiet);
    IterSafe(Program(b, quiet, Env(b, quiet)), Conf(0, s, "", Going), n);
  }

  // ---- where branches go ----

  /** The script in document order: `None` for each instruction, `Some(name)` for a label between two of them. */
  function NodeItems(nd: Node, quiet: bool): seq<Option<string>> {
    match nd
    case Label(name) => [Some(name)]
    case Guard(_, _, body) => [None] + BlockItems(body, quiet)
    case RangeGuard(_, _, _, body) => [None] + BlockItems(body, quiet)
    case _ => seq(NodeSize(nd, quiet), _ => None)
  }

  function BlockItems(b: Block, quiet: bool): seq<Option<string>> {
    match b
    case Nil => []
    case Cons(nd, t) => NodeItems(nd, quiet) + BlockItems(t, quiet)
  }

  /** How many instructions an item sequence has. */
  function Instrs(items: seq<Option<string>>): nat {
    if items == [] then 0 else Instrs(items[..|items| - 1]) + if items[|items| - 1].None? then 1 else 0
  }

  /** How many instructions precede the last occurrence of a label. */
  function Before(items: seq<Option<string>>, name: string): Option<nat> {
    if items == [] then None
    else if items[|items| - 1] == Some(name) then Some(Instrs(items[..|items| - 1]))
    else Before(items[..|items| - 1], name)
  }

  lemma {:induction false} ItemsConcat(a: seq<Option<string>>, b: seq<Option<string>>, name: string)
    ensures Instrs(a + b) == Instrs(a) + Instrs(b)
    ensures Before(a + b, name) == match Before(b, name)
                                   case Some(k) => Some(Instrs(a) + k)
                                   case None => Before(a, name)
    decreases |b|
  {
    if b == [] {
      assert a + b == a;
    } else {
      assert (a + b)[..|a + b| - 1] == a + b[..|b| - 1];
      ItemsConcat(a, b[..|b| - 1], name);
    }
  }

  lemma {:induction false} NoLabels(k: nat, name: string)
    ensures var items: seq<Option<string>> := seq(k, _ => None); Instrs(items) == k && Before(items, name) == None
    decreases k
  {
    if k > 0 {
      var items: seq<Option<string>> := seq(k, _ => None);
      var shorter: seq<Option<string>> := seq(k - 1, _ => None);
      assert items[..k - 1] == shorter;
      NoLabels(k - 1, name);
    }
  }

  lemma OneInstr(name: string)
    ensures Instrs([None]) == 1 && Before([None], name) == None
  {
    var items: seq<Option<string>> := [None];
    assert items[..0] == [];
  }

  lemma OneLabel(l: string, name: string)
    ensures Instrs([Some(l)]) == 0 && Before([Some(l)], name) == if l == name then Some(0) else None
  {
    var items: seq<Option<string>> := [Some(l)];
    assert items[..0] == [];
  }

  /** A label's address and the position of the label in the script agree. */
  ghost predicate Agree(labels: map<string, int>, items: seq<Option<string>>, at: int, name: string) {
    match Before(items, name)
    case Some(k) => name in labels && labels[name] == at + k
    case None => name !in labels
  }

  lemma {:induction false} NodeAddress(nd: Node, at: int, quiet: bool, name: string)
    ensures Instrs(NodeItems(nd, quiet)) == NodeSize(nd, quiet)
    ensures Agree(NodeLabels(nd, at, quiet), NodeItems(nd, quiet), at, name)
    decreases nd
  {
    match nd
    case Label(l) =>
      OneLabel(l, name);
    case Guard(_, _, body) =>
      BlockAddress(body, at + 1, quiet, name);
      ItemsConcat([None], BlockItems(body, quiet), name);
      OneInstr(name);
    case RangeGuard(_, _, _, body) =>
      BlockAddress(body, at + 1, quiet, name);
      ItemsConcat([None], BlockItems(body, quiet), name);
      OneInstr(name);
    case _ =>
      NoLabels(NodeSize(nd, quiet), name);
  }

  lemma NoItems(name: string)
    ensures Instrs([]) == 0 && Before([], name) == None
  {
  }

  /** A branch target is the address of the instruction that follows its label's last occurrence. */
  lemma {:induction false} BlockAddress(b: Block, at: int, quiet: bool, name: string)
    ensures Instrs(BlockItems(b, quiet)) == BlockSize(b, quiet)
    ensures Agree(BlockLabels(b, at, quiet), BlockItems(b, quiet), at, name)
    decreases b
  {
    hide Instrs, Before, NodeItems, NodeLabels, NodeSize;
    match b
    case Nil => NoItems(name);
    case Cons(nd, t) =>
      NodeAddress(nd, at, quiet, name);
      BlockAddress(t, at + NodeSize(nd, quiet), quiet, name);
      ItemsConcat(NodeItems(nd, quiet), BlockItems(t, quiet), name);
  }
}
