/** `gosed/parse.go`: one pass over the tokens that emits code, patches guards afterwards and fixes up branches last. */
module SedParser {
  import opened Basics
  import opened SedMachine
  import opened SedScript
  import opened SedSafety

  /** A branch to fix up once its label is known. */
  datatype Waiting = Waiting(ip: int, name: string, test: bool)

  function NodeWaits(n: Node, at: int, quiet: bool): seq<Waiting> {
    match n
    case Do(CBranch(to)) => [Waiting(at, Key(to), false)]
    case Do(CTest(to)) => [Waiting(at, Key(to), true)]
    case Guard(_, _, body) => BlockWaits(body, at + 1, quiet)
    case RangeGuard(_, _, _, body) => BlockWaits(body, at + 1, quiet)
    case _ => []
  }

  function BlockWaits(b: Block, at: int, quiet: bool): seq<Waiting> {
    match b
    case Nil => []
    case Cons(n, t) => NodeWaits(n, at, quiet) + BlockWaits(t, at + NodeSize(n, quiet), quiet)
  }

  function Resolved(w: Waiting, env: map<string, int>): Instr
    requires w.name in env
  {
    if w.test then ChangedBranch(env[w.name]) else Branch(env[w.name])
  }

  // ---- fixing up exactly the waiting branches turns placeholder code into final code ----

  /** Every waiting branch lies in the code placed at `at` and is resolved there. */
  ghost predicate AllResolved(waits: seq<Waiting>, code: seq<Instr>, at: int, env: map<string, int>) {
    forall k :: 0 <= k < |waits| ==>
      at <= waits[k].ip < at + |code| && waits[k].name in env && code[waits[k].ip - at] == Resolved(waits[k], env)
  }

  /** Only waiting branches differ between the placeholder code and the final code. */
  ghost predicate OnlyWaiting(waits: seq<Waiting>, raw: seq<Instr>, code: seq<Instr>, at: int) {
    && |raw| == |code|
    && forall j :: 0 <= j < |code| && raw[j] != code[j] ==> exists k :: 0 <= k < |waits| && waits[k].ip == at + j
  }

  ghost predicate FixedUp(waits: seq<Waiting>, raw: seq<Instr>, code: seq<Instr>, at: int, env: map<string, int>) {
    AllResolved(waits, code, at, env) && OnlyWaiting(waits, raw, code, at)
  }

  lemma AllResolvedConcat(w1: seq<Waiting>, c1: seq<Instr>, w2: seq<Waiting>, c2: seq<Instr>, at: int, env: map<string, int>)
    requires AllResolved(w1, c1, at, env) && AllResolved(w2, c2, at + |c1|, env)
    ensures AllResolved(w1 + w2, c1 + c2, at, env)
  {
    var w, c := w1 + w2, c1 + c2;
    forall k | 0 <= k < |w|
      ensures at <= w[k].ip < at + |c| && w[k].name in env && c[w[k].ip - at] == Resolved(w[k], env)
    {
      if k < |w1| {
        assert w[k] == w1[k];
      } else {
        assert w[k] == w2[k - |w1|];
      }
    }
  }

  lemma OnlyWaitingConcat(w1: seq<Waiting>, r1: seq<Instr>, c1: seq<Instr>, w2: seq<Waiting>, r2: seq<Instr>, c2: seq<Instr>, at: int)
    requires OnlyWaiting(w1, r1, c1, at) && OnlyWaiting(w2, r2, c2, at + |c1|)
    ensures OnlyWaiting(w1 + w2, r1 + r2, c1 + c2, at)
  {
    var w, r, c := w1 + w2, r1 + r2, c1 + c2;
    forall j | 0 <= j < |c| && r[j] != c[j] ensures exists k :: 0 <= k < |w| && w[k].ip == at + j {
      if j < |c1| {
        var k :| 0 <= k < |w1| && w1[k].ip == at + j;
        assert w[k] == w1[k];
      } else {
        assert r2[j - |c1|] != c2[j - |c1|];
        var k :| 0 <= k < |w2| && w2[k].ip == at + |c1| + (j - |c1|);
        assert w[|w1| + k] == w2[k];
      }
    }
  }

  lemma FixedUpConcat(w1: seq<Waiting>, r1: seq<Instr>, c1: seq<Instr>, w2: seq<Waiting>, r2: seq<Instr>, c2: seq<Instr>,
                      at: int, env: map<string, int>)
    requires FixedUp(w1, r1, c1, at, env) && FixedUp(w2, r2, c2, at + |c1|, env)
    ensures FixedUp(w1 + w2, r1 + r2, c1 + c2, at, env)
  {
    hide AllResolved, OnlyWaiting;
    AllResolvedConcat(w1, c1, w2, c2, at, env);
    OnlyWaitingConcat(w1, r1, c1, w2, r2, c2, at);
  }

  lemma FixedUpSame(code: seq<Instr>, at: int, env: map<string, int>)
    ensures FixedUp([], code, code, at, env)
  {
  }

  lemma {:induction false} NodeFixedUp(n: Node, at: int, quiet: bool, env: map<string, int>)
    requires NodeOk(n) && NodeUses(n) <= env.Keys
    ensures FixedUp(NodeWaits(n, at, quiet), NodeCode(n, at, quiet, map[]), NodeCode(n, at, quiet, env), at, env)
    decreases n
  {
    hide BlockCode, BlockWaits, BlockUses, FixedUp;
    match n
    case Do(c) => CommandFixedUp(c, at, quiet, env);
    case Label(_) => FixedUpSame([], at, env);
    case RangeChange(_, _, _) => FixedUpSame(NodeCode(n, at, quiet, env), at, env);
    case Guard(_, _, body) => GuardFixedUp(body, [NodeCode(n, at, quiet, env)[0]], at, quiet, env);
    case RangeGuard(_, _, _, body) => GuardFixedUp(body, [NodeCode(n, at, quiet, env)[0]], at, quiet, env);
  }

  lemma CommandFixedUp(c: Command, at: int, quiet: bool, env: map<string, int>)
    requires Accepted(c) && NodeUses(Do(c)) <= env.Keys
    ensures FixedUp(NodeWaits(Do(c), at, quiet), CommandCode(c, quiet, map[]), CommandCode(c, quiet, env), at, env)
  {
    if c.CBranch? || c.CTest? {
      assert NodeUses(Do(c)) == {Key(c.to)};
      assert NodeWaits(Do(c), at, quiet)[0].ip == at;
    } else {
      assert CommandCode(c, quiet, map[]) == CommandCode(c, quiet, env);
    }
  }

  lemma {:induction false} GuardFixedUp(body: Block, head: seq<Instr>, at: int, quiet: bool, env: map<string, int>)
    requires BlockOk(body) && BlockUses(body) <= env.Keys && |head| == 1
    ensures FixedUp(BlockWaits(body, at + 1, quiet),
                    head + BlockCode(body, at + 1, quiet, map[]), head + BlockCode(body, at + 1, quiet, env), at, env)
    decreases body, 1
  {
    hide BlockCode, BlockWaits, BlockUses, FixedUp;
    BlockFixedUp(body, at + 1, quiet, env);
    FixedUpSame(head, at, env);
    FixedUpConcat([], head, head, BlockWaits(body, at + 1, quiet), BlockCode(body, at + 1, quiet, map[]),
                  BlockCode(body, at + 1, quiet, env), at, env);
    assert [] + BlockWaits(body, at + 1, quiet) == BlockWaits(body, at + 1, quiet);
  }

  lemma {:induction false} BlockFixedUp(b: Block, at: int, quiet: bool, env: map<string, int>)
    requires BlockOk(b) && BlockUses(b) <= env.Keys
    ensures FixedUp(BlockWaits(b, at, quiet), BlockCode(b, at, quiet, map[]), BlockCode(b, at, quiet, env), at, env)
    decreases b, 0
  {
    hide NodeCode, NodeWaits, NodeUses, NodeOk, NodeSize, FixedUp;
    match b
    case Nil => FixedUpSame([], at, env);
    case Cons(n, t) =>
      NodeFixedUp(n, at, quiet, env);
      BlockFixedUp(t, at + NodeSize(n, quiet), quiet, env);
      FixedUpConcat(NodeWaits(n, at, quiet), NodeCode(n, at, quiet, map[]), NodeCode(n, at, quiet, env),
                    BlockWaits(t, at + NodeSize(n, quiet), quiet), BlockCode(t, at + NodeSize(n, quiet), quiet, map[]),
                    BlockCode(t, at + NodeSize(n, quiet), quiet, env), at, env);
  }

  /** The waiting branches name exactly the labels the tree branches to. */
  lemma {:induction false} NodeWaitNames(n: Node, at: int, quiet: bool)
    ensures (set w: Waiting | w in NodeWaits(n, at, quiet) :: w.name) == NodeUses(n)
    decreases n
  {
    match n
    case Guard(_, _, body) => WaitNames(body, at + 1, quiet);
    case RangeGuard(_, _, _, body) => WaitNames(body, at + 1, quiet);
    case Do(c) =>
      if c.CBranch? || c.CTest? {
        assert Waiting(at, Key(c.to), c.CTest?) in NodeWaits(n, at, quiet);
      }
    case _ =>
  }

  lemma {:induction false} WaitNames(b: Block, at: int, quiet: bool)
    ensures (set w: Waiting | w in BlockWaits(b, at, quiet) :: w.name) == BlockUses(b)
    decreases b
  {
    match b
    case Nil =>
    case Cons(n, t) =>
      var at' := at + NodeSize(n, quiet);
      NodeWaitNames(n, at, quiet);
      WaitNames(t, at', quiet);
      var w1, w2 := NodeWaits(n, at, quiet), BlockWaits(t, at', quiet);
      assert forall w :: w in w1 + w2 <==> w in w1 || w in w2;
      assert (set w: Waiting | w in w1 + w2 :: w.name) == (set w: Waiting | w in w1 :: w.name) + (set w: Waiting | w in w2 :: w.name);
  }

  // ---- the parser's output so far, and what each construct adds to it ----

  datatype Output = Output(ins: seq<Instr>, labels: map<string, int>, waits: seq<Waiting>)

  function EmitNode(o: Output, n: Node, quiet: bool): Output
    requires NodeOk(n)
  {
    var at := |o.ins|;
    Output(o.ins + NodeCode(n, at, quiet, map[]), o.labels + NodeLabels(n, at, quiet), o.waits + NodeWaits(n, at, quiet))
  }

  function Emit(o: Output, b: Block, quiet: bool): Output
    requires BlockOk(b)
  {
    var at := |o.ins|;
    Output(o.ins + BlockCode(b, at, quiet, map[]), o.labels + BlockLabels(b, at, quiet), o.waits + BlockWaits(b, at, quiet))
  }

  lemma EmitNil(o: Output, quiet: bool)
    ensures Emit(o, Nil, quiet) == o
  {
  }

  lemma EmitCons(o: Output, n: Node, t: Block, quiet: bool)
    requires NodeOk(n) && BlockOk(t)
    ensures Emit(o, Cons(n, t), quiet) == Emit(EmitNode(o, n, quiet), t, quiet)
  {
    hide NodeCode, NodeLabels, NodeWaits, NodeSize, NodeOk;
    var at := |o.ins|;
    var at' := at + NodeSize(n, quiet);
    assert BlockCode(Cons(n, t), at, quiet, map[]) == NodeCode(n, at, quiet, map[]) + BlockCode(t, at', quiet, map[]);
    assert BlockLabels(Cons(n, t), at, quiet) == NodeLabels(n, at, quiet) + BlockLabels(t, at', quiet);
    assert BlockWaits(Cons(n, t), at, quiet) == NodeWaits(n, at, quiet) + BlockWaits(t, at', quiet);
    hide BlockCode, BlockLabels, BlockWaits, BlockOk;
    Assoc(o.ins, NodeCode(n, at, quiet, map[]), BlockCode(t, at', quiet, map[]));
    MapAssoc(o.labels, NodeLabels(n, at, quiet), BlockLabels(t, at', quiet));
    Assoc(o.waits, NodeWaits(n, at, quiet), BlockWaits(t, at', quiet));
  }

  lemma MapAssoc(a: map<string, int>, b: map<string, int>, c: map<string, int>)
    ensures a + (b + c) == (a + b) + c
  {
  }

  /** A guard's instruction, then its body: patching the instruction completes the node. */
  lemma EmitGuarded(o: Output, n: Node, head: Instr, quiet: bool)
    requires NodeOk(n) && (n.Guard? || n.RangeGuard?)
    ensures var mid := Emit(o.(ins := o.ins + [head]), n.body, quiet);
            && |mid.ins| == |o.ins| + NodeSize(n, quiet)
            && mid.(ins := mid.ins[|o.ins| := NodeCode(n, |o.ins|, quiet, map[])[0]]) == EmitNode(o, n, quiet)
  {
    hide BlockCode, BlockLabels, BlockWaits, BlockSize, BlockOk;
    var at := |o.ins|;
    var body := BlockCode(n.body, at + 1, quiet, map[]);
    var code := NodeCode(n, at, quiet, map[]);
    assert code == [code[0]] + body;
    assert ((o.ins + [head]) + body)[at := code[0]] == o.ins + ([code[0]] + body);
  }

  datatype Final = FBad | FOpen | FOk(o: Output, rest: seq<Token>)

  ghost function FinalBlock(o: Output, r: Parsed<Block>, quiet: bool): Final
    requires r.Ok? ==> BlockOk(r.value)
  {
    match r
    case Bad => FBad
    case Open => FOpen
    case Ok(b, rest) => FOk(Emit(o, b, quiet), rest)
  }

  ghost function FinalNode(o: Output, r: Parsed<Node>, quiet: bool): Final
    requires r.Ok? ==> NodeOk(r.value)
  {
    match r
    case Bad => FBad
    case Open => FOpen
    case Ok(n, rest) => FOk(EmitNode(o, n, quiet), rest)
  }

  ghost function AtBlock(o: Output, toks: seq<Token>, top: bool, quiet: bool): Final {
    ParsedOk(toks, top);
    FinalBlock(o, ParseBlock(toks, top), quiet)
  }

  ghost function AtNode(o: Output, toks: seq<Token>, quiet: bool): Final
    requires toks != []
  {
    NodeParsedOk(toks);
    FinalNode(o, ParseNode(toks), quiet)
  }

  ghost function AtGuard(o: Output, c: Cond, toks: seq<Token>, quiet: bool): Final {
    GuardParsedOk(c, toks);
    FinalNode(o, ParseGuard(c, toks), quiet)
  }

  ghost function AtRange(o: Output, c: Cond, toks: seq<Token>, quiet: bool): Final {
    RangeParsedOk(c, toks);
    FinalNode(o, ParseRange(c, toks), quiet)
  }

  ghost function AfterRange(o: Output, c1: Cond, c2: Cond, toks: seq<Token>, quiet: bool): Final {
    RangeTailOk(c1, c2, toks);
    FinalNode(o, ParseRangeTail(c1, c2, toks), quiet)
  }

  ghost function AtBody(o: Output, toks: seq<Token>, quiet: bool): Final {
    BodyParsedOk(toks);
    FinalBlock(o, ParseBody(toks), quiet)
  }

  /** One turn of the top-level loop, as the grammar sees it. */
  lemma BlockTurn(o: Output, toks: seq<Token>, top: bool, quiet: bool)
    requires toks != [] && !toks[0].TEol? && !toks[0].TRBrace?
    ensures AtBlock(o, toks, top, quiet) == match AtNode(o, toks, quiet)
                                            case FBad => FBad
                                            case FOpen => FOpen
                                            case FOk(o', rest) => AtBlock(o', rest, top, quiet)
  {
    hide ParseNode, Emit, EmitNode, NodeOk;
    NodeParsedOk(toks);
    ParsedOk(toks, top);
    match ParseNode(toks)
    case Bad =>
    case Open =>
    case Ok(n, rest) =>
      ParsedOk(rest, top);
      match ParseBlock(rest, top)
      case Bad =>
      case Open =>
      case Ok(b, rest') => EmitCons(o, n, b, quiet);
  }

  lemma NoBody()
    ensures ParseBody([]) == Bad
  {
  }

  lemma EmitOne(o: Output, c: Command, quiet: bool)
    requires Accepted(c)
    ensures Emit(o, Cons(Do(c), Nil), quiet) == EmitNode(o, Do(c), quiet)
  {
    hide Emit, EmitNode;
    EmitCons(o, Do(c), Nil, quiet);
    EmitNil(EmitNode(o, Do(c), quiet), quiet);
  }

  lemma EmitLabel(o: Output, name: string, quiet: bool)
    ensures EmitNode(o, Label(name), quiet) == o.(labels := o.labels[name := |o.ins|])
  {
    assert o.labels[name := |o.ins|] == o.labels + map[name := |o.ins|];
  }

  lemma EmitRangeChange(o: Output, c1: Cond, c2: Cond, text: string, quiet: bool)
    ensures EmitNode(o, RangeChange(c1, c2, text), quiet)
         == o.(ins := o.ins + [TwoCond(c1, c2, |o.ins| + 1, |o.ins| + 2), Change(text, Some(|o.ins|))])
  {
  }

  /** After the body of a one-address guard: patching its instruction gives what the grammar asks for. */
  lemma GuardDone(o: Output, c: Cond, negated: bool, toks: seq<Token>, head: Instr, quiet: bool)
    ensures match AtBody(o.(ins := o.ins + [head]), toks, quiet)
            case FOk(mid, rest) =>
              var n := Guard(c, negated, ParseBody(toks).value);
              && ParseBody(toks).Ok? && NodeOk(n) && ParseBody(toks).rest == rest
              && mid.(ins := mid.ins[|o.ins| := if negated then OneCond(c, |mid.ins|, |o.ins| + 1)
                                                else OneCond(c, |o.ins| + 1, |mid.ins|)]) == EmitNode(o, n, quiet)
            case _ => true
  {
    hide ParseBody, Emit, EmitNode;
    BodyParsedOk(toks);
    if ParseBody(toks).Ok? {
      EmitGuarded(o, Guard(c, negated, ParseBody(toks).value), head, quiet);
    }
  }

  lemma RangeDone(o: Output, c1: Cond, c2: Cond, negated: bool, toks: seq<Token>, head: Instr, quiet: bool)
    ensures match AtBody(o.(ins := o.ins + [head]), toks, quiet)
            case FOk(mid, rest) =>
              var n := RangeGuard(c1, c2, negated, ParseBody(toks).value);
              && ParseBody(toks).Ok? && NodeOk(n) && ParseBody(toks).rest == rest
              && mid.(ins := mid.ins[|o.ins| := if negated then TwoCond(c1, c2, |mid.ins|, |o.ins| + 1)
                                                else TwoCond(c1, c2, |o.ins| + 1, |mid.ins|)]) == EmitNode(o, n, quiet)
            case _ => true
  {
    hide ParseBody, Emit, EmitNode;
    BodyParsedOk(toks);
    if ParseBody(toks).Ok? {
      EmitGuarded(o, RangeGuard(c1, c2, negated, ParseBody(toks).value), head, quiet);
    }
  }

  /** The guarded body of a range, without or after the negation. */
  ghost function AtRangeBody(o: Output, c1: Cond, c2: Cond, negated: bool, toks: seq<Token>, quiet: bool): Final {
    BodyParsedOk(toks);
    match ParseBody(toks)
    case Bad => FBad
    case Open => FOpen
    case Ok(body, rest) => FOk(EmitNode(o, RangeGuard(c1, c2, negated, body), quiet), rest)
  }

  lemma RangeIsBody(o: Output, c1: Cond, c2: Cond, toks: seq<Token>, quiet: bool)
    requires toks != [] && !toks[0].TChange?
    ensures var negated := toks[0].TBang?;
      AfterRange(o, c1, c2, toks, quiet) == AtRangeBody(o, c1, c2, negated, if negated then toks[1..] else toks, quiet)
  {
    hide ParseBody, EmitNode;
  }

  // ---- the parser itself ----

  datatype ParseError =
    | MissingBrace
    | UnknownLabel
    | UnexpectedEnd
    | UnexpectedBrace
    | UnexpectedToken
    | BadAddress
    | BadCommand
    | BadLabel

  /** Both label tables hold branches to the same addresses. */
  ghost predicate Tables(b: map<string, Instr>, t: map<string, Instr>, labels: map<string, int>) {
    && b.Keys == labels.Keys && t.Keys == labels.Keys
    && forall k :: k in labels ==> b[k] == Branch(labels[k]) && t[k] == ChangedBranch(labels[k])
  }

  lemma TablesAdd(b: map<string, Instr>, t: map<string, Instr>, labels: map<string, int>, name: string, at: int)
    requires Tables(b, t, labels)
    ensures Tables(b[name := Branch(at)], t[name := ChangedBranch(at)], labels[name := at])
  {
  }

  class ParseState {
    var toks: seq<Token>
    var ins: seq<Instr>
    var branches: seq<Waiting>
    var bLabels: map<string, Instr>
    var tLabels: map<string, Instr>
    var blockLevel: int
    const quiet: bool
    var err: Option<ParseError>

    ghost var labels: map<string, int>  // the addresses behind the two label tables

    constructor (input: seq<Token>, quiet: bool)
      ensures toks == input && this.quiet == quiet && err == None && blockLevel == 0
      ensures Tied() && Out() == Output([], map[], [])
    {
      toks, ins, branches, bLabels, tLabels, blockLevel := input, [], [], map[], map[], 0;
      this.quiet := quiet;
      err := None;
      labels := map[];
    }

    ghost predicate Tied()
      reads this
    {
      Tables(bLabels, tLabels, labels)
    }

    ghost function Out(): Output
      reads this
    {
      Output(ins, labels, branches)
    }

    /** What a parsing step promises, given what the grammar makes of the tokens it started from. */
    ghost predicate Reached(f: Final, level: int)
      reads this
    {
      match f
      case FBad => err.Some?
      case FOpen => err.None? && toks == [] && blockLevel > 0 && Tied()
      case FOk(o, rest) => err.None? && toks == rest && Out() == o && blockLevel == level && Tied()
    }

    method MustGetToken() returns (t: Option<Token>)
      requires err.None?
      modifies `toks, `err
      ensures old(toks) == [] ==> t.None? && err.Some? && toks == []
      ensures old(toks) != [] ==> t == Some(old(toks)[0]) && toks == old(toks)[1..] && err.None?
    {
      if toks == [] {
        err := Some(UnexpectedEnd);
        return None;
      }
      t := Some(toks[0]);
      toks := toks[1..];
    }

    /** `compile_cmd`: a branch is queued for fix-up and leaves a placeholder. */
    method CompileCmd(c: Command)
      requires err.None? && Tied()
      modifies `ins, `branches, `err
      ensures err.None? <==> Accepted(c)
      ensures Accepted(c) ==> Out() == EmitNode(old(Out()), Do(c), quiet)
      ensures old(ins) <= ins
    {
      if !Accepted(c) {
        err := Some(BadCommand);
        return;
      }
      if c.CBranch? || c.CTest? {
        branches := branches + [Waiting(|ins|, Key(c.to), c.CTest?)];
      }
      ins := ins + CommandCode(c, quiet, map[]);
      assert labels + map[] == labels;
    }

    /** `compile_label`: both label tables get a branch to the current address. */
    method CompileLabel(name: string)
      requires err.None? && Tied()
      modifies `bLabels, `tLabels, `labels, `err
      ensures err.None? <==> name != ""
      ensures name != "" ==> Tied() && Out() == EmitNode(old(Out()), Label(name), quiet)
    {
      hide EmitNode, Tables;
      if |name| == 0 {
        err := Some(BadLabel);
        return;
      }
      EmitLabel(Out(), name, quiet);
      TablesAdd(bLabels, tLabels, labels, name, |ins|);
      bLabels := bLabels[name := Branch(|ins|)];
      tLabels := tLabels[name := ChangedBranch(|ins|)];
      labels := labels[name := |ins|];
    }

    /** `compile_block`: a braced block, or one command. */
    method CompileBlock(t: Token)
      requires err.None? && Tied() && blockLevel >= 0
      modifies this
      ensures Reached(AtBody(old(Out()), [t] + old(toks), quiet), old(blockLevel))
      ensures |toks| <= old(|toks|) && old(ins) <= ins
      decreases |toks|, 2
    {
      hide ParseBlock, Emit, Tables;
      ghost var all := [t] + toks;
      assert all[0] == t && all[1..] == toks;
      match t
      case TLBrace =>
        blockLevel := blockLevel + 1;
        ParseToplevel();
      case TCmd(c) =>
        CompileCmd(c);
        if Accepted(c) {
          EmitOne(old(Out()), c, quiet);
        }
      case TChange(text) =>
        CompileCmd(CChange(text));
        EmitOne(old(Out()), CChange(text), quiet);
      case _ =>
        err := Some(UnexpectedToken);
    }

    /** `parse_toplevel`: commands up to the end of the script or the brace that closes the block. */
    method ParseToplevel()
      requires err.None? && Tied() && blockLevel >= 0
      modifies this
      ensures Reached(AtBlock(old(Out()), old(toks), old(blockLevel) == 0, quiet),
                      if old(blockLevel) == 0 then 0 else old(blockLevel) - 1)
      ensures |toks| <= old(|toks|) && old(ins) <= ins
      decreases |toks|, 1
    {
      hide ParseNode, Emit, EmitNode, Tables;
      ghost var level := blockLevel;
      ghost var start := AtBlock(Out(), toks, level == 0, quiet);
      while toks != []
        invariant err.None? && Tied() && |toks| <= old(|toks|) && old(ins) <= ins && blockLevel >= 0
        invariant (blockLevel == level && start == AtBlock(Out(), toks, level == 0, quiet))
               || (start == FOpen && toks == [] && blockLevel > 0)
        decreases |toks|
      {
        var t := toks[0];
        if t.TEol? {
          toks := toks[1..];
        } else if t.TRBrace? {
          toks := toks[1..];
          if blockLevel == 0 {
            err := Some(UnexpectedBrace);
          }
          blockLevel := blockLevel - 1;
          EmitNil(Out(), quiet);
          return;
        } else {
          BlockTurn(Out(), toks, level == 0, quiet);
          Turn();
          if err.Some? {
            return;
          }
        }
      }
      EmitNil(Out(), quiet);
    }

    /** One token of the top-level loop other than a separator or a brace. */
    method Turn()
      requires err.None? && Tied() && blockLevel >= 0 && toks != [] && !toks[0].TEol? && !toks[0].TRBrace?
      modifies this
      ensures Reached(AtNode(old(Out()), old(toks), quiet), old(blockLevel))
      ensures |toks| < old(|toks|) && old(ins) <= ins
      decreases |toks|, 0
    {
      hide ParseGuard, Emit, EmitNode, Tables;
      var t := toks[0];
      toks := toks[1..];
      if t.TCmd? {
        CompileCmd(t.cmd);
      } else if t.TLabel? {
        CompileLabel(t.name);
      } else {
        var c := TokenCond(t);
        if c.None? {
          err := Some(if t.TNum? || t.TRegex? then BadAddress else UnexpectedToken);
        } else {
          CompileCond(c.value);
        }
      }
    }

    /** `compile_cond`: an address, perhaps a range or negated, whose jump over the body is patched afterwards. */
    method CompileCond(c: Cond)
      requires err.None? && Tied() && blockLevel >= 0
      modifies this
      ensures Reached(AtGuard(old(Out()), c, old(toks), quiet), old(blockLevel))
      ensures |toks| <= old(|toks|) && old(ins) <= ins
      decreases |toks|, 5
    {
      hide ParseRange, ParseBody, Emit, EmitNode, Tables;
      var t := MustGetToken();
      if t.None? {
        return;
      }
      if t.value.TComma? {
        CompileTwoCond(c);
        return;
      }
      var negated := t.value.TBang?;
      if negated {
        t := MustGetToken();
        if t.None? {
          NoBody();
          return;
        }
      }
      ghost var o, before := Out(), if negated then old(toks)[1..] else old(toks);
      assert before == [t.value] + toks;
      var at := |ins|;
      ins := ins + [if negated then OneCond(c, 0, at + 1) else OneCond(c, at + 1, 0)];
      ghost var head := ins[at];
      CompileBlock(t.value);
      GuardDone(o, c, negated, before, head, quiet);
      ins := ins[at := if negated then OneCond(c, |ins|, at + 1) else OneCond(c, at + 1, |ins|)];
    }

    /** `compile_twocond`: the second address, then a body as for one address; `c` talks to its range. */
    method CompileTwoCond(c1: Cond)
      requires err.None? && Tied() && blockLevel >= 0
      modifies this
      ensures Reached(AtRange(old(Out()), c1, old(toks), quiet), old(blockLevel))
      ensures |toks| <= old(|toks|) && old(ins) <= ins
      decreases |toks|, 4
    {
      hide ParseRangeTail, Emit, EmitNode, Tables;
      var t := MustGetToken();
      if t.None? {
        return;
      }
      var c2 := TokenCond(t.value);
      if c2.None? {
        err := Some(BadAddress);
        return;
      }
      CompileRange(c1, c2.value);
    }

    /** A change command tied to its range. */
    method CompileChange(c1: Cond, c2: Cond, text: string)
      requires Tied()
      modifies `ins
      ensures Out() == EmitNode(old(Out()), RangeChange(c1, c2, text), quiet) && old(ins) <= ins && Tied()
    {
      hide EmitNode, Tables;
      var at := |ins|;
      ins := ins + [TwoCond(c1, c2, at + 1, 0), Change(text, Some(at))];
      ins := ins[at := TwoCond(c1, c2, at + 1, |ins|)];
      EmitRangeChange(old(Out()), c1, c2, text, quiet);
    }

    /** What follows the second address. */
    method CompileRange(c1: Cond, c2: Cond)
      requires err.None? && Tied() && blockLevel >= 0
      modifies this
      ensures Reached(AfterRange(old(Out()), c1, c2, old(toks), quiet), old(blockLevel))
      ensures |toks| <= old(|toks|) && old(ins) <= ins
      decreases |toks|, 4
    {
      hide ParseBody, Emit, EmitNode, Tables;
      var t := MustGetToken();
      if t.None? {
        return;
      }
      var at := |ins|;
      if t.value.TChange? {
        CompileChange(c1, c2, t.value.text);
        return;
      }
      RangeIsBody(old(Out()), c1, c2, old(toks), quiet);
      hide AfterRange;
      var negated := t.value.TBang?;
      if negated {
        t := MustGetToken();
        if t.None? {
          NoBody();
          return;
        }
      }
      assert (if negated then old(toks)[1..] else old(toks)) == [t.value] + toks;
      CompileRanged(c1, c2, negated, t.value);
    }

    /** The guard of a range and its body, whose jump is patched once the body's end is known. */
    method CompileRanged(c1: Cond, c2: Cond, negated: bool, t: Token)
      requires err.None? && Tied() && blockLevel >= 0
      modifies this
      ensures Reached(AtRangeBody(old(Out()), c1, c2, negated, [t] + old(toks), quiet), old(blockLevel))
      ensures |toks| <= old(|toks|) && old(ins) <= ins
      decreases |toks|, 3
    {
      hide ParseBody, Emit, EmitNode, Tables;
      var at := |ins|;
      ghost var o, before := Out(), [t] + toks;
      ins := ins + [if negated then TwoCond(c1, c2, 0, at + 1) else TwoCond(c1, c2, at + 1, 0)];
      ghost var head := ins[at];
      CompileBlock(t);
      RangeDone(o, c1, c2, negated, before, head, quiet);
      ins := ins[at := if negated then TwoCond(c1, c2, |ins|, at + 1) else TwoCond(c1, c2, at + 1, |ins|)];
    }

    /** The end of the program: its label in both tables, the automatic print and the loop back. */
    method AddEnd(ghost b: Block)
      requires Tied() && BlockOk(b) && ins == [Fill] + BlockCode(b, 1, quiet, map[]) && labels == BlockLabels(b, 1, quiet)
      modifies `ins, `bLabels, `tLabels, `labels
      ensures Tied() && ins == Program(b, quiet, map[]) && labels == Env(b, quiet)
    {
      hide BlockCode, BlockLabels, Tables, BlockOk;
      TablesAdd(bLabels, tLabels, labels, END_OF_PROGRAM, |ins|);
      bLabels := bLabels[END_OF_PROGRAM := Branch(|ins|)];
      tLabels := tLabels[END_OF_PROGRAM := ChangedBranch(|ins|)];
      labels := labels[END_OF_PROGRAM := |ins|];
      if !quiet {
        ins := ins + [Print];
      }
      ins := ins + [Branch(0)];
    }

    /** `parse_resolveBranches`: each waiting branch is replaced in place; an unknown label is an error. */
    method ResolveBranches(ghost code: seq<Instr>)
      requires err.None? && Tied()
      requires forall k :: 0 <= k < |branches| ==> 0 <= branches[k].ip < |ins|
      requires Known(branches, labels) ==> FixedUp(branches, ins, code, 0, labels)
      modifies `ins, `err
      ensures err.None? <==> Known(branches, labels)
      ensures err.None? ==> ins == code
    {
      hide Known, Halfway, FixedUp, Tables;
      ghost var raw := ins;
      if Known(branches, labels) {
        HalfwayStart(branches, raw, code, labels);
      }
      KnownNone(branches, labels);
      var idx := 0;
      while idx < |branches|
        invariant 0 <= idx <= |branches| && |ins| == |raw| && err.None?
        invariant Known(branches[..idx], labels)
        invariant Known(branches, labels) ==> Halfway(branches, raw, ins, code, idx)
      {
        var w := branches[idx];
        var table := if w.test then tLabels else bLabels;
        TableLookup(bLabels, tLabels, labels, w);
        KnownOne(branches, labels, idx);
        if w.name !in table {
          err := Some(UnknownLabel);
          return;
        }
        if Known(branches, labels) {
          HalfwayStep(branches, raw, ins, code, idx, labels);
        }
        ins := ins[w.ip := table[w.name]];
        idx := idx + 1;
      }
      assert branches[..idx] == branches;
      AllDone(branches, raw, ins, code, labels);
    }
  }

  /** `parse` accepts exactly the scripts of the grammar whose labels are all known, and produces their code. */
  method Parse(input: seq<Token>, quiet: bool) returns (r: Option<seq<Instr>>)
    ensures r == Compile(input, quiet)
  {
    hide ParseBlock, BlockCode, BlockLabels, BlockWaits, BlockUses, BlockOk, BlockSize, FixedUp, Tables, Program, Env, Known;
    var ps := new ParseState(input, quiet);
    ps.ins := [Fill];
    ps.ParseToplevel();
    if ps.err.None? && ps.blockLevel > 0 {
      ps.err := Some(MissingBrace);
    }
    if ps.err.Some? {
      return None;
    }
    ghost var b := ParseBlock(input, true).value;
    ghost var env := Env(b, quiet);
    ParsedOk(input, true);
    FirstInstruction(b, quiet);
    ps.AddEnd(b);
    KnownIsUses(b, quiet, env);
    WaitsInside(b, quiet);
    if BlockUses(b) <= env.Keys {
      ProgramFixedUp(b, quiet, env);
    }
    ps.ResolveBranches(Program(b, quiet, env));
    return if ps.err.None? then Some(ps.ins) else None;
  }

  lemma FirstInstruction(b: Block, quiet: bool)
    requires BlockOk(b)
    ensures var o := Emit(Output([Fill], map[], []), b, quiet);
      o.ins == [Fill] + BlockCode(b, 1, quiet, map[]) && o.labels == BlockLabels(b, 1, quiet) && o.waits == BlockWaits(b, 1, quiet)
  {
    hide BlockCode, BlockLabels, BlockWaits;
    assert map[] + BlockLabels(b, 1, quiet) == BlockLabels(b, 1, quiet);
    assert [] + BlockWaits(b, 1, quiet) == BlockWaits(b, 1, quiet);
  }

  ghost predicate Known(waits: seq<Waiting>, labels: map<string, int>) {
    forall k :: 0 <= k < |waits| ==> waits[k].name in labels
  }

  /** The first `n` waiting branches are final, and every other place is untouched or final. */
  ghost predicate Halfway(waits: seq<Waiting>, raw: seq<Instr>, now: seq<Instr>, code: seq<Instr>, n: int) {
    && |raw| == |now| == |code| && n <= |waits|
    && (forall j :: 0 <= j < |now| ==> now[j] == raw[j] || now[j] == code[j])
    && (forall k :: 0 <= k < n ==> 0 <= waits[k].ip < |now| && now[waits[k].ip] == code[waits[k].ip])
  }

  lemma KnownNone(waits: seq<Waiting>, labels: map<string, int>)
    ensures Known(waits[..0], labels)
  {
  }

  lemma KnownOne(waits: seq<Waiting>, labels: map<string, int>, n: nat)
    requires n < |waits|
    ensures Known(waits, labels) ==> waits[n].name in labels
    ensures Known(waits[..n], labels) && waits[n].name in labels ==> Known(waits[..n + 1], labels)
  {
  }

  lemma TableLookup(b: map<string, Instr>, t: map<string, Instr>, labels: map<string, int>, w: Waiting)
    requires Tables(b, t, labels)
    ensures var table := if w.test then t else b;
            (w.name in table <==> w.name in labels) && (w.name in labels ==> table[w.name] == Resolved(w, labels))
  {
  }

  lemma HalfwayStart(waits: seq<Waiting>, raw: seq<Instr>, code: seq<Instr>, env: map<string, int>)
    requires FixedUp(waits, raw, code, 0, env)
    ensures Halfway(waits, raw, raw, code, 0)
  {
  }

  lemma HalfwayStep(waits: seq<Waiting>, raw: seq<Instr>, now: seq<Instr>, code: seq<Instr>, n: nat, env: map<string, int>)
    requires Halfway(waits, raw, now, code, n) && n < |waits| && FixedUp(waits, raw, code, 0, env)
    ensures 0 <= waits[n].ip < |now| && waits[n].name in env
    ensures Halfway(waits, raw, now[waits[n].ip := Resolved(waits[n], env)], code, n + 1)
  {
    hide OnlyWaiting;
    assert code[waits[n].ip - 0] == Resolved(waits[n], env);
  }

  lemma AllDone(waits: seq<Waiting>, raw: seq<Instr>, now: seq<Instr>, code: seq<Instr>, env: map<string, int>)
    requires Halfway(waits, raw, now, code, |waits|) && FixedUp(waits, raw, code, 0, env)
    ensures now == code
  {
    hide AllResolved;
    forall j | 0 <= j < |now| ensures now[j] == code[j] {
      if raw[j] != code[j] {
        var k :| 0 <= k < |waits| && waits[k].ip == 0 + j;
      }
    }
  }

  lemma KnownIsUses(b: Block, quiet: bool, env: map<string, int>)
    ensures Known(BlockWaits(b, 1, quiet), env) <==> BlockUses(b) <= env.Keys
  {
    hide BlockWaits, BlockUses;
    var waits := BlockWaits(b, 1, quiet);
    WaitNames(b, 1, quiet);
    forall k | 0 <= k < |waits| ensures waits[k].name in BlockUses(b) {
      assert waits[k] in waits;
    }
    forall u | u in BlockUses(b) ensures exists k :: 0 <= k < |waits| && waits[k].name == u {
      var w :| w in waits && w.name == u;
    }
  }

  lemma WaitsInside(b: Block, quiet: bool)
    requires BlockOk(b)
    ensures var waits := BlockWaits(b, 1, quiet);
            forall k :: 0 <= k < |waits| ==> 0 <= waits[k].ip < |Program(b, quiet, map[])|
  {
    hide BlockCode, BlockWaits, BlockUses;
    BlockFixedUp(b, 1, quiet, map u | u in BlockUses(b) :: 0);
  }

  lemma ProgramFixedUp(b: Block, quiet: bool, env: map<string, int>)
    requires BlockOk(b) && BlockUses(b) <= env.Keys
    ensures FixedUp(BlockWaits(b, 1, quiet), Program(b, quiet, map[]), Program(b, quiet, env), 0, env)
  {
    hide BlockCode, BlockWaits, BlockUses, FixedUp;
    var waits := BlockWaits(b, 1, quiet);
    BlockFixedUp(b, 1, quiet, env);
    FixedUpSame([Fill], 0, env);
    FixedUpConcat([], [Fill], [Fill], waits, BlockCode(b, 1, quiet, map[]), BlockCode(b, 1, quiet, env), 0, env);
    FixedUpSame(Trailer(quiet), 1 + BlockSize(b, quiet), env);
    FixedUpConcat([] + waits, [Fill] + BlockCode(b, 1, quiet, map[]), [Fill] + BlockCode(b, 1, quiet, env),
                  [], Trailer(quiet), Trailer(quiet), 0, env);
    assert [] + waits + [] == waits;
  }

  /**
    In an accepted script every branch jumps to the instruction that follows the last occurrence of its
    label, or, without a label, to the automatic print (or the loop back) at the end of the program.
  */
  lemma BranchTargets(input: seq<Token>, quiet: bool, k: nat)
    requires Compile(input, quiet).Some?
    requires k < |BlockWaits(ParseBlock(input, true).value, 1, quiet)|
    ensures var b := ParseBlock(input, true).value;
            var w := BlockWaits(b, 1, quiet)[k];
            var p := Compile(input, quiet).value;
            var target := if w.name == END_OF_PROGRAM then Some(BlockSize(b, quiet)) else Before(BlockItems(b, quiet), w.name);
            && target.Some? && 0 <= w.ip < |p|
            && p[w.ip] == if w.test then ChangedBranch(1 + target.value) else Branch(1 + target.value)
  {
    hide BlockCode, BlockWaits, BlockUses, BlockLabels, BlockItems;
    ParsedOk(input, true);
    var b := ParseBlock(input, true).value;
    ProgramFixedUp(b, quiet, Env(b, quiet));
    BlockAddress(b, 1, quiet, BlockWaits(b, 1, quiet)[k].name);
  }
}
