/**
  sed scripts as command trees: the grammar over the lexer's tokens, and the code of a tree with
  every jump target already known.
*/
module SedScript {
  import opened Basics
  import opened SedMachine

  /** A command with its arguments; `None` marks an argument the constructor of the command rejects. */
  datatype Command =
    | CLineNo
    | CDeleteFirst
    | CGetAppend
    | CHoldAppend
    | CNextAppend
    | CPrintFirst
    | CAppend(text: string)
    | CBranch(to: string)
    | CTest(to: string)
    | CChange(text: string)
    | CDelete
    | CGet
    | CHold
    | CInsert(text: string)
    | CNext
    | CPrint
    | CQuit
    | CReadFile(content: Option<string>)
    | CSubstitute(replace: Option<string -> Option<string>>, printing: bool)
    | CWriteFile(file: string)
    | CSwap
    | CTranslate(translate: Option<string -> string>)
    | CUnknown

  datatype Token =
    | TNum(number: Option<int>)
    | TRegex(matches: Option<string -> bool>)
    | TComma
    | TBang
    | TDollar
    | TLBrace
    | TRBrace
    | TEol
    | TCmd(cmd: Command)
    | TChange(text: string)
    | TLabel(name: string)

  datatype Node =
    | Do(cmd: Command)
    | Label(name: string)
    | Guard(cond: Cond, negated: bool, body: Block)
    | RangeGuard(start: Cond, end: Cond, negated: bool, body: Block)
    | RangeChange(start: Cond, end: Cond, text: string)

  datatype Block = Nil | Cons(head: Node, tail: Block)

  // ---- the grammar ----

  /** `Open` is a block whose closing brace is missing when the script ends. */
  datatype Parsed<T> = Bad | Open | Ok(value: T, rest: seq<Token>)

  predicate Accepted(c: Command) {
    match c
    case CReadFile(None) => false
    case CSubstitute(None, _) => false
    case CTranslate(None) => false
    case CUnknown => false
    case _ => true
  }

  function TokenCond(t: Token): Option<Cond> {
    match t
    case TNum(Some(n)) => Some(LineNo(n))
    case TDollar => Some(LastLine)
    case TRegex(Some(m)) => Some(Regex(m))
    case _ => None
  }

  /** A sequence of commands up to the end of the script (`top`) or to the closing brace. */
  function ParseBlock(toks: seq<Token>, top: bool): (r: Parsed<Block>)
    ensures r.Ok? ==> |r.rest| <= |toks| && (!top ==> |r.rest| < |toks|) && (top ==> r.rest == [])
    decreases |toks|, 0
  {
    if toks == [] then if top then Ok(Nil, []) else Open
    else if toks[0].TEol? then ParseBlock(toks[1..], top)
    else if toks[0].TRBrace? then if top then Bad else Ok(Nil, toks[1..])
    else
      match ParseNode(toks)
      case Bad => Bad
      case Open => Open
      case Ok(n, rest) =>
        match ParseBlock(rest, top)
        case Bad => Bad
        case Open => Open
        case Ok(b, rest) => Ok(Cons(n, b), rest)
  }

  function ParseNode(toks: seq<Token>): (r: Parsed<Node>)
    requires toks != []
    ensures r.Ok? ==> |r.rest| < |toks|
    decreases |toks| - 1, 4
  {
    var t, rest := toks[0], toks[1..];
    match t
    case TCmd(c) => if Accepted(c) then Ok(Do(c), rest) else Bad
    case TLabel(name) => if name == "" then Bad else Ok(Label(name), rest)
    case _ =>
      match TokenCond(t)
      case None => Bad
      case Some(c) => ParseGuard(c, rest)
  }

  function ParseGuard(c: Cond, toks: seq<Token>): (r: Parsed<Node>)
    ensures r.Ok? ==> |r.rest| < |toks|
    decreases |toks|, 3
  {
    if toks == [] then Bad
    else if toks[0].TComma? then ParseRange(c, toks[1..])
    else
      var negated := toks[0].TBang?;
      match ParseBody(if negated then toks[1..] else toks)
      case Bad => Bad
      case Open => Open
      case Ok(body, rest) => Ok(Guard(c, negated, body), rest)
  }

  function ParseRange(c1: Cond, toks: seq<Token>): (r: Parsed<Node>)
    ensures r.Ok? ==> |r.rest| < |toks|
    decreases |toks|, 2
  {
    if toks == [] then Bad
    else
      match TokenCond(toks[0])
      case None => Bad
      case Some(c2) => ParseRangeTail(c1, c2, toks[1..])
  }

  function ParseRangeTail(c1: Cond, c2: Cond, toks: seq<Token>): (r: Parsed<Node>)
    ensures r.Ok? ==> |r.rest| < |toks|
    decreases |toks|, 2
  {
    if toks == [] then Bad
    else if toks[0].TChange? then Ok(RangeChange(c1, c2, toks[0].text), toks[1..])
    else
      var negated := toks[0].TBang?;
      match ParseBody(if negated then toks[1..] else toks)
      case Bad => Bad
      case Open => Open
      case Ok(body, rest) => Ok(RangeGuard(c1, c2, negated, body), rest)
  }

  /** What a guard governs: a braced block or one command. */
  function ParseBody(toks: seq<Token>): (r: Parsed<Block>)
    ensures r.Ok? ==> |r.rest| < |toks|
    decreases |toks|, 1
  {
    if toks == [] then Bad
    else
      match toks[0]
      case TLBrace => ParseBlock(toks[1..], false)
      case TCmd(c) => if Accepted(c) then Ok(Cons(Do(c), Nil), toks[1..]) else Bad
      case TChange(text) => Ok(Cons(Do(CChange(text)), Nil), toks[1..])
      case _ => Bad
  }

  // ---- code ----

  const END_OF_PROGRAM := "the end"

  function Key(to: string): string {
    if to == "" then END_OF_PROGRAM else to
  }

  function Target(env: map<string, int>, to: string): int {
    if Key(to) in env then env[Key(to)] else 0
  }

  /** The instructions of one command; a branch whose label is not in `env` stays a branch to 0. */
  function CommandCode(c: Command, quiet: bool, env: map<string, int>): (code: seq<Instr>)
    requires Accepted(c)
    ensures 1 <= |code| <= 2
  {
    match c
    case CLineNo => [PrintLineNo]
    case CDeleteFirst => [DeleteFirst]
    case CGetAppend => [GetAppend]
    case CHoldAppend => [HoldAppend]
    case CNextAppend => [FillAppend]
    case CPrintFirst => [PrintFirst]
    case CAppend(text) => [Append(text)]
    case CBranch(to) => [Branch(Target(env, to))]
    case CTest(to) => if Key(to) in env then [ChangedBranch(env[Key(to)])] else [Branch(0)]
    case CChange(text) => [Change(text, None)]
    case CDelete => [Branch(0)]
    case CGet => [Get]
    case CHold => [Hold]
    case CInsert(text) => [Insert(text)]
    case CNext => if quiet then [Fill] else [Print, Fill]
    case CPrint => [Print]
    case CQuit => if quiet then [Quit] else [Print, Quit]
    case CReadFile(content) => [Append(content.value)]
    case CSubstitute(f, printing) => [Substitute(f.value, printing)]
    case CWriteFile(file) => [WriteTo(file)]
    case CSwap => [Swap]
    case CTranslate(f) => [Translate(f.value)]
  }

  predicate NodeOk(n: Node) {
    match n
    case Do(c) => Accepted(c)
    case Guard(_, _, body) => BlockOk(body)
    case RangeGuard(_, _, _, body) => BlockOk(body)
    case _ => true
  }

  predicate BlockOk(b: Block) {
    b.Cons? ==> NodeOk(b.head) && BlockOk(b.tail)
  }

  function CommandSize(c: Command, quiet: bool): nat {
    if !quiet && (c.CNext? || c.CQuit?) then 2 else 1
  }

  function NodeSize(n: Node, quiet: bool): nat {
    match n
    case Do(c) => CommandSize(c, quiet)
    case Label(_) => 0
    case Guard(_, _, body) => 1 + BlockSize(body, quiet)
    case RangeGuard(_, _, _, body) => 1 + BlockSize(body, quiet)
    case RangeChange(_, _, _) => 2
  }

  function BlockSize(b: Block, quiet: bool): nat {
    match b
    case Nil => 0
    case Cons(n, t) => NodeSize(n, quiet) + BlockSize(t, quiet)
  }

  /** The code of a node placed at address `at`: a guard jumps over its body, or into it, by address. */
  function NodeCode(n: Node, at: int, quiet: bool, env: map<string, int>): (code: seq<Instr>)
    requires NodeOk(n)
    ensures |code| == NodeSize(n, quiet)
  {
    match n
    case Do(c) => CommandCode(c, quiet, env)
    case Label(_) => []
    case Guard(c, negated, body) =>
      var inside, after := at + 1, at + 1 + BlockSize(body, quiet);
      [OneCond(c, if negated then after else inside, if negated then inside else after)]
      + BlockCode(body, inside, quiet, env)
    case RangeGuard(c1, c2, negated, body) =>
      var inside, after := at + 1, at + 1 + BlockSize(body, quiet);
      [TwoCond(c1, c2, if negated then after else inside, if negated then inside else after)]
      + BlockCode(body, inside, quiet, env)
    case RangeChange(c1, c2, text) => [TwoCond(c1, c2, at + 1, at + 2), Change(text, Some(at))]
  }

  function BlockCode(b: Block, at: int, quiet: bool, env: map<string, int>): (code: seq<Instr>)
    requires BlockOk(b)
    ensures |code| == BlockSize(b, quiet)
  {
    match b
    case Nil => []
    case Cons(n, t) => NodeCode(n, at, quiet, env) + BlockCode(t, at + NodeSize(n, quiet), quiet, env)
  }

  /** The address each label stands for: that of the instruction after it; a later label wins. */
  function NodeLabels(n: Node, at: int, quiet: bool): map<string, int> {
    match n
    case Label(name) => map[name := at]
    case Guard(_, _, body) => BlockLabels(body, at + 1, quiet)
    case RangeGuard(_, _, _, body) => BlockLabels(body, at + 1, quiet)
    case _ => map[]
  }

  function BlockLabels(b: Block, at: int, quiet: bool): map<string, int> {
    match b
    case Nil => map[]
    case Cons(n, t) => NodeLabels(n, at, quiet) + BlockLabels(t, at + NodeSize(n, quiet), quiet)
  }

  function Env(b: Block, quiet: bool): map<string, int> {
    BlockLabels(b, 1, quiet)[END_OF_PROGRAM := 1 + BlockSize(b, quiet)]
  }

  /** The labels a tree branches to. */
  function NodeUses(n: Node): set<string> {
    match n
    case Do(CBranch(to)) => {Key(to)}
    case Do(CTest(to)) => {Key(to)}
    case Guard(_, _, body) => BlockUses(body)
    case RangeGuard(_, _, _, body) => BlockUses(body)
    case _ => {}
  }

  function BlockUses(b: Block): set<string> {
    match b
    case Nil => {}
    case Cons(n, t) => NodeUses(n) + BlockUses(t)
  }

  function Trailer(quiet: bool): seq<Instr> {
    if quiet then [Branch(0)] else [Print, Branch(0)]
  }

  /** The whole program: fill, the script, the automatic print, and back to the start. */
  function Program(b: Block, quiet: bool, env: map<string, int>): seq<Instr>
    requires BlockOk(b)
  {
    [Fill] + BlockCode(b, 1, quiet, env) + Trailer(quiet)
  }

  /** What the parser must produce: the code of the tree, or nothing when the script is rejected. */
  function Compile(toks: seq<Token>, quiet: bool): Option<seq<Instr>> {
    match ParseBlock(toks, true)
    case Ok(b, _) =>
      ParsedOk(toks, true);
      if BlockUses(b) <= Env(b, quiet).Keys then Some(Program(b, quiet, Env(b, quiet))) else None
    case _ => None
  }

  // ---- the grammar only builds trees that have code ----

  lemma {:induction false} ParsedOk(toks: seq<Token>, top: bool)
    ensures ParseBlock(toks, top).Ok? ==> BlockOk(ParseBlock(toks, top).value)
    decreases |toks|, 0
  {
    if toks == [] || toks[0].TRBrace? {
    } else if toks[0].TEol? {
      ParsedOk(toks[1..], top);
    } else {
      NodeParsedOk(toks);
      match ParseNode(toks)
      case Ok(n, rest) => ParsedOk(rest, top);
      case _ =>
    }
  }

  lemma {:induction false} NodeParsedOk(toks: seq<Token>)
    requires toks != []
    ensures ParseNode(toks).Ok? ==> NodeOk(ParseNode(toks).value)
    decreases |toks| - 1, 4
  {
    match TokenCond(toks[0])
    case Some(c) => GuardParsedOk(c, toks[1..]);
    case None =>
  }

  lemma {:induction false} GuardParsedOk(c: Cond, toks: seq<Token>)
    ensures ParseGuard(c, toks).Ok? ==> NodeOk(ParseGuard(c, toks).value)
    decreases |toks|, 3
  {
    if toks == [] {
    } else if toks[0].TComma? {
      RangeParsedOk(c, toks[1..]);
    } else {
      BodyParsedOk(if toks[0].TBang? then toks[1..] else toks);
    }
  }

  lemma {:induction false} RangeParsedOk(c1: Cond, toks: seq<Token>)
    ensures ParseRange(c1, toks).Ok? ==> NodeOk(ParseRange(c1, toks).value)
    decreases |toks|, 2
  {
    if toks != [] && TokenCond(toks[0]).Some? {
      RangeTailOk(c1, TokenCond(toks[0]).value, toks[1..]);
    }
  }

  lemma {:induction false} RangeTailOk(c1: Cond, c2: Cond, toks: seq<Token>)
    ensures ParseRangeTail(c1, c2, toks).Ok? ==> NodeOk(ParseRangeTail(c1, c2, toks).value)
    decreases |toks|, 2
  {
    if toks != [] && !toks[0].TChange? {
      BodyParsedOk(if toks[0].TBang? then toks[1..] else toks);
    }
  }

  lemma {:induction false} BodyParsedOk(toks: seq<Token>)
    ensures ParseBody(toks).Ok? ==> BlockOk(ParseBody(toks).value)
    decreases |toks|, 1
  {
    if toks != [] && toks[0].TLBrace? {
      ParsedOk(toks[1..], false);
    }
  }
}
