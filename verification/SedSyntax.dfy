/** sed scripts as they are written: which tokens spell which command tree, and that the grammar reads exactly those. */
module SedSyntax {
  import opened Basics
  import opened SedMachine
  import opened SedScript

  datatype Address = Number(n: int) | Dollar | Pattern(matches: string -> bool)

  /** What an address governs: one command, a change, or a block in braces. */
  datatype Body = One(cmd: Command) | Changed(text: string) | Braces(lines: Lines)

  datatype Item =
    | Plain(cmd: Command)
    | Named(name: string)
    | Addressed(a: Address, bang: bool, body: Body)
    | Ranged(a: Address, b: Address, bang: bool, body: Body)

  /** A script, or the inside of a block; a blank is an empty line. */
  datatype Lines = Empty | Blank(rest: Lines) | More(item: Item, rest: Lines)

  // ---- how it is spelled ----

  function AddressToken(a: Address): Token {
    match a
    case Number(n) => TNum(Some(n))
    case Dollar => TDollar
    case Pattern(m) => TRegex(Some(m))
  }

  function BodyTokens(b: Body): seq<Token> {
    match b
    case One(c) => [TCmd(c)]
    case Changed(text) => [TChange(text)]
    case Braces(lines) => [TLBrace] + Tokens(lines) + [TRBrace]
  }

  function BangTokens(bang: bool): seq<Token> {
    if bang then [TBang] else []
  }

  function ItemTokens(i: Item): seq<Token> {
    match i
    case Plain(c) => [TCmd(c)]
    case Named(l) => [TLabel(l)]
    case Addressed(a, bang, body) => [AddressToken(a)] + BangTokens(bang) + BodyTokens(body)
    case Ranged(a, b, bang, body) => [AddressToken(a), TComma, AddressToken(b)] + BangTokens(bang) + BodyTokens(body)
  }

  function Tokens(l: Lines): seq<Token> {
    match l
    case Empty => []
    case Blank(rest) => [TEol] + Tokens(rest)
    case More(i, rest) => ItemTokens(i) + Tokens(rest)
  }

  // ---- what it stands for ----

  function CondOf(a: Address): Cond {
    match a
    case Number(n) => LineNo(n)
    case Dollar => LastLine
    case Pattern(m) => Regex(m)
  }

  function BodyTree(b: Body): Block {
    match b
    case One(c) => Cons(Do(c), Nil)
    case Changed(text) => Cons(Do(CChange(text)), Nil)
    case Braces(lines) => Tree(lines)
  }

  /** A change over a range belongs to the range, unless the range is negated. */
  function ItemTree(i: Item): Node {
    match i
    case Plain(c) => Do(c)
    case Named(l) => Label(l)
    case Addressed(a, bang, body) => Guard(CondOf(a), bang, BodyTree(body))
    case Ranged(a, b, bang, body) =>
      if body.Changed? && !bang then RangeChange(CondOf(a), CondOf(b), body.text)
      else RangeGuard(CondOf(a), CondOf(b), bang, BodyTree(body))
  }

  function Tree(l: Lines): Block {
    match l
    case Empty => Nil
    case Blank(rest) => Tree(rest)
    case More(i, rest) => Cons(ItemTree(i), Tree(rest))
  }

  /** The command is known and its file, expression or table can be used. */
  predicate ArgumentsFit(c: Command) {
    && !c.CUnknown? && (c.CReadFile? ==> c.content.Some?)
    && (c.CSubstitute? ==> c.replace.Some?) && (c.CTranslate? ==> c.translate.Some?)
  }

  lemma AcceptedIs(c: Command)
    ensures Accepted(c) <==> ArgumentsFit(c)
  {
  }

  /** Every command's arguments fit and every label has a name. */
  predicate BodyFits(b: Body) {
    match b
    case One(c) => ArgumentsFit(c)
    case Changed(_) => true
    case Braces(lines) => Fits(lines)
  }

  predicate ItemFits(i: Item) {
    match i
    case Plain(c) => ArgumentsFit(c)
    case Named(l) => l != ""
    case Addressed(_, _, body) => BodyFits(body)
    case Ranged(_, _, _, body) => BodyFits(body)
  }

  predicate Fits(l: Lines) {
    match l
    case Empty => true
    case Blank(rest) => Fits(rest)
    case More(i, rest) => ItemFits(i) && Fits(rest)
  }

  // ---- the grammar reads what is written ----

  lemma Head(t: Token, ts: seq<Token>)
    ensures ([t] + ts)[0] == t && ([t] + ts)[1..] == ts
  {
  }

  lemma {:induction false} BodyReads(b: Body, rest: seq<Token>)
    requires BodyFits(b)
    ensures ParseBody(BodyTokens(b) + rest) == Ok(BodyTree(b), rest)
    decreases b, 0
  {
    match b
    case One(c) => Head(TCmd(c), rest);
    case Changed(text) => Head(TChange(text), rest);
    case Braces(lines) =>
      assert BodyTokens(b) + rest == [TLBrace] + (Tokens(lines) + ([TRBrace] + rest));
      Head(TLBrace, Tokens(lines) + ([TRBrace] + rest));
      LinesRead(lines, rest);
  }

  /** A body is not taken for a comma or a bang, and only a change starts with a change. */
  lemma BodyStarts(b: Body, rest: seq<Token>)
    ensures var toks := BodyTokens(b) + rest;
      toks != [] && !toks[0].TComma? && !toks[0].TBang? && (toks[0].TChange? <==> b.Changed?)
  {
  }

  lemma {:induction false} GuardReads(a: Address, bang: bool, body: Body, rest: seq<Token>)
    requires BodyFits(body)
    ensures ParseGuard(CondOf(a), BangTokens(bang) + (BodyTokens(body) + rest)) == Ok(Guard(CondOf(a), bang, BodyTree(body)), rest)
    decreases body, 1
  {
    hide ParseBody, BodyTokens, BodyTree;
    var toks := BodyTokens(body) + rest;
    BodyReads(body, rest);
    BodyStarts(body, rest);
    if bang {
      Head(TBang, toks);
    } else {
      assert BangTokens(bang) + toks == toks;
    }
  }

  lemma {:induction false} RangeReads(a: Address, b: Address, bang: bool, body: Body, rest: seq<Token>)
    requires BodyFits(body)
    ensures ParseRangeTail(CondOf(a), CondOf(b), BangTokens(bang) + (BodyTokens(body) + rest))
         == Ok(ItemTree(Ranged(a, b, bang, body)), rest)
    decreases body, 1
  {
    hide ParseBody, BodyTree, BodyTokens, ParseBlock;
    var toks := BodyTokens(body) + rest;
    BodyReads(body, rest);
    BodyStarts(body, rest);
    if bang {
      Head(TBang, toks);
      RangeBody(CondOf(a), CondOf(b), [TBang] + toks);
    } else {
      assert BangTokens(bang) + toks == toks;
      if body.Changed? {
        ChangeFollows(body.text, rest);
      } else {
        RangeBody(CondOf(a), CondOf(b), toks);
      }
    }
  }

  lemma ChangeFollows(text: string, rest: seq<Token>)
    ensures var toks := BodyTokens(Changed(text)) + rest; toks != [] && toks[0] == TChange(text) && toks[1..] == rest
  {
    Head(TChange(text), rest);
  }

  lemma RangeBody(c1: Cond, c2: Cond, toks: seq<Token>)
    requires toks != [] && !toks[0].TChange?
    ensures var negated := toks[0].TBang?;
      var body := ParseBody(if negated then toks[1..] else toks);
      body.Ok? ==> ParseRangeTail(c1, c2, toks) == Ok(RangeGuard(c1, c2, negated, body.value), body.rest)
  {
    hide ParseBody;
  }

  lemma AddressReads(a: Address)
    ensures TokenCond(AddressToken(a)) == Some(CondOf(a))
    ensures var t := AddressToken(a); !t.TCmd? && !t.TLabel? && !t.TEol? && !t.TRBrace?
  {
  }

  lemma {:induction false} ItemReads(i: Item, rest: seq<Token>)
    requires ItemFits(i)
    ensures var toks := ItemTokens(i) + rest;
      toks != [] && !toks[0].TEol? && !toks[0].TRBrace? && ParseNode(toks) == Ok(ItemTree(i), rest)
    decreases i, 2
  {
    hide ParseGuard, ParseRangeTail, BodyTokens, BodyTree, TokenCond, AddressToken, CondOf, BangTokens;
    match i
    case Plain(c) => Head(TCmd(c), rest);
    case Named(l) => Head(TLabel(l), rest);
    case Addressed(a, bang, body) =>
      var tail := BangTokens(bang) + (BodyTokens(body) + rest);
      assert ItemTokens(i) + rest == [AddressToken(a)] + tail;
      Head(AddressToken(a), tail);
      AddressReads(a);
      GuardReads(a, bang, body, rest);
    case Ranged(a, b, bang, body) =>
      var tail := BangTokens(bang) + (BodyTokens(body) + rest);
      assert ItemTokens(i) + rest == [AddressToken(a)] + ([TComma] + ([AddressToken(b)] + tail));
      Head(AddressToken(a), [TComma] + ([AddressToken(b)] + tail));
      Head(TComma, [AddressToken(b)] + tail);
      Head(AddressToken(b), tail);
      AddressReads(a);
      AddressReads(b);
      RangeReads(a, b, bang, body, rest);
      RangeFollows(CondOf(a), CondOf(b), AddressToken(b), tail);
  }

  lemma RangeFollows(c1: Cond, c2: Cond, t: Token, tail: seq<Token>)
    requires TokenCond(t) == Some(c2)
    ensures ParseGuard(c1, [TComma] + ([t] + tail)) == ParseRangeTail(c1, c2, tail)
  {
    hide ParseRangeTail, TokenCond;
    Head(TComma, [t] + tail);
    Head(t, tail);
  }

  /** A block up to its closing brace. */
  lemma {:induction false} LinesRead(l: Lines, rest: seq<Token>)
    requires Fits(l)
    ensures ParseBlock(Tokens(l) + ([TRBrace] + rest), false) == Ok(Tree(l), rest)
    decreases l, 3
  {
    hide ParseNode, ItemTokens, ItemTree, ItemFits;
    var end := [TRBrace] + rest;
    match l
    case Empty =>
      assert Tokens(l) + end == end;
      Head(TRBrace, rest);
    case Blank(r) =>
      assert Tokens(l) + end == [TEol] + (Tokens(r) + end);
      Head(TEol, Tokens(r) + end);
      LinesRead(r, rest);
    case More(i, r) =>
      assert Tokens(l) + end == ItemTokens(i) + (Tokens(r) + end);
      ItemReads(i, Tokens(r) + end);
      LinesRead(r, rest);
  }

  /** Every script is read as the tree it stands for, addresses, ranges, `!`, braces and empty lines included. */
  lemma {:induction false} ScriptReads(l: Lines)
    requires Fits(l)
    ensures ParseBlock(Tokens(l), true) == Ok(Tree(l), [])
    decreases l, 3
  {
    hide ParseNode, ItemTokens, ItemTree, ItemFits;
    match l
    case Empty =>
    case Blank(r) =>
      Head(TEol, Tokens(r));
      ScriptReads(r);
    case More(i, r) =>
      ItemReads(i, Tokens(r));
      ScriptReads(r);
  }

  // ---- and nothing else ----

  lemma AddressWas(t: Token) returns (a: Address)
    requires TokenCond(t).Some?
    ensures AddressToken(a) == t && CondOf(a) == TokenCond(t).value
  {
    match t
    case TNum(n) => a := Number(n.value);
    case TDollar => a := Dollar;
    case TRegex(m) => a := Pattern(m.value);
  }

  lemma {:induction false} BodyWas(toks: seq<Token>) returns (b: Body)
    requires ParseBody(toks).Ok?
    ensures BodyFits(b) && BodyTree(b) == ParseBody(toks).value && toks == BodyTokens(b) + ParseBody(toks).rest
    decreases |toks|, 1
  {
    match toks[0]
    case TLBrace =>
      var l := LinesWere(toks[1..]);
      b := Braces(l);
      assert toks == [TLBrace] + toks[1..];
    case TCmd(c) => b := One(c);
    case TChange(text) => b := Changed(text);
  }

  lemma {:induction false} ItemWas(toks: seq<Token>) returns (i: Item)
    requires toks != [] && ParseNode(toks).Ok?
    ensures ItemFits(i) && ItemTree(i) == ParseNode(toks).value && toks == ItemTokens(i) + ParseNode(toks).rest
    decreases |toks| - 1, 4
  {
    hide ParseGuard, TokenCond;
    var t, rest := toks[0], toks[1..];
    assert toks == [t] + rest;
    match t
    case TCmd(c) => i := Plain(c);
    case TLabel(name) => i := Named(name);
    case _ =>
      var a := AddressWas(t);
      i := GuardWas(a, rest);
  }

  lemma AddressedTokens(a: Address, bang: bool, body: Body, toks: seq<Token>, at: seq<Token>, rest: seq<Token>)
    requires toks == BangTokens(bang) + at && at == BodyTokens(body) + rest
    ensures [AddressToken(a)] + toks == ItemTokens(Addressed(a, bang, body)) + rest
  {
    hide BangTokens, BodyTokens, AddressToken;
  }

  lemma RangedTokens(a: Address, b: Address, bang: bool, body: Body, toks: seq<Token>, at: seq<Token>, rest: seq<Token>)
    requires toks == BangTokens(bang) + at && at == BodyTokens(body) + rest
    ensures [AddressToken(a), TComma, AddressToken(b)] + toks == ItemTokens(Ranged(a, b, bang, body)) + rest
  {
    hide BangTokens, BodyTokens, AddressToken;
  }

  lemma Banged(toks: seq<Token>)
    requires toks != []
    ensures var bang := toks[0].TBang?; toks == BangTokens(bang) + if bang then toks[1..] else toks
  {
    assert toks == [toks[0]] + toks[1..];
  }

  lemma {:induction false} GuardWas(a: Address, toks: seq<Token>) returns (i: Item)
    requires ParseGuard(CondOf(a), toks).Ok?
    ensures ItemFits(i) && ItemTree(i) == ParseGuard(CondOf(a), toks).value
    ensures [AddressToken(a)] + toks == ItemTokens(i) + ParseGuard(CondOf(a), toks).rest
    decreases |toks|, 3
  {
    hide ParseBody, ParseRangeTail, TokenCond, CondOf, AddressToken, BodyTokens, BodyTree, BangTokens, ItemTokens, BodyFits;
    if toks[0].TComma? {
      var tail := toks[2..];
      assert toks[1..] != [] && toks[1..][0] == toks[1] && toks[1..][1..] == tail;
      var b := AddressWas(toks[1]);
      i := RangeWas(a, b, tail);
      assert [AddressToken(a)] + toks == [AddressToken(a), TComma, AddressToken(b)] + tail;
    } else {
      var bang := toks[0].TBang?;
      var at := if bang then toks[1..] else toks;
      var body := BodyWas(at);
      i := Addressed(a, bang, body);
      Banged(toks);
      AddressedTokens(a, bang, body, toks, at, ParseBody(at).rest);
    }
  }

  lemma {:induction false} RangeWas(a: Address, b: Address, toks: seq<Token>) returns (i: Item)
    requires ParseRangeTail(CondOf(a), CondOf(b), toks).Ok?
    ensures ItemFits(i) && ItemTree(i) == ParseRangeTail(CondOf(a), CondOf(b), toks).value
    ensures [AddressToken(a), TComma, AddressToken(b)] + toks
         == ItemTokens(i) + ParseRangeTail(CondOf(a), CondOf(b), toks).rest
    decreases |toks|, 2
  {
    hide ParseBody, CondOf, AddressToken, BodyTokens, BodyTree, BangTokens, ItemTokens;
    Banged(toks);
    var bang := toks[0].TBang?;
    var at := if bang then toks[1..] else toks;
    var body: Body;
    if toks[0].TChange? {
      body := Changed(toks[0].text);
      ChangedTokens(toks);
    } else {
      body := BodyWas(at);
      BodyStarts(body, ParseBody(at).rest);
    }
    i := Ranged(a, b, bang, body);
    RangedTokens(a, b, bang, body, toks, at, ParseRangeTail(CondOf(a), CondOf(b), toks).rest);
  }

  lemma ChangedTokens(toks: seq<Token>)
    requires toks != [] && toks[0].TChange?
    ensures toks == BodyTokens(Changed(toks[0].text)) + toks[1..]
  {
  }

  lemma Longer(a: seq<Token>, b: seq<Token>, c: seq<Token>, d: seq<Token>)
    ensures a + (b + c + d) == (a + b) + c + d
  {
  }

  lemma {:induction false} LinesWere(toks: seq<Token>) returns (l: Lines)
    requires ParseBlock(toks, false).Ok?
    ensures Fits(l) && Tree(l) == ParseBlock(toks, false).value && toks == Tokens(l) + [TRBrace] + ParseBlock(toks, false).rest
    decreases |toks|, 0
  {
    hide ParseNode, ItemTokens, ItemTree, ItemFits;
    if toks[0].TEol? {
      var r := LinesWere(toks[1..]);
      l := Blank(r);
      assert toks == [TEol] + toks[1..];
      Longer([TEol], Tokens(r), [TRBrace], ParseBlock(toks, false).rest);
    } else if toks[0].TRBrace? {
      l := Empty;
      assert toks == [TRBrace] + toks[1..];
    } else {
      var i := ItemWas(toks);
      var r := LinesWere(ParseNode(toks).rest);
      l := More(i, r);
      Longer(ItemTokens(i), Tokens(r), [TRBrace], ParseBlock(toks, false).rest);
    }
  }

  /** Whatever the grammar accepts is a script, and the tree is what the script stands for. */
  lemma {:induction false} ScriptWas(toks: seq<Token>) returns (l: Lines)
    requires ParseBlock(toks, true).Ok?
    ensures Fits(l) && Tokens(l) == toks && Tree(l) == ParseBlock(toks, true).value
    decreases |toks|, 0
  {
    hide ParseNode, ItemTokens, ItemTree, ItemFits;
    if toks == [] {
      l := Empty;
    } else if toks[0].TEol? {
      var r := ScriptWas(toks[1..]);
      l := Blank(r);
      assert toks == [TEol] + toks[1..];
    } else {
      var i := ItemWas(toks);
      var r := ScriptWas(ParseNode(toks).rest);
      l := More(i, r);
    }
  }

  /** A script is compiled exactly if the labels it branches to are in it, into the code of what it stands for. */
  lemma Compiles(l: Lines, quiet: bool)
    requires Fits(l)
    ensures BlockOk(Tree(l))
    ensures Compile(Tokens(l), quiet)
         == if BlockUses(Tree(l)) <= Env(Tree(l), quiet).Keys then Some(Program(Tree(l), quiet, Env(Tree(l), quiet))) else None
  {
    hide ParseBlock, Program, Env, BlockUses;
    ScriptReads(l);
    ParsedOk(Tokens(l), true);
  }

  /** Tokens that are no script are refused. */
  lemma OnlyScripts(toks: seq<Token>, quiet: bool)
    requires Compile(toks, quiet).Some?
    ensures exists l :: Fits(l) && Tokens(l) == toks
  {
    hide ParseBlock, Program, Env, BlockUses;
    var l := ScriptWas(toks);
  }
}
