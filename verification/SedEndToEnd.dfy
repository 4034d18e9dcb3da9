/** From tokens to delivered text: parser, code, machine and reader together compute what the tree means. */
module SedEndToEnd {
  import opened Basics
  import opened SedMachine
  import opened SedScript
  import opened SedSyntax
  import opened SedSafety
  import opened SedParser
  import opened SedCompile
  import opened SedReader

  /** The meaning of a script on an input: `n` passes of the evaluator from a fresh engine. */
  ghost function Meaning(b: Block, quiet: bool, lines: seq<string>, n: nat): Script
    requires BlockOk(b)
  {
    Passes(b, Script(Prime(lines, map[]), "", NextLineFirst, false), quiet, n)
  }

  /**
    By step `m` the script has ended or written more than the buffers hold, and no buffer
    ends inside the text that an `N` has to put out first.
  */
  ghost predicate Readable(b: Block, quiet: bool, lines: seq<string>, sizes: seq<nat>, m: nat) {
    && BlockOk(b)
    && var p, c := Program(b, quiet, Env(b, quiet)), Conf(0, Prime(lines, map[]), "", Going);
       StopsBy(p, c, m, Sum(sizes)) && AllClear(p, c, sizes)
  }

  lemma ProgramPasses(b: Block, quiet: bool, lines: seq<string>, n: nat) returns (k: nat)
    requires BlockOk(b) && Linked(b, quiet)
    ensures k >= n
    ensures var c := Iter(Program(b, quiet, Env(b, quiet)), Conf(0, Prime(lines, map[]), "", Going), k);
      c.out == Meaning(b, quiet, lines, n).out && c.phase == if Meaning(b, quiet, lines, n).over then Halted else Going
  {
    hide Iter, Passes, Program, BlockOk, Linked, Prime;
    var p, s := Program(b, quiet, Env(b, quiet)), Prime(lines, map[]);
    k := PassesRun(b, p, Conf(0, s, "", Going), Script(s, "", NextLineFirst, false), quiet, n);
  }

  lemma CompiledLinked(toks: seq<Token>, quiet: bool)
    requires Compile(toks, quiet).Some?
    ensures var b := ParseBlock(toks, true).value; BlockOk(b) && Linked(b, quiet)
  {
    ParsedOk(toks, true);
  }

  lemma {:induction false} SumCounts(sizes: seq<nat>)
    requires forall i :: 0 <= i < |sizes| ==> sizes[i] > 0
    ensures Sum(sizes) >= |sizes|
    decreases |sizes|
  {
    if sizes != [] {
      SumCounts(sizes[..|sizes| - 1]);
    }
  }

  /** What a run of `m` steps has written lies within what as many passes of the evaluator write. */
  lemma StepsWithinPasses(b: Block, quiet: bool, lines: seq<string>, m: nat)
    requires BlockOk(b) && Linked(b, quiet)
    ensures var c := Iter(Program(b, quiet, Env(b, quiet)), Conf(0, Prime(lines, map[]), "", Going), m);
      && c.out <= Meaning(b, quiet, lines, m).out
      && (c.phase == Halted ==> Meaning(b, quiet, lines, m).over && c.out == Meaning(b, quiet, lines, m).out)
  {
    hide Iter, Program, BlockOk, Linked, Prime, Meaning;
    var p, c := Program(b, quiet, Env(b, quiet)), Conf(0, Prime(lines, map[]), "", Going);
    var k := ProgramPasses(b, quiet, lines, m);
    Onwards(p, c, m, k);
  }

  /** A script that finishes with fewer bytes than there are buffers has halted within the steps that fill them. */
  lemma FinishesInTime(b: Block, quiet: bool, lines: seq<string>, sizes: seq<nat>, m: nat, n: nat)
    requires Linked(b, quiet) && Readable(b, quiet, lines, sizes, m) && Meaning(b, quiet, lines, n).over
    requires |sizes| > |Meaning(b, quiet, lines, n).out| && forall i :: 0 <= i < |sizes| ==> sizes[i] > 0
    ensures var c := Iter(Program(b, quiet, Env(b, quiet)), Conf(0, Prime(lines, map[]), "", Going), m);
      c.phase == Halted && c.out == Meaning(b, quiet, lines, n).out
  {
    hide Iter, Program, Linked, Prime, Meaning, AllClear, SafeCode, BlockOk;
    var p, c := Program(b, quiet, Env(b, quiet)), Conf(0, Prime(lines, map[]), "", Going);
    var k := ProgramPasses(b, quiet, lines, n);
    SumCounts(sizes);
    ProgramSafe(b, quiet);
    IterSafe(p, c, m);
    if k <= m {
      Onwards(p, c, k, m);
    } else {
      Onwards(p, c, m, k);
    }
  }

  /**
    Parsing a token stream and reading the machine's output through buffers of any positive sizes: a script
    is refused exactly if it has no code, and otherwise what the caller gets is a prefix of what the tree
    means. The end is reported only of a script that finishes, when all of it has been read; and for a script
    that finishes, one buffer more than there are bytes is enough.
  */
  method RunScript(toks: seq<Token>, quiet: bool, lines: seq<string>, sizes: seq<nat>, ghost m: nat)
    returns (got: Option<string>, eof: bool)
    requires forall i :: 0 <= i < |sizes| ==> sizes[i] > 0
    requires Compile(toks, quiet).Some? ==> Readable(ParseBlock(toks, true).value, quiet, lines, sizes, m)
    ensures got.None? <==> Compile(toks, quiet).None?
    ensures got.Some? ==>
      var b := ParseBlock(toks, true).value;
      && got.value <= Meaning(b, quiet, lines, m).out && (!eof ==> |got.value| >= |sizes|)
      && (eof ==> Meaning(b, quiet, lines, m).over && got.value == Meaning(b, quiet, lines, m).out)
      && forall n: nat :: Meaning(b, quiet, lines, n).over && |sizes| > |Meaning(b, quiet, lines, n).out| ==> eof
  {
    hide Iter, Passes, Program, BlockOk, Linked, AllClear, StopsBy, Prime, SafeCode, Meaning;
    var code := Parse(toks, quiet);
    if code.None? {
      return None, false;
    }
    ghost var b := ParseBlock(toks, true).value;
    CompiledLinked(toks, quiet);
    ProgramSafe(b, quiet);
    StepsWithinPasses(b, quiet, lines, m);
    var vm := new Vm(code.value, lines, map[]);
    var text, done := Drain(vm, sizes, m);
    forall n: nat | Meaning(b, quiet, lines, n).over && |sizes| > |Meaning(b, quiet, lines, n).out| ensures done {
      FinishesInTime(b, quiet, lines, sizes, m, n);
    }
    return Some(text), done;
  }

  /** The same of a script as written: what is delivered is what the script stands for. */
  method RunWritten(l: Lines, quiet: bool, lines: seq<string>, sizes: seq<nat>, ghost m: nat)
    returns (got: Option<string>, eof: bool)
    requires Fits(l) && forall i :: 0 <= i < |sizes| ==> sizes[i] > 0
    requires Linked(Tree(l), quiet) ==> Readable(Tree(l), quiet, lines, sizes, m)
    ensures got.Some? <==> Linked(Tree(l), quiet)
    ensures got.Some? ==>
      && BlockOk(Tree(l))
      && got.value <= Meaning(Tree(l), quiet, lines, m).out && (!eof ==> |got.value| >= |sizes|)
      && (eof ==> Meaning(Tree(l), quiet, lines, m).over && got.value == Meaning(Tree(l), quiet, lines, m).out)
      && forall n: nat :: Meaning(Tree(l), quiet, lines, n).over && |sizes| > |Meaning(Tree(l), quiet, lines, n).out| ==> eof
  {
    hide Readable, Meaning, ParseBlock, Compile, Program, Env, BlockUses, BlockOk, Fits, Tree, Tokens;
    Compiles(l, quiet);
    ScriptReads(l);
    got, eof := RunScript(Tokens(l), quiet, lines, sizes, m);
  }
}
