/**
  `gosed` instructions and the virtual machine's state as values. `Step` is the meaning of one
  instruction when the output buffer never fills up.
*/
module SedMachine {
  import opened Basics

  /** Addresses: a line number, `$`, or a regular expression given by what it matches. */
  datatype Cond = LineNo(n: int) | LastLine | Regex(matches: string -> bool)

  /** The on/off state a two-address guard keeps between lines. */
  datatype Range = Range(isOn: bool, offFrom: int)

  datatype Instr =
    | Fill
    | FillAppend
    | Print
    | PrintFirst
    | DeleteFirst
    | PrintLineNo
    | Get
    | GetAppend
    | Hold
    | HoldAppend
    | Swap
    | Branch(target: int)
    | ChangedBranch(target: int)
    | OneCond(cond: Cond, met: int, unmet: int)
    | TwoCond(start: Cond, end: Cond, met: int, unmet: int)
    | Change(text: string, guard: Option<int>)
    | Append(text: string)
    | Insert(text: string)
    | Quit
    | Substitute(replace: string -> Option<string>, printing: bool)
    | Translate(translate: string -> string)
    | WriteTo(file: string)

  /** Everything the machine keeps except the instruction pointer and the output. */
  datatype State = State(
    nxtl: string,                      // the line read ahead
    pat: string,                       // the pattern space
    hold: string,                      // the hold space
    appl: Option<string>,              // text waiting to be appended
    lastl: bool,                       // no line is left after the current one
    input: seq<string>,                // the lines still unread
    lineno: int,
    modified: bool,
    ranges: map<int, Range>,           // state of the two-address guards, by instruction
    files: seq<(string, string)>)      // what the w command wrote, in order

  function RangeAt(s: State, at: int): Range {
    if at in s.ranges then s.ranges[at] else Range(false, 0)
  }

  predicate IsMet(c: Cond, s: State) {
    match c
    case LineNo(n) => s.lineno == n
    case LastLine => s.lastl
    case Regex(m) => m(s.pat)
  }

  /** One run of a two-address guard: its new state and whether the line is selected. */
  function RunRange(start: Cond, end: Cond, r: Range, s: State): (Range, bool) {
    var r := if r.isOn && r.offFrom > 0 && r.offFrom < s.lineno then Range(false, 0) else r;
    if !r.isOn then
      if IsMet(start, s) then (r.(isOn := true), true) else (r, false)
    else
      (if IsMet(end, s) then r.(offFrom := s.lineno) else r, true)
  }

  predicate IsLastLine(r: Range, s: State) {
    r.isOn && r.offFrom == s.lineno
  }

  /** Moves the line read ahead into the pattern space and reads the next one. */
  function NextLine(s: State): State {
    var s := s.(pat := s.nxtl, lineno := s.lineno + 1, modified := false);
    if s.input == [] then s.(nxtl := "", lastl := true)
    else s.(nxtl := s.input[0], input := s.input[1..])
  }

  /** `cmd_fillNext` on the first read of a stream primes the machine. */
  function Prime(input: seq<string>, ranges: map<int, Range>): State {
    NextLine(State("", "", "", None, false, input, -1, false, ranges, []))
  }

  function FirstLine(s: string): string
    decreases |s|
  {
    if s == "" || s[0] == '\n' then "" else [s[0]] + FirstLine(s[1..])
  }

  /** It is the text in front of the first newline, or all of it. */
  lemma {:induction false} FirstLineIs(s: string)
    ensures FirstLine(s) <= s && '\n' !in FirstLine(s) && (|FirstLine(s)| < |s| ==> s[|FirstLine(s)|] == '\n')
    decreases |s|
  {
    if s != "" && s[0] != '\n' {
      FirstLineIs(s[1..]);
      assert s == [s[0]] + s[1..];
    }
  }

  /** A text without a newline is its own first line, alone and in front of a newline. */
  lemma {:induction false} FirstLineOf(line: string, rest: string)
    requires '\n' !in line
    ensures FirstLine(line) == line && FirstLine(line + "\n" + rest) == line
    decreases |line|
  {
    if line != "" {
      FirstLineOf(line[1..], rest);
      assert (line + "\n" + rest)[1..] == line[1..] + "\n" + rest;
    }
  }

  function Decimal(n: nat): string {
    if n < 10 then [(n + '0' as int) as char] else Decimal(n / 10) + [(n % 10 + '0' as int) as char]
  }

  function LineNumber(n: int): string {
    if n < 0 then "-" + Decimal(-n) else Decimal(n)
  }

  predicate Digits(s: string) {
    s != "" && forall i :: 0 <= i < |s| ==> '0' <= s[i] <= '9'
  }

  /** The number a string of digits stands for. */
  function Value(s: string): int {
    if s == "" then 0 else Value(s[..|s| - 1]) * 10 + (s[|s| - 1] as int - '0' as int)
  }

  lemma {:induction false} DecimalReads(n: nat)
    ensures Digits(Decimal(n)) && Value(Decimal(n)) == n && (Decimal(n)[0] == '0' ==> n == 0)
    decreases n
  {
    if n < 10 {
      assert Decimal(n)[..0] == "";
    } else {
      DecimalReads(n / 10);
      var s, last := Decimal(n / 10), (n % 10 + '0' as int) as char;
      assert (s + [last])[..|s|] == s;
    }
  }

  /** A line number is printed as its decimal digits, behind a minus sign if it is negative. */
  lemma LineNumberReads(n: int)
    ensures var s := LineNumber(n);
      if n >= 0 then Digits(s) && Value(s) == n && (s[0] == '0' ==> n == 0)
      else s[..1] == "-" && Digits(s[1..]) && Value(s[1..]) == -n && s[1] != '0'
  {
    DecimalReads(if n < 0 then -n else n);
  }

  datatype Status = Running | Ended

  /** One instruction's effect: new pointer and state, the text it writes, and whether the program ended. */
  datatype Effect = Effect(ip: int, s: State, text: string, status: Status)

  /**
    One instruction with an unlimited buffer. Pending text is flushed as a step of its own:
    a fill runs again at the same address once the text is out.
  */
  function Step(i: Instr, ip: int, s: State): Effect {
    match i
    case Fill =>
      if s.appl.Some? then Effect(ip, s.(appl := None), s.appl.value, Running)
      else if s.lastl then Effect(ip, s, "", Ended)
      else Effect(ip + 1, NextLine(s), "", Running)
    case FillAppend =>
      if s.appl.Some? then Effect(ip, s.(appl := None), s.appl.value, Running)
      else if s.lastl then Effect(ip, s.(pat := s.pat + "\n" + s.pat), "", Ended)
      else var t := NextLine(s); Effect(ip + 1, t.(pat := s.pat + "\n" + t.pat), "", Running)
    case Print => Effect(ip + 1, s, s.pat + "\n", Running)
    case PrintFirst => Effect(ip + 1, s, FirstLine(s.pat) + "\n", Running)
    case DeleteFirst =>
      var n := |FirstLine(s.pat)|;
      if n >= |s.pat| then Effect(0, s.(pat := ""), "", Running)
      else Effect(1, s.(pat := s.pat[n + 1..]), "", Running)
    case PrintLineNo => Effect(ip + 1, s, LineNumber(s.lineno) + "\n", Running)
    case Get => Effect(ip + 1, s.(pat := s.hold), "", Running)
    case GetAppend => Effect(ip + 1, s.(pat := s.pat + "\n" + s.hold), "", Running)
    case Hold => Effect(ip + 1, s.(hold := s.pat), "", Running)
    case HoldAppend => Effect(ip + 1, s.(hold := s.hold + "\n" + s.pat), "", Running)
    case Swap => Effect(ip + 1, s.(pat := s.hold, hold := s.pat), "", Running)
    case Branch(target) => Effect(target, s, "", Running)
    case ChangedBranch(target) =>
      if s.modified then Effect(target, s.(modified := false), "", Running)
      else Effect(ip + 1, s, "", Running)
    case OneCond(c, met, unmet) => Effect(if IsMet(c, s) then met else unmet, s, "", Running)
    case TwoCond(c1, c2, met, unmet) =>
      var (r, on) := RunRange(c1, c2, RangeAt(s, ip), s);
      Effect(if on then met else unmet, s.(ranges := s.ranges[ip := r]), "", Running)
    case Change(text, guard) =>
      Effect(0, s, if guard.None? || IsLastLine(RangeAt(s, guard.value), s) then text else "", Running)
    case Append(text) =>
      Effect(ip + 1, s.(appl := Some(if s.appl.Some? then s.appl.value + text else text)), "", Running)
    case Insert(text) => Effect(ip + 1, s, text, Running)
    case Quit => Effect(ip, s, "", Ended)
    case Substitute(f, printing) =>
      (match f(s.pat)
       case None => Effect(ip + 1, s, "", Running)
       case Some(p) => Effect(ip + 1, s.(pat := p, modified := true), if printing then p + "\n" else "", Running))
    case Translate(f) => Effect(ip + 1, s.(pat := f(s.pat)), "", Running)
    case WriteTo(file) => Effect(ip + 1, s.(files := s.files + [(file, s.pat + "\n")]), "", Running)
  }

  // ---- whole runs ----

  /** A machine between instructions: `Crashed` is a fetch outside the program. */
  datatype Phase = Going | Halted | Crashed
  datatype Conf = Conf(ip: int, s: State, out: string, phase: Phase)

  function StepConf(p: seq<Instr>, c: Conf): Conf {
    if c.phase != Going then c
    else if !(0 <= c.ip < |p|) then c.(phase := Crashed)
    else
      var e := Step(p[c.ip], c.ip, c.s);
      Conf(e.ip, e.s, c.out + e.text, if e.status == Ended then Halted else Going)
  }

  /** The machine after `n` steps. */
  function Iter(p: seq<Instr>, c: Conf, n: nat): Conf
    decreases n
  {
    if n == 0 then c else Iter(p, StepConf(p, c), n - 1)
  }

  lemma {:induction false} IterAdd(p: seq<Instr>, c: Conf, m: nat, n: nat)
    ensures Iter(p, c, m + n) == Iter(p, Iter(p, c, m), n)
    decreases m
  {
    if m > 0 {
      IterAdd(p, StepConf(p, c), m - 1, n);
    }
  }

  lemma {:induction false} IterStopped(p: seq<Instr>, c: Conf, n: nat)
    requires c.phase != Going
    ensures Iter(p, c, n) == c
    decreases n
  {
    if n > 0 {
      IterStopped(p, c, n - 1);
    }
  }
}
