/** `gosed/engine.go`: the machine as a reader whose caller chooses the buffer sizes. */
module SedReader {
  import opened Basics
  import opened SedMachine
  import opened SedSafety

  datatype Err = NoErr | FullBuffer | Eof

  datatype Executed = Executed(ip: int, s: State, text: string, err: Err)

  /** `cmd_fillNext` with `room` bytes left: text that does not fit stops it before the next line is read. */
  function ExecFill(ip: int, s: State, room: nat): Executed {
    var text := if s.appl.Some? then s.appl.value else "";
    var t := s.(appl := None);
    if |text| > room then Executed(ip, t, text, FullBuffer)
    else if t.lastl then Executed(ip, t, text, Eof)
    else Executed(ip + 1, NextLine(t), text, NoErr)
  }

  /** One call of one instruction with `room` bytes left in the buffer; `text` is all it writes, overflow included. */
  function Exec(i: Instr, ip: int, s: State, room: nat): Executed {
    match i
    case Fill => ExecFill(ip, s, room)
    case FillAppend =>
      var e := ExecFill(ip, s, room);
      e.(s := e.s.(pat := s.pat + "\n" + e.s.pat))
    case _ =>
      var e := Step(i, ip, s);
      Executed(e.ip, e.s, e.text, if |e.text| > room then FullBuffer else if e.status == Ended then Eof else NoErr)
  }

  /** `N` finds text waiting that does not fit: the one call that goes wrong. */
  predicate Rejoins(i: Instr, s: State, room: nat) {
    i.FillAppend? && s.appl.Some? && |s.appl.value| > room
  }

  /** The machine with an unlimited buffer after the steps of one call. */
  ghost function After(p: seq<Instr>, c: Conf, room: nat): (Conf, nat)
    requires c.phase == Going && 0 <= c.ip < |p|
  {
    var c1 := StepConf(p, c);
    if (p[c.ip].Fill? || p[c.ip].FillAppend?) && c.s.appl.Some? && |c.s.appl.value| <= room then (StepConf(p, c1), 2) else (c1, 1)
  }

  /** A call and the unlimited machine agree. */
  ghost predicate Agrees(e: Executed, c: Conf, c': Conf, room: nat) {
    && e.ip == c'.ip && e.s == c'.s && c.out + e.text == c'.out
    && (e.err == FullBuffer <==> |e.text| > room)
    && (e.err == Eof <==> c'.phase == Halted)
    && c'.phase != Crashed
  }

  /**
    A call with any amount of room leaves the machine exactly as the unlimited one after one or two
    steps, unless it is an `N` whose pending text does not fit: that call duplicates the pattern space.
  */
  lemma ExecAgrees(p: seq<Instr>, c: Conf, room: nat)
    requires c.phase == Going && 0 <= c.ip < |p|
    ensures Agrees(Exec(p[c.ip], c.ip, c.s, room), c, After(p, c, room).0, room) <==> !Rejoins(p[c.ip], c.s, room)
    ensures After(p, c, room).0 == Iter(p, c, After(p, c, room).1)
  {
    var i := p[c.ip];
    var c1 := StepConf(p, c);
    assert Iter(p, c, 1) == c1;
    if i.Fill? || i.FillAppend? {
      FillAgrees(p, c, room);
    } else {
      assert After(p, c, room) == (c1, 1);
      EndsSilently(i, c.ip, c.s);
    }
  }

  lemma EndsSilently(i: Instr, ip: int, s: State)
    ensures Step(i, ip, s).status == Ended ==> Step(i, ip, s).text == ""
  {
  }

  lemma FillAgrees(p: seq<Instr>, c: Conf, room: nat)
    requires c.phase == Going && 0 <= c.ip < |p| && (p[c.ip].Fill? || p[c.ip].FillAppend?)
    ensures Agrees(Exec(p[c.ip], c.ip, c.s, room), c, After(p, c, room).0, room) <==> !Rejoins(p[c.ip], c.s, room)
    ensures After(p, c, room).0 == Iter(p, c, After(p, c, room).1)
  {
    var i := p[c.ip];
    var c1 := StepConf(p, c);
    var e := Exec(i, c.ip, c.s, room);
    if c.s.appl.Some? && |c.s.appl.value| <= room {
      assert Iter(p, c, 2) == Iter(p, c1, 1) == StepConf(p, c1);
      assert c1.out + "" == c1.out;
    } else if c.s.appl.Some? {
      assert Iter(p, c, 1) == c1;
      if i.FillAppend? {
        assert |e.s.pat| == 2 * |c1.s.pat| + 1;
      }
    } else {
      assert Iter(p, c, 1) == c1;
      assert c.out + "" == c.out;
    }
  }

  /**
    Buffer sizes matter in the excluded case: after `a` then `N` with too little room, the pattern space
    holds the old line twice before the next line is joined, which it does not with an ample buffer.
  */
  lemma BufferSizeShows(s: State)
    requires s.appl == Some("x\n") && !s.lastl
    ensures var tight := Exec(FillAppend, 7, s, 1);
            var again := Exec(FillAppend, tight.ip, tight.s, 1);
            var ample := Exec(FillAppend, 7, s, 2);
            && tight.err == FullBuffer && again.err == NoErr && ample.err == NoErr
            && ample.s.pat == s.pat + "\n" + s.nxtl
            && again.s.pat == s.pat + "\n" + s.pat + "\n" + s.nxtl
            && again.s.pat != ample.s.pat
  {
    var ample := Exec(FillAppend, 7, s, 2);
    var tight := Exec(FillAppend, 7, s, 1);
    var again := Exec(FillAppend, tight.ip, tight.s, 1);
    assert |again.s.pat| > |ample.s.pat|;
  }

  // ---- facts about unlimited runs the reader relies on ----

  lemma StepLineno(i: Instr, ip: int, s: State)
    ensures Step(i, ip, s).s.lineno >= s.lineno
  {
  }

  lemma OutGrows(p: seq<Instr>, c: Conf)
    ensures c.out <= StepConf(p, c).out && StepConf(p, c).s.lineno >= c.s.lineno
  {
    if c.phase == Going && 0 <= c.ip < |p| {
      StepLineno(p[c.ip], c.ip, c.s);
    }
  }

  lemma {:induction false} OutOnlyGrows(p: seq<Instr>, c: Conf, n: nat)
    ensures c.out <= Iter(p, c, n).out && Iter(p, c, n).s.lineno >= c.s.lineno
    decreases n
  {
    if n > 0 {
      OutGrows(p, c);
      OutOnlyGrows(p, StepConf(p, c), n - 1);
    }
  }

  /** By step `m` of the run from `start` the program has ended or written more than `limit` bytes. */
  ghost predicate StopsBy(p: seq<Instr>, start: Conf, m: nat, limit: int) {
    Iter(p, start, m).phase != Going || |Iter(p, start, m).out| > limit
  }

  lemma NotYet(p: seq<Instr>, start: Conf, m: nat, limit: int, j: nat)
    requires StopsBy(p, start, m, limit) && Iter(p, start, j).phase == Going && |Iter(p, start, j).out| <= limit
    ensures j < m
  {
    if m <= j {
      IterAdd(p, start, m, j - m);
      if Iter(p, start, m).phase != Going {
        IterStopped(p, Iter(p, start, m), j - m);
      } else {
        OutOnlyGrows(p, Iter(p, start, m), j - m);
      }
    }
  }

  /** No `N` of the run is reached while appended text is pending. */
  ghost predicate Tidy(p: seq<Instr>, start: Conf) {
    forall j: nat :: var c := Iter(p, start, j);
      c.phase == Going && 0 <= c.ip < |p| && p[c.ip].FillAppend? ==> c.s.appl.None?
  }

  /** The text that an `N` reached at `c` has to put out first does not straddle the position `limit` of the stream. */
  ghost predicate ClearAt(p: seq<Instr>, c: Conf, limit: int) {
    c.phase == Going && 0 <= c.ip < |p| && p[c.ip].FillAppend? && c.s.appl.Some? && |c.out| <= limit ==>
      |c.out| + |c.s.appl.value| <= limit
  }

  /** A read that ends at position `limit` of the stream does not end inside the text of any `N`. */
  ghost predicate Clear(p: seq<Instr>, start: Conf, limit: int) {
    forall j: nat :: ClearAt(p, Iter(p, start, j), limit)
  }

  lemma TidyIsClear(p: seq<Instr>, start: Conf, limit: int)
    requires Tidy(p, start)
    ensures Clear(p, start, limit)
  {
    hide Iter;
  }

  /** An ended program: running the current instruction again only reports the end again. */
  ghost predicate AtEnd(p: seq<Instr>, ip: int, s: State) {
    0 <= ip < |p| && (p[ip].Quit? || ((p[ip].Fill? || p[ip].FillAppend?) && s.appl.None? && s.lastl))
  }

  lemma EndedIsAtEnd(p: seq<Instr>, c: Conf)
    requires c.phase == Going && 0 <= c.ip < |p| && StepConf(p, c).phase == Halted
    ensures AtEnd(p, StepConf(p, c).ip, StepConf(p, c).s)
  {
  }

  lemma AgainAtEnd(p: seq<Instr>, ip: int, s: State, room: nat)
    requires AtEnd(p, ip, s)
    ensures var e := Exec(p[ip], ip, s, room);
            e.text == "" && e.err == Eof && e.ip == ip && AtEnd(p, ip, e.s) && e.s.lineno == s.lineno
  {
  }

  lemma Appended(filled: string, over: string, str: string, n: nat, full: bool)
    requires n <= |str| && (over == "" || n == 0) && (!full ==> n == |str|)
    ensures filled + str[..n] + (if full then over + str[n..] else over) == filled + over + str
  {
    assert str == str[..n] + str[n..];
  }

  lemma SubstituteStep(f: string -> Option<string>, printing: bool, ip: int, s: State)
    ensures Step(Substitute(f, printing), ip, s)
         == var r := f(s.pat);
            if r.None? then Effect(ip + 1, s, "", Running)
            else Effect(ip + 1, s.(pat := r.value, modified := true), if printing then r.value + "\n" else "", Running)
  {
  }

  lemma ChangeStep(text: string, guard: Option<int>, ip: int, s: State)
    ensures Step(Change(text, guard), ip, s)
         == Effect(0, s, if guard.None? || IsLastLine(RangeAt(s, guard.value), s) then text else "", Running)
  {
  }

  lemma QuitStep(ip: int, s: State)
    ensures Step(Quit, ip, s) == Effect(ip, s, "", Ended)
  {
  }

  lemma ClearStep(p: seq<Instr>, start: Conf, j: nat, room: nat)
    requires Clear(p, start, |Iter(p, start, j).out| + room) && Iter(p, start, j).phase == Going
    ensures var c := Iter(p, start, j); 0 <= c.ip < |p| ==> !Rejoins(p[c.ip], c.s, room)
  {
    hide Iter;
    assert ClearAt(p, Iter(p, start, j), |Iter(p, start, j).out| + room);
  }

  /** One call of a safe program keeps the pointer inside and can only end where running again is harmless. */
  lemma AfterFacts(p: seq<Instr>, c: Conf, room: nat)
    requires |p| >= 2 && SafeCode(p, 0, |p|) && c.phase == Going && 0 <= c.ip < |p|
    ensures var c' := After(p, c, room).0;
            && 0 <= c'.ip < |p| && c'.phase != Crashed && c'.s.lineno >= c.s.lineno
            && (c'.phase == Halted ==> AtEnd(p, c'.ip, c'.s))
    ensures After(p, c, room).1 >= 1
  {
    hide SafeCode, StepConf, AtEnd;
    var c1 := StepConf(p, c);
    StepSafe(p, c);
    OutGrows(p, c);
    if c1.phase == Halted {
      EndedIsAtEnd(p, c);
    }
    if After(p, c, room).1 == 2 {
      FlushGoesOn(p, c);
      StepSafe(p, c1);
      OutGrows(p, c1);
      if StepConf(p, c1).phase == Halted {
        EndedIsAtEnd(p, c1);
      }
    }
  }

  lemma FlushGoesOn(p: seq<Instr>, c: Conf)
    requires c.phase == Going && 0 <= c.ip < |p| && (p[c.ip].Fill? || p[c.ip].FillAppend?) && c.s.appl.Some?
    ensures StepConf(p, c).phase == Going
  {
  }

  lemma StartFacts(p: seq<Instr>, start: Conf)
    ensures Iter(p, start, 0) == start
  {
  }

  lemma NextLineNumber(s: State)
    ensures NextLine(s).lineno == s.lineno + 1
  {
  }

  /** The machine and the unlimited one: same place and state while running, and `sent` is all it wrote. */
  ghost predicate Synced(p: seq<Instr>, c: Conf, ip: int, s: State, sent: string) {
    && |p| >= 2 && SafeCode(p, 0, |p|) && 0 <= ip < |p| && s.lineno >= 0
    && sent == c.out
    && (c.phase == Going ==> ip == c.ip && s == c.s)
    && (c.phase == Halted ==> AtEnd(p, ip, s))
    && c.phase != Crashed
  }

  class Vm {
    const ins: seq<Instr>
    var nxtl: string
    var pat: string
    var hold: string
    var appl: Option<string>
    var overflow: string
    var lastl: bool
    var ip: int
    var input: seq<string>
    var output: array<char>
    var off: nat              // the output slice is output[off..]
    var lineno: int
    var modified: bool
    var ranges: map<int, Range>
    var files: seq<(string, string)>

    ghost const start: Conf   // the unlimited machine at the start of the stream
    ghost var steps: nat      // how far the unlimited machine has got
    ghost var delivered: string  // what all reads so far returned

    ghost function Now(): State
      reads this
    {
      State(nxtl, pat, hold, appl, lastl, input, lineno, modified, ranges, files)
    }

    ghost function Conf(): Conf
      reads this
    {
      Iter(ins, start, steps)
    }

    /** The slice of the caller's buffer that is still free, and the rule that overflow only starts once it is full. */
    ghost predicate BufferOk()
      reads this
    {
      off <= output.Length && (overflow != "" ==> off == output.Length)
    }

    /** What this read has put out so far: the filled part of the buffer and the overflow. */
    ghost function Emitted(): string
      requires off <= output.Length
      reads this, output
    {
      output[..off] + overflow
    }

    /** In step with the unlimited machine: same state, and everything it wrote is delivered or waiting. */
    ghost predicate InStep(sent: string)
      reads this
    {
      Synced(ins, Conf(), ip, Now(), sent)
    }

    ghost predicate Fresh()
      reads this
    {
      && lineno == -1 && overflow == "" && delivered == "" && steps == 0 && appl.None? && !lastl
      && |ins| >= 2 && SafeCode(ins, 0, |ins|)
      && start == SedMachine.Conf(0, NextLine(Now()), "", Going)
    }

    ghost predicate Valid()
      reads this
    {
      Fresh() || (lineno >= 0 && InStep(delivered + overflow))
    }

    /** `Wrap`: a fresh machine over the lines of the input; guards may start in any state. */
    constructor (ins: seq<Instr>, input: seq<string>, ranges: map<int, Range>)
      requires |ins| >= 2 && SafeCode(ins, 0, |ins|)
      ensures Fresh() && this.ins == ins && start == SedMachine.Conf(0, Prime(input, ranges), "", Going)
    {
      this.ins := ins;
      nxtl, pat, hold, appl, overflow, lastl := "", "", "", None, "", false;
      ip, lineno, modified, files := -1, -1, false, [];
      this.input, this.ranges := input, ranges;
      output, off := new char[0], 0;
      start := SedMachine.Conf(0, Prime(input, ranges), "", Going);
      steps, delivered := 0, "";
    }

    /** `writeString`: fills the buffer and keeps the rest as overflow. */
    method WriteString(str: string) returns (full: bool)
      requires BufferOk()
      modifies output, `off, `overflow
      ensures BufferOk() && Emitted() == old(Emitted()) + str
      ensures full <==> |str| > output.Length - old(off)
      ensures off == if full then output.Length else old(off) + |str|
      ensures !full ==> overflow == old(overflow)
    {
      var end := output.Length - off;
      var n := |str|;
      full := false;
      ghost var over := overflow;
      if end < n {
        n := end;
        overflow := overflow + str[end..];
        full := true;
      }
      CopyIn(str[..n]);
      Appended(old(output[..off]), over, str, n, full);
    }

    /** The byte-by-byte copy into the output slice, and the slice moving past it. */
    method CopyIn(src: string)
      requires off + |src| <= output.Length
      modifies output, `off
      ensures off == old(off) + |src| && output[..off] == old(output[..off]) + src
    {
      var i := 0;
      while i < |src|
        invariant 0 <= i <= |src|
        invariant output[..off + i] == old(output[..off]) + src[..i]
        modifies output
      {
        output[off + i] := src[i];
        assert output[..off + i + 1] == output[..off + i] + [src[i]];
        assert old(output[..off]) + src[..i + 1] == old(output[..off]) + src[..i] + [src[i]];
        i := i + 1;
      }
      assert src[..i] == src;
      off := off + |src|;
    }

    /** Prints and similar: writes text without touching the rest of the machine. */
    method WriteLine(str: string) returns (full: bool)
      requires BufferOk()
      modifies output, `off, `overflow
      ensures BufferOk() && Emitted() == old(Emitted()) + (str + "\n")
      ensures full <==> |str| + 1 > output.Length - old(off)
      ensures !full ==> overflow == old(overflow)
    {
      var ignored := WriteString(str);
      full := WriteString("\n");
      assert old(Emitted()) + str + "\n" == old(Emitted()) + (str + "\n");
    }

    /** `cmd_fillNext`. */
    method FillNext() returns (err: Err)
      requires BufferOk() && overflow == ""
      modifies `ip, `pat, `lineno, `modified, `nxtl, `lastl, `input, `appl, `off, `overflow, output
      ensures BufferOk()
      ensures var e := ExecFill(old(ip), old(Now()), output.Length - old(off));
              && ip == e.ip && Now() == e.s && err == e.err && Emitted() == old(Emitted()) + e.text
              && (err != FullBuffer ==> overflow == "")
    {
      hide NextLine;
      if appl.Some? {
        var full := WriteString(appl.value);
        appl := None;
        if full {
          return FullBuffer;
        }
      } else {
        assert Emitted() + "" == Emitted();
      }
      if lastl {
        return Eof;
      }
      ip := ip + 1;
      TakeLine();
      return NoErr;
    }

    method TakeLine()
      modifies `pat, `lineno, `modified, `nxtl, `lastl, `input
      ensures Now() == NextLine(old(Now()))
    {
      pat := nxtl;
      lineno := lineno + 1;
      modified := false;
      if input == [] {
        nxtl, lastl := "", true;
      } else {
        nxtl, input := input[0], input[1..];
      }
    }

    /** The instructions that move text between the pattern and hold spaces. */
    method RunSpaces(i: Instr)
      requires i.DeleteFirst? || i.Get? || i.GetAppend? || i.Hold? || i.HoldAppend? || i.Swap?
      modifies `ip, `pat, `hold
      ensures var e := Step(i, old(ip), old(Now()));
              ip == e.ip && Now() == e.s && e.text == "" && e.status == Running
    {
      if i.DeleteFirst? {
        var n := |FirstLine(pat)|;
        if n >= |pat| {
          pat, ip := "", 0;
        } else {
          pat, ip := pat[n + 1..], 1;
        }
        return;
      }
      if i.Get? {
        pat := hold;
      } else if i.GetAppend? {
        pat := pat + "\n" + hold;
      } else if i.Hold? {
        hold := pat;
      } else if i.HoldAppend? {
        hold := hold + "\n" + pat;
      } else {
        pat, hold := hold, pat;
      }
      ip := ip + 1;
    }

    /** The other instructions that write nothing and cannot end the program. */
    method RunSilent(i: Instr)
      requires i.Append? || i.Translate? || i.WriteTo?
      modifies `ip, `pat, `appl, `files
      ensures var e := Step(i, old(ip), old(Now()));
              ip == e.ip && Now() == e.s && e.text == "" && e.status == Running
    {
      if i.Append? {
        appl := Some(if appl.Some? then appl.value + i.text else i.text);
      } else if i.Translate? {
        pat := i.translate(pat);
      } else {
        files := files + [(i.file, pat + "\n")];
      }
      ip := ip + 1;
    }

    /** The instructions that only decide where to go. */
    method RunJump(i: Instr)
      requires i.Branch? || i.ChangedBranch? || i.OneCond? || i.TwoCond?
      modifies `ip, `modified, `ranges
      ensures var e := Step(i, old(ip), old(Now()));
              ip == e.ip && Now() == e.s && e.text == "" && e.status == Running
    {
      hide RunRange, IsMet, RangeAt;
      if i.Branch? {
        ip := i.target;
      } else if i.ChangedBranch? {
        if modified {
          ip, modified := i.target, false;
        } else {
          ip := ip + 1;
        }
      } else if i.OneCond? {
        ip := if Met(i.cond) then i.met else i.unmet;
      } else {
        var on := RunTwoCond(i.start, i.end);
        ip := if on then i.met else i.unmet;
      }
    }

    function Met(c: Cond): (m: bool)
      reads this
      ensures m == IsMet(c, Now())
    {
      match c
      case LineNo(n) => lineno == n
      case LastLine => lastl
      case Regex(m) => m(pat)
    }

    /** `cmd_twocond.run`, with the guard's state kept under the address of the instruction. */
    method RunTwoCond(c1: Cond, c2: Cond) returns (on: bool)
      modifies `ranges
      ensures var (r, o) := RunRange(c1, c2, RangeAt(old(Now()), ip), old(Now()));
              on == o && ranges == old(ranges)[ip := r]
    {
      var r := if ip in ranges then ranges[ip] else Range(false, 0);
      if r.isOn && r.offFrom > 0 && r.offFrom < lineno {
        r := Range(false, 0);
      }
      if !r.isOn {
        on := Met(c1);
        if on {
          r := r.(isOn := true);
        }
      } else {
        if Met(c2) {
          r := r.(offFrom := lineno);
        }
        on := true;
      }
      ranges := ranges[ip := r];
    }

    /** The printing instructions. */
    method RunPrint(i: Instr) returns (full: bool)
      requires BufferOk() && overflow == ""
      requires i.Print? || i.PrintFirst? || i.PrintLineNo? || i.Insert?
      modifies `ip, `off, `overflow, output
      ensures BufferOk()
      ensures var e := Step(i, old(ip), old(Now()));
              && ip == e.ip && Now() == e.s && e.status == Running && Emitted() == old(Emitted()) + e.text
              && (full <==> |e.text| > output.Length - old(off)) && (!full ==> overflow == "")
    {
      hide FirstLine, LineNumber;
      ip := ip + 1;
      if i.Print? {
        full := WriteLine(pat);
      } else if i.PrintFirst? {
        full := WriteLine(FirstLine(pat));
      } else if i.PrintLineNo? {
        full := WriteLine(LineNumber(lineno));
      } else {
        full := WriteString(i.text);
      }
    }

    /** `cmd_newChanger`: a guarded change writes its text on the guard's last line only. */
    method RunChange(text: string, guard: Option<int>) returns (full: bool)
      requires BufferOk() && overflow == ""
      modifies `ip, `off, `overflow, output
      ensures BufferOk()
      ensures var e := Step(Change(text, guard), old(ip), old(Now()));
              && ip == e.ip && Now() == e.s && e.status == Running && Emitted() == old(Emitted()) + e.text
              && (full <==> |e.text| > output.Length - old(off)) && (!full ==> overflow == "")
    {
      hide Step, IsLastLine, RangeAt;
      ChangeStep(text, guard, ip, Now());
      full := false;
      ip := 0;
      if guard.None? || IsLast(guard.value) {
        full := WriteString(text);
      } else {
        assert Emitted() + "" == Emitted();
      }
    }

    /** `substitute.run`: the result is printed only when asked for. */
    method RunSubstitute(f: string -> Option<string>, printing: bool) returns (full: bool)
      requires BufferOk() && overflow == ""
      modifies `ip, `pat, `modified, `off, `overflow, output
      ensures BufferOk()
      ensures var e := Step(Substitute(f, printing), old(ip), old(Now()));
              && ip == e.ip && Now() == e.s && e.status == Running && Emitted() == old(Emitted()) + e.text
              && (full <==> |e.text| > output.Length - old(off)) && (!full ==> overflow == "")
    {
      hide Step;
      SubstituteStep(f, printing, ip, Now());
      full := false;
      ip := ip + 1;
      var r := f(pat);
      if r.Some? {
        pat, modified := r.value, true;
        if printing {
          full := WriteLine(pat);
          return;
        }
      }
      assert Emitted() + "" == Emitted();
    }

    function IsLast(at: int): (b: bool)
      reads this
      ensures b == IsLastLine(RangeAt(Now(), at), Now())
    {
      var r := if at in ranges then ranges[at] else Range(false, 0);
      r.isOn && r.offFrom == lineno
    }

    /** One instruction, as the read loop calls it. */
    method Run() returns (err: Err)
      requires BufferOk() && overflow == "" && 0 <= ip < |ins|
      modifies `ip, `pat, `hold, `appl, `lineno, `modified, `nxtl, `lastl, `input, `ranges, `files, `off, `overflow, output
      ensures BufferOk()
      ensures var e := Exec(ins[old(ip)], old(ip), old(Now()), output.Length - old(off));
              && ip == e.ip && Now() == e.s && err == e.err && Emitted() == old(Emitted()) + e.text
              && (err != FullBuffer ==> overflow == "")
    {
      hide Step, ExecFill;
      var i := ins[ip];
      if i.Fill? {
        err := FillNext();
      } else if i.FillAppend? {
        var before := pat;
        err := FillNext();
        pat := before + "\n" + pat;
      } else if i.Quit? {
        QuitStep(ip, Now());
        assert Emitted() + "" == Emitted();
        return Eof;
      } else if i.DeleteFirst? || i.Get? || i.GetAppend? || i.Hold? || i.HoldAppend? || i.Swap? {
        RunSpaces(i);
        assert Emitted() + "" == Emitted();
        return NoErr;
      } else if i.Branch? || i.ChangedBranch? || i.OneCond? || i.TwoCond? {
        RunJump(i);
        assert Emitted() + "" == Emitted();
        return NoErr;
      } else if i.Append? || i.Translate? || i.WriteTo? {
        RunSilent(i);
        assert Emitted() + "" == Emitted();
        return NoErr;
      } else {
        var full;
        if i.Change? {
          full := RunChange(i.text, i.guard);
        } else if i.Substitute? {
          full := RunSubstitute(i.replace, i.printing);
        } else {
          full := RunPrint(i);
        }
        return if full then FullBuffer else NoErr;
      }
    }

    /** One turn of the read loop keeps the machine in step with the unlimited one. */
    method Tick(ghost sent: string) returns (err: Err)
      requires BufferOk() && overflow == "" && InStep(sent + Emitted())
      requires Conf().phase == Going ==> Clear(ins, start, |sent| + output.Length)
      modifies `ip, `pat, `hold, `appl, `lineno, `modified, `nxtl, `lastl, `input, `ranges, `files, `off, `overflow, `steps, output
      ensures BufferOk() && InStep(sent + Emitted())
      ensures err == FullBuffer <==> overflow != ""
      ensures err == Eof ==> Conf().phase == Halted
      ensures err == NoErr ==> Conf().phase == Going && steps > old(steps)
      ensures lineno >= 0 && (old(Conf().phase) == Halted ==> err == Eof)
      ensures Conf().phase == Going ==> old(Conf().phase) == Going
    {
      hide Iter, StepConf, Exec, Step, SafeCode, AtEnd, Clear;
      ghost var c, room, before := Conf(), output.Length - off, Emitted();
      if c.phase == Going {
        assert |sent| + output.Length == |c.out| + room;
        ClearStep(ins, start, steps, room);
        ExecAgrees(ins, c, room);
        AfterFacts(ins, c, room);
        IterAdd(ins, start, steps, After(ins, c, room).1);
      } else {
        AgainAtEnd(ins, ip, Now(), room);
      }
      err := Run();
      if c.phase == Going {
        steps := steps + After(ins, c, room).1;
      }
      ghost var text := Emitted()[|before|..];
      assert sent + before + text == sent + (before + text);
    }

    /** The first read primes the machine; a later one first delivers what overflowed before. */
    method Resume(p: array<char>) returns (err: Err)
      requires Valid()
      modifies this, p
      ensures output == p && BufferOk() && lineno >= 0 && delivered == old(delivered)
      ensures InStep(delivered + Emitted())
      ensures err == FullBuffer <==> overflow != ""
      ensures err != Eof && steps == old(steps)
    {
      hide Iter, SafeCode, AtEnd, NextLine, Synced;
      output, off := p, 0;
      err := NoErr;
      if lineno == -1 {
        FreshFirst();
        PrimeStream();
        assert delivered + Emitted() == delivered + overflow;
      } else if |overflow| > 0 {
        var o := overflow;
        overflow := "";
        var full := WriteString(o);
        err := if full then FullBuffer else NoErr;
        assert Emitted() == o;
      } else {
        assert Emitted() == overflow;
      }
    }

    lemma FreshFirst()
      requires Valid() && lineno == -1
      ensures Fresh()
    {
    }

    method PrimeStream()
      requires Fresh()
      modifies `pat, `lineno, `modified, `nxtl, `lastl, `input, `ip
      ensures InStep(delivered + overflow) && lineno >= 0 && overflow == ""
    {
      hide Iter, SafeCode, AtEnd, NextLine;
      StartFacts(ins, start);
      NextLineNumber(Now());
      TakeLine();
      ip := 0;
    }

    /**
      `Read`: whatever the buffer's size, what it returns continues the unlimited machine's output exactly
      where the reads before it stopped, and the end is reported only once all of it has been delivered.
      `m` bounds how long the program may run before it ends or overfills the buffer.
    */
    method Read(p: array<char>, ghost m: nat) returns (n: nat, err: Err)
      requires Valid() && StopsBy(ins, start, m, |delivered| + p.Length)
      requires Conf().phase == Going ==> Clear(ins, start, |delivered| + p.Length)
      modifies this, p
      ensures Valid() && lineno >= 0 && InStep(delivered + overflow)
      ensures n <= p.Length && delivered == old(delivered) + p[..n]
      ensures err == Eof ==> n == 0 && Conf().phase == Halted && overflow == ""
      ensures err == NoErr ==> n > 0
      ensures err == FullBuffer ==> p.Length == 0
      ensures n < p.Length ==> Conf().phase == Halted
      ensures old(Conf().phase) == Halted ==> Conf().phase == Halted
    {
      hide Iter, SafeCode, AtEnd, Clear, Synced, NextLine;
      err := Resume(p);
      while err == NoErr
        invariant output == p && BufferOk() && lineno >= 0 && delivered == old(delivered)
        invariant InStep(delivered + Emitted())
        invariant err == FullBuffer <==> overflow != ""
        invariant err == Eof ==> Conf().phase == Halted
        invariant old(Conf().phase) == Halted ==> Conf().phase == Halted
        invariant Conf().phase == Going ==> Clear(ins, start, |delivered| + p.Length)
        decreases err == NoErr, if Conf().phase == Going && steps < m then m - steps else 0
      {
        Fits(m);
        err := Tick(delivered);
      }
      n := off;
      delivered := delivered + output[..off];
      assert delivered + overflow == old(delivered) + Emitted();
      if (err == FullBuffer || err == Eof) && n > 0 {
        err := NoErr;
      }
    }

    /** While nothing overflows, the unlimited machine is short of the point where this read must stop. */
    lemma Fits(m: nat)
      requires BufferOk() && overflow == "" && InStep(delivered + Emitted())
      requires StopsBy(ins, start, m, |delivered| + output.Length)
      ensures Conf().phase == Halted || (Conf().phase == Going && steps < m)
    {
      hide Iter, SafeCode, AtEnd, StopsBy;
      if Conf().phase == Going {
        NotYet(ins, start, m, |delivered| + output.Length, steps);
      }
    }
  }

  function Sum(sizes: seq<nat>): nat {
    if sizes == [] then 0 else Sum(sizes[..|sizes| - 1]) + sizes[|sizes| - 1]
  }

  lemma {:induction false} SumUpTo(sizes: seq<nat>, i: nat)
    requires i < |sizes|
    ensures Sum(sizes[..i + 1]) == Sum(sizes[..i]) + sizes[i] && Sum(sizes[..i + 1]) <= Sum(sizes)
    decreases |sizes|
  {
    var n := |sizes| - 1;
    assert sizes[..i + 1][..i] == sizes[..i];
    if i == n {
      assert sizes[..i + 1] == sizes;
    } else {
      SumUpTo(sizes[..n], i);
      assert sizes[..n][..i + 1] == sizes[..i + 1] && sizes[..n][..i] == sizes[..i];
    }
  }

  ghost predicate ClearUpTo(p: seq<Instr>, start: Conf, sizes: seq<nat>, i: nat)
    requires i < |sizes|
  {
    Clear(p, start, Sum(sizes[..i + 1]))
  }

  /** No buffer of the sequence ends inside the text that an `N` has to put out first. */
  ghost predicate AllClear(p: seq<Instr>, start: Conf, sizes: seq<nat>) {
    forall i :: 0 <= i < |sizes| ==> ClearUpTo(p, start, sizes, i)
  }

  lemma TidyIsAllClear(p: seq<Instr>, start: Conf, sizes: seq<nat>)
    requires Tidy(p, start)
    ensures AllClear(p, start, sizes)
  {
    hide Tidy, Clear;
    forall i | 0 <= i < |sizes| ensures ClearUpTo(p, start, sizes, i) {
      TidyIsClear(p, start, Sum(sizes[..i + 1]));
    }
  }

  /**
    The stream through a sequence of buffers: whatever their sizes, the bytes received are a prefix of the
    unlimited output; the end is reported only of a program that ends, and then all of it has been received;
    and for such a program one buffer more than there are bytes is enough. The program itself need not end:
    by step `m` it has ended or written more than all the buffers hold.
  */
  method Drain(vm: Vm, sizes: seq<nat>, ghost m: nat) returns (got: string, eof: bool)
    requires vm.Fresh() && AllClear(vm.ins, vm.start, sizes) && StopsBy(vm.ins, vm.start, m, Sum(sizes))
    requires forall i :: 0 <= i < |sizes| ==> sizes[i] > 0
    modifies vm
    ensures got <= Iter(vm.ins, vm.start, m).out
    ensures eof ==> Iter(vm.ins, vm.start, m).phase == Halted && got == Iter(vm.ins, vm.start, m).out
    ensures Iter(vm.ins, vm.start, m).phase == Halted && |sizes| > |Iter(vm.ins, vm.start, m).out| ==> eof
    ensures !eof ==> |got| >= |sizes|
  {
    hide Iter, SafeCode, AtEnd, Clear, NextLine, StopsBy, Sum;
    ghost var all := Iter(vm.ins, vm.start, m);
    IterSafe(vm.ins, vm.start, m);
    got, eof := "", false;
    NothingYet(sizes, all.out);
    for i := 0 to |sizes|
      invariant vm.Valid() && got == vm.delivered && got <= all.out && !eof
      invariant i <= |got| <= Sum(sizes[..i]) && (|got| == Sum(sizes[..i]) || vm.Conf().phase == Halted)
    {
      SumUpTo(sizes, i);
      assert ClearUpTo(vm.ins, vm.start, sizes, i);
      SoonerStop(vm.ins, vm.start, m, |vm.delivered| + sizes[i], Sum(sizes));
      var p := new char[sizes[i]];
      var n, err := vm.Read(p, m);
      PrefixOfAll(vm.ins, vm.start, vm.steps, m, Sum(sizes), vm.delivered, vm.overflow);
      got := got + p[..n];
      if err == Eof {
        eof := true;
        return;
      }
    }
    SumAll(sizes);
  }

  lemma NothingYet(sizes: seq<nat>, out: string)
    ensures "" <= out && Sum(sizes[..0]) == 0
  {
  }

  lemma SumAll(sizes: seq<nat>)
    ensures Sum(sizes[..|sizes|]) == Sum(sizes)
  {
    assert sizes[..|sizes|] == sizes;
  }

  lemma SoonerStop(p: seq<Instr>, start: Conf, m: nat, less: int, limit: int)
    requires StopsBy(p, start, m, limit) && less <= limit
    ensures StopsBy(p, start, m, less)
  {
  }

  lemma PrefixOfAll(p: seq<Instr>, start: Conf, j: nat, m: nat, limit: int, sent: string, waiting: string)
    requires StopsBy(p, start, m, limit) && Iter(p, start, m).phase != Crashed
    requires sent + waiting == Iter(p, start, j).out && |sent| <= limit
    ensures sent <= Iter(p, start, m).out
    ensures Iter(p, start, j).phase == Halted && waiting == "" ==>
      Iter(p, start, m).phase == Halted && sent == Iter(p, start, m).out
  {
    hide Iter;
    if j <= m {
      Onwards(p, start, j, m);
    } else {
      Onwards(p, start, m, j);
    }
    assert sent <= sent + waiting;
  }

  /** Between two steps of a run the output only grows, and after the end nothing changes. */
  lemma Onwards(p: seq<Instr>, start: Conf, j: nat, m: nat)
    requires j <= m
    ensures Iter(p, start, j).out <= Iter(p, start, m).out
    ensures Iter(p, start, j).phase == Halted ==> Iter(p, start, m) == Iter(p, start, j)
  {
    hide Iter;
    IterAdd(p, start, j, m - j);
    OutOnlyGrows(p, Iter(p, start, j), m - j);
    if Iter(p, start, j).phase == Halted {
      IterStopped(p, Iter(p, start, j), m - j);
    }
  }

  /** The stream the reader delivers does not depend on how the caller sizes the buffers. */
  method TwoReaders(ins: seq<Instr>, input: seq<string>, ranges: map<int, Range>, a: seq<nat>, b: seq<nat>, ghost m: nat)
    returns (gotA: string, eofA: bool, gotB: string, eofB: bool)
    requires |ins| >= 2 && SafeCode(ins, 0, |ins|)
    requires var start := Conf(0, Prime(input, ranges), "", Going);
             && AllClear(ins, start, a) && AllClear(ins, start, b)
             && StopsBy(ins, start, m, Sum(a)) && StopsBy(ins, start, m, Sum(b))
    requires (forall i :: 0 <= i < |a| ==> a[i] > 0) && (forall i :: 0 <= i < |b| ==> b[i] > 0)
    ensures eofA && eofB ==> gotA == gotB
    ensures gotA <= gotB || gotB <= gotA
    ensures (eofA ==> gotB <= gotA) && (eofB ==> gotA <= gotB)
  {
    hide Iter, SafeCode, AtEnd, AllClear, Prime, StopsBy, Sum;
    var vmA := new Vm(ins, input, ranges);
    gotA, eofA := Drain(vmA, a, m);
    var vmB := new Vm(ins, input, ranges);
    gotB, eofB := Drain(vmB, b, m);
    ghost var all := Iter(ins, Conf(0, Prime(input, ranges), "", Going), m).out;
    assert gotA == all[..|gotA|] && gotB == all[..|gotB|];
  }
}
