/**
  `goexpect`: a reader goroutine appends process output to a shared buffer while an Expect call drains,
  matches and gives text back. The steps are those between which the buffer's lock is free.
*/
module Expect {

  datatype Tag = OKTag | FailTag | ContinueTag | NextTag | NoTag | OtherTag

  /** A case as far as the protocol is concerned; what it matches and what it sends come with the events. */
  datatype Case = Case(tag: Tag, retries: int)

  /** Why the shared buffer is being copied. */
  datatype Why = Start | ProcessDead | TimerFired | Polled

  datatype Pc = Idle | Copying(why: Why, copied: nat) | Scanning(i: nat) | Checking | Waiting

  /** Text that left the buffers: given to the caller, or consumed by a match that goes on matching. */
  datatype Piece = Returned(text: string) | Dropped(text: string)

  datatype State = State(
    stream: string,      // everything the reader ever appended
    out: string,         // the shared buffer
    tbuf: string,        // the running call's local buffer
    log: seq<Piece>,     // what left the buffers, in order
    cases: seq<Case>,    // the running call's cases, with the retries left
    pc: Pc)

  datatype Event =
    | Append(text: string)                     // the reader adds output
    | Call(cases: seq<Case>)                   // a call begins
    | Chunk(n: nat)                            // one read of the copy loop moves n bytes
    | CopyDone                                 // the copy loop finds the buffer empty
    | Skip                                     // the current case does not match
    | Match(end: nat, sent: bool)              // it matches text[..end]; sent: there was nothing to send or it went out
    | ScanDone                                 // no case is left
    | Alive | Dead                             // the liveness check
    | Timer | Poll                             // what the call was waiting for

  /** Both kinds of case answer this way: retries are left when the counter is positive, and it always drops. */
  function Retry(c: Case): (bool, Case) {
    (c.retries > 0, c.(retries := c.retries - 1))
  }

  /** The second kind of case decrements first and compares with -1: the same answer and the same counter. */
  function RetryScript(c: Case): (bool, Case) {
    var d := c.(retries := c.retries - 1);
    (d.retries > -1, d)
  }

  lemma RetriesAgree(c: Case)
    ensures Retry(c) == RetryScript(c)
  {
  }

  predicate Enabled(s: State, e: Event) {
    match e
    case Append(_) => true
    case Call(_) => s.pc.Idle?
    case Chunk(n) => s.pc.Copying? && 0 < n <= |s.out|
    case CopyDone => s.pc.Copying? && s.out == ""
    case Skip => s.pc.Scanning? && s.pc.i < |s.cases|
    case Match(end, _) => s.pc.Scanning? && s.pc.i < |s.cases| && end <= |s.tbuf|
    case ScanDone => s.pc.Scanning? && s.pc.i >= |s.cases|
    case Alive => s.pc.Checking?
    case Dead => s.pc.Checking?
    case Timer => s.pc.Waiting?
    case Poll => s.pc.Waiting?
  }

  /** The call returns `text` and its local buffer is gone. */
  function Return(s: State, text: string): State {
    s.(log := s.log + [Returned(text)], tbuf := "", pc := Idle)
  }

  function Next(s: State, partial: bool, e: Event): State
    requires Enabled(s, e)
  {
    match e
    case Append(text) => s.(stream := s.stream + text, out := s.out + text)
    case Call(cases) => s.(cases := cases, tbuf := "", pc := Copying(Start, 0))
    case Chunk(n) => s.(tbuf := s.tbuf + s.out[..n], out := s.out[n..], pc := s.pc.(copied := s.pc.copied + n))
    case CopyDone =>
      (match s.pc.why
       case Start => s.(pc := Scanning(0))
       case ProcessDead => if s.pc.copied == 0 then Return(s, s.tbuf) else s.(pc := Waiting)
       case TimerFired => if s.pc.copied == 0 then Return(s, s.tbuf) else s.(pc := Scanning(0))
       case Polled => s.(pc := Scanning(0)))
    case Skip => s.(pc := Scanning(s.pc.i + 1))
    case Match(end, sent) => Matched(s, partial, s.pc.i, end, sent)
    case ScanDone => s.(pc := Checking)
    case Alive => s.(pc := Waiting)
    case Dead => s.(pc := Copying(ProcessDead, 0))
    case Timer => s.(pc := Copying(TimerFired, 0))
    case Poll => s.(pc := Copying(Polled, 0))
  }

  /** A match: under partial matching the text after it goes back in front of whatever has arrived meanwhile. */
  function Matched(s: State, partial: bool, i: nat, end: nat, sent: bool): State
    requires i < |s.cases| && end <= |s.tbuf|
  {
    var c := s.cases[i];
    if c.tag == NextTag && !Retry(c).0 then
      s.(cases := s.cases[i := Retry(c).1], pc := Scanning(i + 1))
    else
      var o := if partial then s.tbuf[..end] else s.tbuf;
      var t := s.(out := (if partial then s.tbuf[end..] else "") + s.out, tbuf := "");
      var spent := t.(cases := t.cases[i := Retry(c).1]);
      if c.tag == NextTag then
        if sent then Drop(spent, o) else Return(spent, o)
      else if !sent then Return(t, o)
      else if c.tag == ContinueTag then
        if Retry(c).0 then Drop(spent, o) else Return(spent, o)
      else Return(t, o)
  }

  function Drop(s: State, text: string): State {
    s.(log := s.log + [Dropped(text)], pc := Checking)
  }

  // ---- conservation ----

  function Texts(log: seq<Piece>): string {
    if log == [] then "" else Texts(log[..|log| - 1]) + log[|log| - 1].text
  }

  /** What callers received, in order. */
  function Received(log: seq<Piece>): string {
    if log == [] then ""
    else Received(log[..|log| - 1]) + if log[|log| - 1].Returned? then log[|log| - 1].text else ""
  }

  /** Nothing lost, duplicated or reordered: what left the buffers, then what is in them, is the stream. */
  ghost predicate Conserved(s: State) {
    && s.stream == Texts(s.log) + s.tbuf + s.out
    && (s.pc.Idle? ==> s.tbuf == "")
  }

  lemma LogMore(log: seq<Piece>, p: Piece)
    ensures Texts(log + [p]) == Texts(log) + p.text
    ensures Received(log + [p]) == Received(log) + if p.Returned? then p.text else ""
  {
    assert (log + [p])[..|log|] == log;
  }

  lemma AppendedBehind(log: string, tbuf: string, out: string, text: string)
    ensures log + tbuf + (out + text) == log + tbuf + out + text
  {
  }

  lemma ChunkMoved(log: string, tbuf: string, out: string, n: nat)
    requires n <= |out|
    ensures log + (tbuf + out[..n]) + out[n..] == log + tbuf + out
  {
  }

  lemma GivenBack(log: string, tbuf: string, out: string, end: nat)
    requires end <= |tbuf|
    ensures log + tbuf[..end] + "" + (tbuf[end..] + out) == log + tbuf + out
  {
    assert tbuf == tbuf[..end] + tbuf[end..];
  }

  lemma TakenWhole(log: string, tbuf: string, out: string)
    ensures log + tbuf + "" + ("" + out) == log + tbuf + out
    ensures log + tbuf + "" + out == log + tbuf + out
  {
  }

  lemma StepConserves(s: State, partial: bool, e: Event)
    requires Conserved(s) && Enabled(s, e)
    ensures Conserved(Next(s, partial, e))
  {
    hide Texts, Matched;
    var log := Texts(s.log);
    if e.Append? {
      AppendedBehind(log, s.tbuf, s.out, e.text);
    } else if e.Chunk? {
      ChunkMoved(log, s.tbuf, s.out, e.n);
    } else if e.CopyDone? {
      LogMore(s.log, Returned(s.tbuf));
      TakenWhole(log, s.tbuf, s.out);
    } else if e.Match? {
      MatchConserves(s, partial, s.pc.i, e.end, e.sent);
    }
  }

  /** A match takes a piece off the local buffer, gives the rest back and leaves nothing behind. */
  lemma TakeConserves(s: State, partial: bool, end: nat, p: Piece, s': State)
    requires Conserved(s) && end <= |s.tbuf| && p.text == (if partial then s.tbuf[..end] else s.tbuf)
    requires s'.stream == s.stream && s'.log == s.log + [p] && s'.tbuf == ""
    requires s'.out == (if partial then s.tbuf[end..] else "") + s.out
    ensures Conserved(s')
  {
    LogMore(s.log, p);
    hide Texts;
    if partial {
      GivenBack(Texts(s.log), s.tbuf, s.out, end);
    } else {
      TakenWhole(Texts(s.log), s.tbuf, s.out);
    }
  }

  lemma MatchConserves(s: State, partial: bool, i: nat, end: nat, sent: bool)
    requires Conserved(s) && s.pc.Scanning? && i < |s.cases| && end <= |s.tbuf|
    ensures Conserved(Matched(s, partial, i, end, sent))
  {
    hide Texts;
    var o := if partial then s.tbuf[..end] else s.tbuf;
    var s' := Matched(s, partial, i, end, sent);
    if s'.pc.Scanning? {
      assert s'.log == s.log;
    } else if s'.pc.Idle? {
      hide Conserved;
      TakeConserves(s, partial, end, Returned(o), s');
    } else {
      hide Conserved;
      TakeConserves(s, partial, end, Dropped(o), s');
    }
  }

  // ---- what a call takes and gives back ----

  /** The cases after a match of one that goes on matching while it has retries. */
  function Spent(cases: seq<Case>, i: nat): seq<Case>
    requires i < |cases|
  {
    cases[i := Case(cases[i].tag, cases[i].retries - 1)]
  }

  /**
    A match. Without partial matching the whole local buffer is taken and the shared one stays as it was; with it the
    text ends where the match ends, and the rest goes back in front. A next or continue case with retries left goes on,
    and any other returns; a next case without retries takes nothing.
  */
  lemma MatchTakes(s: State, partial: bool, end: nat, sent: bool)
    requires Enabled(s, Match(end, sent))
    ensures var s', i := Next(s, partial, Match(end, sent)), s.pc.i;
      var c := s.cases[i];
      if c.tag == NextTag && c.retries <= 0 then
        s' == s.(cases := Spent(s.cases, i), pc := Scanning(i + 1))
      else
        var text := if partial then s.tbuf[..end] else s.tbuf;
        var goesOn := sent && (c.tag == NextTag || (c.tag == ContinueTag && c.retries > 0));
        && s'.stream == s.stream && s'.tbuf == ""
        && s'.out == (if partial then s.tbuf[end..] + s.out else s.out)
        && s'.log == s.log + [if goesOn then Dropped(text) else Returned(text)]
        && s'.pc == (if goesOn then Checking else Idle)
        && s'.cases == if c.tag == NextTag || (c.tag == ContinueTag && sent) then Spent(s.cases, i) else s.cases
  {
    assert "" + s.out == s.out;
  }

  /** Apart from matches, a call returns exactly if the process is dead or time is up and nothing new has arrived. */
  lemma ReturnsOnly(s: State, partial: bool, e: Event)
    requires Enabled(s, e) && !e.Match?
    ensures var s' := Next(s, partial, e);
      if e == CopyDone && (s.pc.why == ProcessDead || s.pc.why == TimerFired) && s.pc.copied == 0 then
        s' == s.(log := s.log + [Returned(s.tbuf)], tbuf := "", pc := Idle)
      else s'.log == s.log && !(s'.pc.Idle? && !s.pc.Idle?)
  {
  }

  // ---- whole runs ----

  const INITIAL := State("", "", "", [], [], Idle)

  /** `ss` is a run: it starts with nothing appended and each state follows by an event of either goroutine. */
  ghost predicate IsRun(ss: seq<State>, es: seq<Event>, partial: bool) {
    && |ss| == |es| + 1 && ss[0] == INITIAL
    && forall k :: 0 <= k < |es| ==> Enabled(ss[k], es[k]) && ss[k + 1] == Next(ss[k], partial, es[k])
  }

  /** Over every interleaving, whatever matches, times out or dies: the stream is conserved in every state. */
  lemma {:induction false} RunConserves(ss: seq<State>, es: seq<Event>, partial: bool, k: nat)
    requires IsRun(ss, es, partial) && k < |ss|
    ensures Conserved(ss[k])
    decreases k
  {
    if k > 0 {
      RunConserves(ss, es, partial, k - 1);
      hide Next, Enabled, Conserved;
      StepConserves(ss[k - 1], partial, es[k - 1]);
    }
  }

  ghost predicate NothingDropped(log: seq<Piece>) {
    forall k :: 0 <= k < |log| && log[k].Dropped? ==> log[k].text == ""
  }

  lemma {:induction false} ReceivedIsAll(log: seq<Piece>)
    ensures |Received(log)| <= |Texts(log)|
    ensures NothingDropped(log) <==> |Received(log)| == |Texts(log)|
    ensures NothingDropped(log) ==> Received(log) == Texts(log)
    decreases |log|
  {
    if log != [] {
      var rest := log[..|log| - 1];
      ReceivedIsAll(rest);
      assert NothingDropped(log) <==> NothingDropped(rest) && (log[|log| - 1].Dropped? ==> log[|log| - 1].text == "") by {
        assert forall k :: 0 <= k < |rest| ==> rest[k] == log[k];
      }
    }
  }

  /** What callers received, then what is pending, is the stream. */
  ghost predicate AllReceived(s: State) {
    s.stream == Received(s.log) + s.tbuf + s.out
  }

  lemma ReceivedUnlessDropped(s: State)
    requires Conserved(s)
    ensures AllReceived(s) <==> NothingDropped(s.log)
  {
    ReceivedIsAll(s.log);
  }

  /** A case whose matches are always returned: it does not go on matching, or has no retries left to do so. */
  predicate Final(c: Case) {
    c.tag in {ContinueTag, NextTag} ==> c.retries <= 0
  }

  predicate AllFinal(cases: seq<Case>) {
    forall i :: 0 <= i < |cases| ==> Final(cases[i])
  }

  lemma FinalStep(s: State, partial: bool, e: Event)
    requires AllFinal(s.cases) && NothingDropped(s.log) && Enabled(s, e) && (e.Call? ==> AllFinal(e.cases))
    ensures var s' := Next(s, partial, e); AllFinal(s'.cases) && NothingDropped(s'.log)
  {
    if e.Match? {
      assert Final(s.cases[s.pc.i]);
    }
  }

  /** Every call of the run takes its cases from the menu. */
  ghost predicate CallsFrom(es: seq<Event>, menu: iset<seq<Case>>) {
    forall k :: 0 <= k < |es| && es[k].Call? ==> es[k].cases in menu
  }

  lemma {:induction false} FinalRun(ss: seq<State>, es: seq<Event>, partial: bool, menu: iset<seq<Case>>, k: nat)
    requires IsRun(ss, es, partial) && CallsFrom(es, menu) && (forall cs :: cs in menu ==> AllFinal(cs)) && k < |ss|
    ensures AllFinal(ss[k].cases) && NothingDropped(ss[k].log)
    decreases k
  {
    if k > 0 {
      FinalRun(ss, es, partial, menu, k - 1);
      hide Next, Enabled, AllFinal, NothingDropped;
      FinalStep(ss[k - 1], partial, es[k - 1]);
    }
  }

  /** If every case of every call is final, callers lose nothing in any state of any run. */
  lemma FinalCallsLoseNothing(ss: seq<State>, es: seq<Event>, partial: bool, menu: iset<seq<Case>>, k: nat)
    requires IsRun(ss, es, partial) && CallsFrom(es, menu) && (forall cs :: cs in menu ==> AllFinal(cs)) && k < |ss|
    ensures AllReceived(ss[k])
  {
    hide IsRun, AllFinal;
    FinalRun(ss, es, partial, menu, k);
    RunConserves(ss, es, partial, k);
    ReceivedUnlessDropped(ss[k]);
  }

  /** `Expect` makes calls with one case that has neither tag nor retries. */
  lemma ExpectLosesNothing(ss: seq<State>, es: seq<Event>, partial: bool, k: nat)
    requires IsRun(ss, es, partial) && CallsFrom(es, iset{[Case(NoTag, 0)]}) && k < |ss|
    ensures AllReceived(ss[k])
  {
    hide IsRun;
    FinalCallsLoseNothing(ss, es, partial, iset{[Case(NoTag, 0)]}, k);
  }

  /** Some run with calls from the menu ends with text that no caller received. */
  ghost predicate MayLose(menu: iset<seq<Case>>, partial: bool) {
    exists ss: seq<State>, es: seq<Event> ::
      IsRun(ss, es, partial) && CallsFrom(es, menu) && |ss| > 0 && !AllReceived(ss[|ss| - 1])
  }

  /**
    What callers receive is everything, in every run with calls from a menu, exactly if every case on the
    menu is final: the guard of the branch that goes on matching, which a caller can check before the call.
  */
  lemma LosesExactly(menu: iset<seq<Case>>, partial: bool)
    ensures MayLose(menu, partial) <==> exists cs :: cs in menu && !AllFinal(cs)
  {
    hide IsRun, CallsFrom, AllReceived, AllFinal;
    if MayLose(menu, partial) && forall cs :: cs in menu ==> AllFinal(cs) {
      var ss: seq<State>, es: seq<Event> :| IsRun(ss, es, partial) && CallsFrom(es, menu) && |ss| > 0 && !AllReceived(ss[|ss| - 1]);
      FinalCallsLoseNothing(ss, es, partial, menu, |ss| - 1);
    }
    if cs :| cs in menu && !AllFinal(cs) {
      LosingRun(menu, cs, partial);
    }
  }

  /** The call stands before case `i` with one byte read and nothing returned yet. */
  function Reached(cases: seq<Case>, i: nat): State {
    State("x", "", "x", [], cases, Scanning(i))
  }

  lemma ToFirst(cases: seq<Case>, partial: bool)
    ensures var s1 := State("x", "x", "", [], [], Idle);
      var s2 := State("x", "x", "", [], cases, Copying(Start, 0));
      var s3 := State("x", "", "x", [], cases, Copying(Start, 1));
      && Enabled(INITIAL, Append("x")) && Next(INITIAL, partial, Append("x")) == s1
      && Enabled(s1, Call(cases)) && Next(s1, partial, Call(cases)) == s2
      && Enabled(s2, Chunk(1)) && Next(s2, partial, Chunk(1)) == s3
      && Enabled(s3, CopyDone) && Next(s3, partial, CopyDone) == Reached(cases, 0)
  {
    hide Matched;
    assert "" + "x" == "x" && "x"[..1] == "x" && "x"[1..] == "";
  }

  lemma ToFirstCase(menu: iset<seq<Case>>, cases: seq<Case>, partial: bool) returns (ss: seq<State>, es: seq<Event>)
    requires cases in menu
    ensures |ss| > 0 && IsRun(ss, es, partial) && CallsFrom(es, menu) && ss[|ss| - 1] == Reached(cases, 0)
  {
    ToFirst(cases, partial);
    hide Next, Enabled, IsRun, CallsFrom;
    RunStart(partial, menu);
    ss, es := RunMore([INITIAL], [], partial, menu, Append("x"));
    ss, es := RunMore(ss, es, partial, menu, Call(cases));
    ss, es := RunMore(ss, es, partial, menu, Chunk(1));
    ss, es := RunMore(ss, es, partial, menu, CopyDone);
  }

  lemma {:induction false} ToCase(menu: iset<seq<Case>>, cases: seq<Case>, i: nat, partial: bool)
    returns (ss: seq<State>, es: seq<Event>)
    requires cases in menu && i < |cases|
    ensures |ss| > 0 && IsRun(ss, es, partial) && CallsFrom(es, menu) && ss[|ss| - 1] == Reached(cases, i)
    decreases i
  {
    hide IsRun, CallsFrom, Matched;
    if i == 0 {
      ss, es := ToFirstCase(menu, cases, partial);
    } else {
      ss, es := ToCase(menu, cases, i - 1, partial);
      ss, es := RunMore(ss, es, partial, menu, Skip);
    }
  }

  /** A match of a case that is not final consumes the byte without returning it. */
  lemma MatchLoses(cases: seq<Case>, i: nat, partial: bool)
    requires i < |cases| && !Final(cases[i])
    ensures var s := Reached(cases, i); Enabled(s, Match(1, true)) && !NothingDropped(Next(s, partial, Match(1, true)).log)
  {
    var t := Next(Reached(cases, i), partial, Match(1, true));
    assert "x"[..1] == "x";
    assert t.log == [] + [Dropped("x")];
    assert t.log[0] == Dropped("x");
  }

  lemma LosingRun(menu: iset<seq<Case>>, cases: seq<Case>, partial: bool)
    requires cases in menu && !AllFinal(cases)
    ensures MayLose(menu, partial)
  {
    var i :| 0 <= i < |cases| && !Final(cases[i]);
    MatchLoses(cases, i, partial);
    hide IsRun, CallsFrom, Next, Enabled, NothingDropped, AllReceived;
    var ss, es := ToCase(menu, cases, i, partial);
    ss, es := RunMore(ss, es, partial, menu, Match(1, true));
    RunConserves(ss, es, partial, |ss| - 1);
    ReceivedUnlessDropped(ss[|ss| - 1]);
  }

  /** One continuing case with one retry is enough to lose text. */
  lemma ContinueLosesText()
    ensures MayLose(iset{[Case(ContinueTag, 1)]}, false)
  {
    assert !Final([Case(ContinueTag, 1)][0]);
    LosingRun(iset{[Case(ContinueTag, 1)]}, [Case(ContinueTag, 1)], false);
  }

  lemma RunStart(partial: bool, menu: iset<seq<Case>>)
    ensures IsRun([INITIAL], [], partial) && CallsFrom([], menu)
  {
  }

  lemma RunMore(ss: seq<State>, es: seq<Event>, partial: bool, menu: iset<seq<Case>>, e: Event)
    returns (ss': seq<State>, es': seq<Event>)
    requires |ss| > 0 && IsRun(ss, es, partial) && CallsFrom(es, menu)
    requires Enabled(ss[|ss| - 1], e) && (e.Call? ==> e.cases in menu)
    ensures |ss'| > 0 && IsRun(ss', es', partial) && CallsFrom(es', menu)
    ensures ss'[|ss'| - 1] == Next(ss[|ss| - 1], partial, e)
  {
    hide Next, Enabled;
    ss', es' := ss + [Next(ss[|ss| - 1], partial, e)], es + [e];
    forall k | 0 <= k < |es'| ensures Enabled(ss'[k], es'[k]) && ss'[k + 1] == Next(ss'[k], partial, es'[k]) {
      if k < |es| {
        assert ss'[k] == ss[k] && es'[k] == es[k] && ss'[k + 1] == ss[k + 1];
      }
    }
  }

  // ---- every case is tried ----

  /** At step `p` case `t` was tried on the text `tbuf` and passed over. */
  ghost predicate PassedOver(ss: seq<State>, es: seq<Event>, p: nat, t: nat, tbuf: string)
    requires p < |es| < |ss|
  {
    ss[p].pc == Scanning(t) && ss[p].tbuf == tbuf && (es[p].Skip? || es[p].Match?)
  }

  ghost predicate TriedBefore(ss: seq<State>, es: seq<Event>, k: nat, t: nat, tbuf: string)
    requires k <= |es| < |ss|
  {
    exists p: nat :: p < k && PassedOver(ss, es, p, t, tbuf)
  }

  /** A scan that has come to a case has tried every case before it, on the same text: none is left out. */
  lemma {:induction false} EveryCaseTried(ss: seq<State>, es: seq<Event>, partial: bool, k: nat, t: nat)
    requires IsRun(ss, es, partial) && k < |ss| && ss[k].pc.Scanning? && t < ss[k].pc.i
    ensures TriedBefore(ss, es, k, t, ss[k].tbuf)
    decreases k
  {
    if k > 0 {
      var s, e := ss[k - 1], es[k - 1];
      assert Enabled(s, e) && ss[k] == Next(s, partial, e);
      ScanStep(s, partial, e);
      if s.pc == Scanning(t) && (e.Skip? || e.Match?) {
        assert PassedOver(ss, es, k - 1, t, ss[k].tbuf);
      } else {
        EveryCaseTried(ss, es, partial, k - 1, t);
        var p: nat :| p < k - 1 && PassedOver(ss, es, p, t, s.tbuf);
        assert PassedOver(ss, es, p, t, ss[k].tbuf);
      }
    }
  }

  /** A scan starts at the first case, or comes from the case before it or from appended output. */
  lemma ScanStep(s: State, partial: bool, e: Event)
    requires Enabled(s, e) && Next(s, partial, e).pc.Scanning?
    ensures var s' := Next(s, partial, e);
      || s'.pc.i == 0
      || (s.pc.Scanning? && s'.tbuf == s.tbuf && s'.pc.i == s.pc.i + 1 && (e.Skip? || e.Match?))
      || (e.Append? && s'.pc == s.pc && s'.tbuf == s.tbuf)
  {
  }

  /** So a call waits for more output only when it has tried all its cases on what there is. */
  lemma AllTried(ss: seq<State>, es: seq<Event>, partial: bool, k: nat, t: nat)
    requires IsRun(ss, es, partial) && k < |es| && es[k].ScanDone? && t < |ss[k].cases|
    ensures TriedBefore(ss, es, k, t, ss[k].tbuf)
  {
    assert Enabled(ss[k], es[k]);
    EveryCaseTried(ss, es, partial, k, t);
  }

  // ---- retries bound how often one call can go on matching ----

  function RetriesLeft(cases: seq<Case>): nat {
    if cases == [] then 0
    else RetriesLeft(cases[..|cases| - 1]) + if cases[|cases| - 1].retries > 0 then cases[|cases| - 1].retries else 0
  }

  lemma {:induction false} SpendOne(cases: seq<Case>, i: nat)
    requires i < |cases|
    ensures RetriesLeft(cases[i := Retry(cases[i]).1]) == RetriesLeft(cases) - if Retry(cases[i]).0 then 1 else 0
    decreases |cases|
  {
    var n := |cases| - 1;
    var spent := cases[i := Retry(cases[i]).1];
    if i < n {
      SpendOne(cases[..n], i);
      assert spent[..n] == cases[..n][i := Retry(cases[..n][i]).1];
    } else {
      assert spent[..n] == cases[..n];
    }
  }

  /** Every step within a call: going on after a match uses up one retry, and no step adds any. */
  lemma RetriesBound(s: State, partial: bool, e: Event)
    requires Enabled(s, e) && !e.Call?
    ensures var s' := Next(s, partial, e);
            var dropped := |s'.log| > |s.log| && s'.log[|s'.log| - 1].Dropped?;
            RetriesLeft(s'.cases) + (if dropped then 1 else 0) <= RetriesLeft(s.cases)
  {
    if e.Match? {
      SpendOne(s.cases, s.pc.i);
    }
  }

  function DropCount(log: seq<Piece>): nat {
    if log == [] then 0 else DropCount(log[..|log| - 1]) + if log[|log| - 1].Dropped? then 1 else 0
  }

  lemma DropCountMore(log: seq<Piece>, p: Piece)
    ensures DropCount(log + [p]) == DropCount(log) + if p.Dropped? then 1 else 0
  {
    assert (log + [p])[..|log|] == log;
  }

  lemma StepDrops(s: State, partial: bool, e: Event)
    requires Enabled(s, e) && !e.Call?
    ensures var s' := Next(s, partial, e);
            DropCount(s'.log) + RetriesLeft(s'.cases) <= DropCount(s.log) + RetriesLeft(s.cases)
  {
    hide RetriesLeft, DropCount;
    RetriesBound(s, partial, e);
    var s' := Next(s, partial, e);
    if |s'.log| > |s.log| {
      DropCountMore(s.log, s'.log[|s.log|]);
      assert s'.log == s.log + [s'.log[|s.log|]];
    }
  }

  /** Between two calls' starts, matches that go on matching are at most the retries the cases came with. */
  lemma {:induction false} CallDrops(ss: seq<State>, es: seq<Event>, partial: bool, a: nat, b: nat)
    requires IsRun(ss, es, partial) && a <= b < |ss| && forall k :: a <= k < b ==> !es[k].Call?
    ensures DropCount(ss[b].log) - DropCount(ss[a].log) <= RetriesLeft(ss[a].cases)
    ensures DropCount(ss[b].log) + RetriesLeft(ss[b].cases) <= DropCount(ss[a].log) + RetriesLeft(ss[a].cases)
    decreases b
  {
    hide Next, Enabled, RetriesLeft, DropCount;
    if a < b {
      CallDrops(ss, es, partial, a, b - 1);
      StepDrops(ss[b - 1], partial, es[b - 1]);
    }
  }
}
