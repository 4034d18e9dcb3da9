/** `lockedfile.Transform`: rewriting a file in place, with rollback, when any step may fail. */
module LockedFile {
  import opened Basics

  type Byte = b: int | 0 <= b < 256

  /** What the operating system does with a write: all of it, or only the first `done` bytes and an error. */
  datatype Outcome = Works | Breaks(done: nat)

  /** The file's bytes after writing `b` at offset `off`. */
  function Written(data: seq<Byte>, b: seq<Byte>, off: nat): seq<Byte>
    requires off <= |data|
  {
    if off + |b| <= |data| then data[..off] + b + data[off + |b|..] else data[..off] + b
  }

  class OsFile {
    var data: seq<Byte>
    ghost var trace: seq<seq<Byte>>  // every contents the file has had, byte by byte

    constructor (data: seq<Byte>)
      ensures this.data == data && trace == []
    {
      this.data, trace := data, [];
    }

    /** `WriteAt`: an empty write makes no system call and cannot fail. */
    method WriteAt(b: seq<Byte>, off: nat, o: Outcome) returns (failed: bool)
      requires off <= |data|
      modifies this
      ensures var n := if o.Breaks? && o.done < |b| then o.done else |b|;
              && data == Written(old(data), b[..n], off)
              && trace == old(trace) + Prefixes(old(data), b[..n], off)
      ensures failed <==> o.Breaks? && b != []
    {
      var n := if o.Breaks? && o.done < |b| then o.done else |b|;
      trace := trace + Prefixes(data, b[..n], off);
      data := Written(data, b[..n], off);
      failed := o.Breaks? && b != [];
    }

    /** `Truncate`: cuts the file, or fails and leaves it alone. */
    method Truncate(n: nat, works: bool) returns (failed: bool)
      requires n <= |data|
      modifies this
      ensures data == if works then old(data)[..n] else old(data)
      ensures trace == old(trace) + [data]
      ensures failed == !works
    {
      if works {
        data := data[..n];
      }
      trace := trace + [data];
      failed := !works;
    }
  }

  /** The contents a write passes through, one byte after the other. */
  ghost function Prefixes(data: seq<Byte>, b: seq<Byte>, off: nat): seq<seq<Byte>>
    requires off <= |data|
  {
    seq(|b| + 1, k requires 0 <= k <= |b| => Written(data, b[..k], off))
  }

  /** One outcome for each step `Transform` may take. */
  datatype Faults = Faults(
    openOk: bool, readOk: bool,
    tail: Outcome, dropTail: bool,       // growing: the new tail, and removing it again
    body: Outcome, shrink: bool,         // overwriting the old contents, and cutting the rest
    restore: Outcome, cutBack: bool)     // the deferred rollback

  /** The file on its way from `old` to `new`: `i` bytes overwritten, `j` bytes of new tail in place. */
  ghost function Mix(was: seq<Byte>, want: seq<Byte>, i: nat, j: nat): seq<Byte>
    requires i <= |was| && i <= |want| && (j > 0 ==> |was| + j <= |want|)
  {
    want[..i] + was[i..] + if j > 0 then want[|was|..|was| + j] else []
  }

  /**
    A contents from which nothing is lost yet: old bytes from `i` on, the new ones before, and no old
    byte overwritten unless the whole new tail is already in the file.
  */
  ghost predicate OnTheWay(d: seq<Byte>, was: seq<Byte>, want: seq<Byte>) {
    exists i: nat, j: nat ::
      && i <= |was| && i <= |want| && (j > 0 ==> |was| + j <= |want|) && (i > 0 && |want| > |was| ==> j == |want| - |was|)
      && d == Mix(was, want, i, j)
  }

  /** Some step that is actually taken fails. */
  predicate Fails(x: Faults, was: seq<Byte>, want: seq<Byte>) {
    || (|want| > |was| && x.tail.Breaks?)
    || (x.body.Breaks? && was != [] && want != [])
    || (|want| < |was| && !x.shrink)
  }

  /** How many bytes a write that should put down `n` bytes really puts down. */
  function Done(o: Outcome, n: nat): nat {
    if o.Breaks? && o.done < n then o.done else n
  }

  /**
    When a failed run leaves the old contents behind. If growing failed: the tail was cut off again, or none
    of it was written. Otherwise: the old bytes were all written back and any tail cut off, or every byte
    the broken write-back missed was still, or again, the old one.
  */
  predicate Recovered(x: Faults, was: seq<Byte>, want: seq<Byte>) {
    if |want| > |was| && x.tail.Breaks? then
      x.dropTail || Done(x.tail, |want| - |was|) == 0
    else
      var k := Done(x.body, if |want| < |was| then |want| else |was|);
      var j := Done(x.restore, |was|);
      if x.restore.Works? || was == [] then x.cutBack || |want| <= |was|
      else |want| <= |was| && forall i :: j <= i < k ==> want[i] == was[i]
  }

  lemma PrefixesLong(data: seq<Byte>, b: seq<Byte>, off: nat, k: nat)
    requires off <= |data| && k <= |b|
    ensures |Prefixes(data, b, off)| == |b| + 1 && |Prefixes(data, b, off)[k]| >= |data|
  {
  }

  /** Writing the tail: each byte extends the file, nothing old is touched. */
  lemma TailOnTheWay(was: seq<Byte>, want: seq<Byte>, n: nat, k: nat)
    requires |was| + n <= |want| && k <= n
    ensures OnTheWay(Prefixes(was, want[|was|..][..n], |was|)[k], was, want)
  {
    var b := want[|was|..][..n];
    assert b[..k] == want[|was|..|was| + k];
    assert Written(was, b[..k], |was|) == was + b[..k];
    assert want[..0] + was[0..] == was;
    assert Mix(was, want, 0, k) == was + b[..k];
  }

  /** Overwriting: each byte replaces an old one while the whole new tail is in place. */
  lemma BodyOnTheWay(was: seq<Byte>, want: seq<Byte>, n: nat, k: nat)
    requires n <= |was| && n <= |want| && k <= n
    ensures var tail := if |want| > |was| then want[|was|..] else [];
            OnTheWay(Prefixes(was + tail, want[..n], 0)[k], was, want)
  {
    var tail := if |want| > |was| then want[|was|..] else [];
    var j := if |want| > |was| then |want| - |was| else 0;
    assert want[..n][..k] == want[..k];
    assert (was + tail)[k..] == was[k..] + tail;
    assert Mix(was, want, k, j) == want[..k] + was[k..] + tail;
    assert Written(was + tail, want[..k], 0) == want[..k] + (was + tail)[k..];
  }

  /** From entry `n` on, the file was never shorter than the old contents. */
  ghost predicate Long(trace: seq<seq<Byte>>, n: nat, was: seq<Byte>) {
    forall k :: n <= k < |trace| ==> |trace[k]| >= |was|
  }

  /** Nor is it before, on the way: the file is only ever cut as the last step of a shrinking success. */
  lemma OnTheWayLong(d: seq<Byte>, was: seq<Byte>, want: seq<Byte>)
    requires OnTheWay(d, was, want)
    ensures |d| >= |was|
  {
  }

  lemma ForwardMore(t0: seq<seq<Byte>>, was: seq<Byte>, want: seq<Byte>, d: seq<Byte>, n: nat)
    requires Forward(t0, |t0|, was, want) && n <= |was| && n <= |want|
    requires d == was + (if |want| > |was| then want[|was|..] else [])
    ensures var t := t0 + Prefixes(d, want[..n], 0); Forward(t, |t|, was, want)
  {
    hide OnTheWay;
    var t := t0 + Prefixes(d, want[..n], 0);
    forall i | 0 <= i < |t| ensures OnTheWay(t[i], was, want) {
      if i >= |t0| {
        BodyOnTheWay(was, want, n, i - |t0|);
      }
    }
  }

  lemma ForwardTail(was: seq<Byte>, want: seq<Byte>, n: nat)
    requires |was| + n <= |want|
    ensures var t := Prefixes(was, want[|was|..][..n], |was|); Forward(t, |t|, was, want)
  {
    hide OnTheWay;
    var t := Prefixes(was, want[|was|..][..n], |was|);
    forall i | 0 <= i < |t| ensures OnTheWay(t[i], was, want) {
      TailOnTheWay(was, want, n, i);
    }
  }

  /** The deferred rollback: puts the old bytes back and, if that worked, cuts the file to its old length. */
  method Rollback(f: OsFile, was: seq<Byte>, restore: Outcome, cutBack: bool)
    requires |f.data| >= |was|
    modifies f
    ensures f.data == RolledBack(old(f.data), was, restore, cutBack)
    ensures old(f.trace) <= f.trace && Long(f.trace, old(|f.trace|), was)
  {
    ghost var d := f.data;
    var failed := f.WriteAt(was, 0, restore);
    forall k | 0 <= k <= Done(restore, |was|)
      ensures |Prefixes(d, was[..Done(restore, |was|)], 0)[k]| >= |d|
    {
      PrefixesLong(d, was[..Done(restore, |was|)], 0, k);
    }
    assert was[..|was|] == was;
    if !failed {
      var ignored := f.Truncate(|was|, cutBack);
    }
  }

  /** Up to here the file only grew towards the new contents. */
  ghost predicate Forward(trace: seq<seq<Byte>>, n: nat, was: seq<Byte>, want: seq<Byte>) {
    n <= |trace| && forall k :: 0 <= k < n ==> OnTheWay(trace[k], was, want)
  }

  /**
    `Transform`, under every combination of faults. `n` marks where forward progress ended: before it, every
    contents the file had is on the way from old to new.
  */
  method Transform(f: OsFile, t: seq<Byte> -> Option<seq<Byte>>, x: Faults) returns (failed: bool, ghost n: nat)
    requires f.trace == []
    modifies f
    ensures !x.openOk || !x.readOk || t(old(f.data)).None? ==> failed && f.data == old(f.data) && f.trace == []
    ensures x.openOk && x.readOk && t(old(f.data)).Some? ==>
              var was, want := old(f.data), t(old(f.data)).value;
              && (failed <==> Fails(x, was, want))
              && (!failed ==> f.data == want)
              && (failed ==> (f.data == was <==> Recovered(x, was, want)))
              && Forward(f.trace, n, was, want)
              && (!failed ==> |f.trace| <= n + 1 && (|f.trace| == n + 1 ==> f.trace[n] == want))
              && (failed ==> Long(f.trace, n, was))
  {
    n := 0;
    if !x.openOk || !x.readOk {
      return true, 0;
    }
    var was := f.data;
    var r := t(was);
    if r.None? {
      return true, 0;
    }
    var want := r.value;
    if |want| > |was| {
      failed := WriteTail(f, was, want, x);
      n := |f.trace|;
      if failed {
        TailOutcome(x, was, want);
        var ignored := f.Truncate(|was|, x.dropTail);
        return;
      }
      assert want[|was|..|was| + (|want| - |was|)] == want[|was|..];
    } else {
      assert was == was + [];
    }
    failed, n := WriteBody(f, was, want, x);
    if failed {
      BodyOutcome(x, was, want, f.data);
      Rollback(f, was, x.restore, x.cutBack);
    }
  }

  lemma TailOutcome(x: Faults, was: seq<Byte>, want: seq<Byte>)
    requires |want| > |was| && x.tail.Breaks?
    ensures var n := Done(x.tail, |want| - |was|);
            var d := was + want[|was|..|was| + n];
            (if x.dropTail then d[..|was|] else d) == was <==> Recovered(x, was, want)
  {
  }

  ghost function RolledBack(d: seq<Byte>, was: seq<Byte>, restore: Outcome, cutBack: bool): seq<Byte>
    requires |d| >= |was|
  {
    if restore.Works? || was == [] then was + (if cutBack then [] else d[|was|..])
    else was[..Done(restore, |was|)] + d[Done(restore, |was|)..]
  }

  lemma BodyOutcome(x: Faults, was: seq<Byte>, want: seq<Byte>, d: seq<Byte>)
    requires !(|want| > |was| && x.tail.Breaks?)
    requires d == Overwritten(was, want, Done(x.body, Common(was, want)))
    ensures RolledBack(d, was, x.restore, x.cutBack) == was <==> Recovered(x, was, want)
  {
    var r := RolledBack(d, was, x.restore, x.cutBack);
    var k := Done(x.body, if |want| < |was| then |want| else |was|);
    var j := Done(x.restore, |was|);
    if x.restore.Breaks? && was != [] {
      assert forall i :: 0 <= i < j ==> r[i] == was[i];
      assert forall i :: j <= i < |was| ==> r[i] == d[i];
      assert forall i :: 0 <= i < |was| ==> d[i] == if i < k then want[i] else was[i];
      assert |r| == |d|;
      if Recovered(x, was, want) {
        assert r == was;
      } else if |want| <= |was| {
        var i :| j <= i < k && want[i] != was[i];
        assert r[i] != was[i];
      }
    } else if |want| > |was| && !x.cutBack {
      assert |r| > |was|;
    } else {
      assert r == was;
    }
  }

  method WriteTail(f: OsFile, was: seq<Byte>, want: seq<Byte>, x: Faults) returns (failed: bool)
    requires f.data == was && f.trace == [] && |want| > |was|
    modifies f
    ensures failed <==> x.tail.Breaks?
    ensures f.data == was + want[|was|..|was| + Done(x.tail, |want| - |was|)]
    ensures Forward(f.trace, |f.trace|, was, want)
  {
    hide Forward, OnTheWay;
    ghost var n := Done(x.tail, |want| - |was|);
    ForwardTail(was, want, n);
    failed := f.WriteAt(want[|was|..], |was|, x.tail);
    assert want[|was|..][..n] == want[|was|..|was| + n];
    assert [] + Prefixes(was, want[|was|..][..n], |was|) == Prefixes(was, want[|was|..][..n], |was|);
  }

  /** Overwrites the old bytes and, when the new contents are shorter, cuts the file. */
  method WriteBody(f: OsFile, was: seq<Byte>, want: seq<Byte>, x: Faults) returns (failed: bool, ghost n: nat)
    requires f.data == was + (if |want| > |was| then want[|was|..] else []) && Forward(f.trace, |f.trace|, was, want)
    modifies f
    ensures failed <==> (x.body.Breaks? && was != [] && want != []) || (|want| < |was| && !x.shrink)
    ensures !failed ==> f.data == want
    ensures failed ==> f.data == Overwritten(was, want, Done(x.body, Common(was, want)))
    ensures n <= |f.trace| && Forward(f.trace, n, was, want)
    ensures failed ==> n == |f.trace|
    ensures !failed ==> |f.trace| <= n + 1 && (|f.trace| == n + 1 ==> f.trace[n] == want)
  {
    hide OnTheWay;
    failed := Overwrite(f, was, want, x);
    n := |f.trace|;
    if !failed && |want| < |was| {
      assert f.data == want + was[|want|..];
      failed := f.Truncate(|want|, x.shrink);
      if failed {
        StillOnTheWay(f.data, was, want);
        n := |f.trace|;
      }
    } else if !failed {
      assert want == want[..|was|] + want[|was|..];
      assert was[|was|..] == [];
    }
  }

  lemma StillOnTheWay(d: seq<Byte>, was: seq<Byte>, want: seq<Byte>)
    requires |want| < |was| && d == want + was[|want|..]
    ensures OnTheWay(d, was, want)
  {
    assert want[..|want|] == want;
    assert d == Mix(was, want, |want|, 0);
  }

  function Common(was: seq<Byte>, want: seq<Byte>): nat {
    if |want| < |was| then |want| else |was|
  }

  /** The file once `k` old bytes are overwritten, with any new tail in place. */
  function Overwritten(was: seq<Byte>, want: seq<Byte>, k: nat): seq<Byte>
    requires k <= Common(was, want)
  {
    want[..k] + was[k..] + (if |want| > |was| then want[|was|..] else [])
  }

  method Overwrite(f: OsFile, was: seq<Byte>, want: seq<Byte>, x: Faults) returns (failed: bool)
    requires f.data == was + (if |want| > |was| then want[|was|..] else []) && Forward(f.trace, |f.trace|, was, want)
    modifies f
    ensures failed <==> x.body.Breaks? && was != [] && want != []
    ensures f.data == Overwritten(was, want, Done(x.body, Common(was, want)))
    ensures !failed ==> Done(x.body, Common(was, want)) == Common(was, want)
    ensures Forward(f.trace, |f.trace|, was, want)
  {
    hide Forward, OnTheWay;
    ghost var m := Common(was, want);
    ghost var k := Done(x.body, m);
    ForwardMore(f.trace, was, want, f.data, k);
    OverwrittenIs(was, want, k);
    assert want[..m][..k] == want[..k];
    if |want| >= |was| {
      failed := f.WriteAt(want[..|was|], 0, x.body);
    } else {
      assert want[..m] == want;
      failed := f.WriteAt(want, 0, x.body);
    }
  }

  lemma OverwrittenIs(was: seq<Byte>, want: seq<Byte>, k: nat)
    requires k <= Common(was, want)
    ensures Written(was + (if |want| > |was| then want[|was|..] else []), want[..k], 0) == Overwritten(was, want, k)
  {
  }
}
