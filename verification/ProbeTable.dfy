/**
  The open-addressing table as a value: slot `i` of the ring holds key `ks[i]` with value `vs[i]`,
  and key 0 marks a free slot. Every notion the hash map's methods are specified with lives here.
*/
module ProbeTable {

  const FREE_KEY := 0

  /** The slot where the search for `k` starts. */
  function Home(phi: int -> int, cap: int, k: int): (h: int)
    requires cap > 0
    ensures 0 <= h < cap
  {
    phi(k) % cap
  }

  /** Steps from slot `a` forward around the ring to slot `b`. */
  function Dist(a: int, b: int, cap: int): int {
    if a <= b then b - a else b - a + cap
  }

  function Next(i: int, cap: int): int {
    if i + 1 == cap then 0 else i + 1
  }

  ghost predicate NoDup(ks: seq<int>) {
    forall i, j :: 0 <= i < |ks| && 0 <= j < |ks| && i != j && ks[i] != FREE_KEY ==> ks[i] != ks[j]
  }

  /** Slot `j` lies on the probe path of the key at slot `p`, strictly before `p`. */
  ghost predicate OnPath(phi: int -> int, ks: seq<int>, p: int, j: int)
    requires 0 <= p < |ks| && 0 <= j < |ks|
  {
    var h := Home(phi, |ks|, ks[p]);
    Dist(h, j, |ks|) < Dist(h, p, |ks|)
  }

  /** The probe invariant: no free slot on the path from a key's home to its slot; slot `skip` is exempt. */
  ghost predicate Probed(phi: int -> int, ks: seq<int>, skip: int) {
    forall p, j :: 0 <= p < |ks| && p != skip && ks[p] != FREE_KEY && 0 <= j < |ks| && OnPath(phi, ks, p, j)
      ==> ks[j] != FREE_KEY
  }

  ghost predicate HasFree(ks: seq<int>) {
    exists i :: 0 <= i < |ks| && ks[i] == FREE_KEY
  }

  /** The table stands for the finite map `m`: the same keys, each in one slot with its value. */
  ghost predicate Holds(ks: seq<int>, vs: seq<int>, m: map<int, int>) {
    && |ks| == |vs| && NoDup(ks)
    && (forall i :: 0 <= i < |ks| && ks[i] != FREE_KEY ==> ks[i] in m && m[ks[i]] == vs[i])
    && (forall k :: k in m ==> k != FREE_KEY && k in ks)
  }

  lemma HoldsOne(ks: seq<int>, vs: seq<int>, m: map<int, int>, m': map<int, int>)
    requires Holds(ks, vs, m) && Holds(ks, vs, m')
    ensures m == m'
  {
    forall k | k in ks && k != FREE_KEY ensures k in m && k in m' && m[k] == m'[k] {
      var i :| 0 <= i < |ks| && ks[i] == k;
    }
  }

  lemma InsertHolds(ks: seq<int>, vs: seq<int>, m: map<int, int>, i: int, k: int, v: int)
    requires Holds(ks, vs, m) && 0 <= i < |ks| && ks[i] == FREE_KEY && k != FREE_KEY && k !in ks
    ensures Holds(ks[i := k], vs[i := v], m[k := v]) && k !in m
  {
    var ks' := ks[i := k];
    assert ks'[i] == k;
    forall x | x in m ensures x in ks' {
      var j :| 0 <= j < |ks| && ks[j] == x;
      assert ks'[j] == x;
    }
  }

  lemma OverwriteHolds(ks: seq<int>, vs: seq<int>, m: map<int, int>, i: int, v: int)
    requires Holds(ks, vs, m) && 0 <= i < |ks| && ks[i] != FREE_KEY
    ensures ks[i := ks[i]] == ks && Holds(ks, vs[i := v], m[ks[i] := v]) && ks[i] in m
  {
  }

  lemma RemoveHolds(ks: seq<int>, vs: seq<int>, m: map<int, int>, i: int)
    requires Holds(ks, vs, m) && 0 <= i < |ks| && ks[i] != FREE_KEY
    ensures Holds(ks[i := FREE_KEY], vs, m - {ks[i]}) && ks[i] in m
  {
    var ks' := ks[i := FREE_KEY];
    forall x | x in m - {ks[i]} ensures x in ks' {
      var j :| 0 <= j < |ks| && ks[j] == x;
      assert ks'[j] == x;
    }
  }

  /** Reading the slots in order builds the map: slot `n` contributes its entry unless it is free. */
  lemma ExtendHolds(ks: seq<int>, vs: seq<int>, part: map<int, int>, n: nat)
    requires |ks| == |vs| && NoDup(ks) && n < |ks| && Holds(ks[..n], vs[..n], part)
    ensures Holds(ks[..n + 1], vs[..n + 1], if ks[n] == FREE_KEY then part else part[ks[n] := vs[n]])
    ensures ks[n] !in part || ks[n] == FREE_KEY
  {
    var a, b := ks[..n], ks[..n + 1];
    assert b[n] == ks[n];
    forall x | x in a ensures x in b {
      var j :| 0 <= j < n && a[j] == x;
      assert b[j] == x;
    }
    forall j | 0 <= j < n ensures b[j] == a[j] {}
  }

  lemma PrefixHolds(ks: seq<int>, vs: seq<int>, m: map<int, int>, part: map<int, int>, n: nat)
    requires Holds(ks, vs, m) && n < |ks| && Holds(ks[..n], vs[..n], part) && ks[n] != FREE_KEY && ks[n] !in part
    ensures |part| < |m|
  {
    forall x | x in part ensures x in m {
      var j :| 0 <= j < n && ks[..n][j] == x;
      assert ks[j] == x;
    }
    assert part.Keys < m.Keys by { assert ks[n] in m; }
    ProperSubset(part.Keys, m.Keys);
  }

  lemma ProperSubset(a: set<int>, b: set<int>)
    requires a < b
    ensures |a| < |b|
  {
    assert |b| == |a| + |b - a|;
  }

  /** A search from home slot `h` has passed every slot up to `i` and met neither `k` nor a free slot. */
  ghost predicate Passed(ks: seq<int>, h: int, i: int, k: int) {
    forall j :: 0 <= j < |ks| && Dist(h, j, |ks|) < Dist(h, i, |ks|) ==> ks[j] != FREE_KEY && ks[j] != k
  }

  lemma PassNone(ks: seq<int>, h: int, k: int)
    requires 0 <= h < |ks|
    ensures Passed(ks, h, h, k)
  {
  }

  lemma PassOne(ks: seq<int>, h: int, i: int, k: int, end: int)
    requires 0 <= h < |ks| && 0 <= i < |ks| && 0 <= end < |ks|
    requires Passed(ks, h, i, k) && ks[i] != FREE_KEY && ks[i] != k && (ks[end] == FREE_KEY || ks[end] == k)
    ensures Passed(ks, h, Next(i, |ks|), k)
    ensures 0 <= Dist(Next(i, |ks|), end, |ks|) < Dist(i, end, |ks|)
  {
  }

  /** The key a search for `k` meets: a free slot reached along occupied slots means `k` is absent. */
  lemma SearchMiss(phi: int -> int, ks: seq<int>, k: int, i: int)
    requires Probed(phi, ks, -1) && 0 <= i < |ks| && ks[i] == FREE_KEY && k != FREE_KEY
    requires Passed(ks, Home(phi, |ks|, k), i, k)
    ensures k !in ks
  {
    if k in ks {
      var p :| 0 <= p < |ks| && ks[p] == k;
      assert OnPath(phi, ks, p, i);
    }
  }

  lemma InsertProbed(phi: int -> int, ks: seq<int>, k: int, i: int)
    requires Probed(phi, ks, -1) && 0 <= i < |ks| && ks[i] == FREE_KEY && k != FREE_KEY
    requires Passed(ks, Home(phi, |ks|, k), i, k)
    ensures Probed(phi, ks[i := k], -1)
  {
    var ks' := ks[i := k];
    forall p, j | 0 <= p < |ks'| && ks'[p] != FREE_KEY && 0 <= j < |ks'| && OnPath(phi, ks', p, j)
      ensures ks'[j] != FREE_KEY
    {
      if p != i {
        assert OnPath(phi, ks, p, j);
      }
    }
  }

  /** Distinct keys filling every slot are as many as the slots, so fewer keys leave a free slot. */
  lemma {:induction false} Pigeonhole(ks: seq<int>, keys: set<int>)
    requires NoDup(ks) && forall i :: 0 <= i < |ks| ==> ks[i] != FREE_KEY && ks[i] in keys
    ensures |ks| <= |keys|
  {
    if ks != [] {
      var last := |ks| - 1;
      Pigeonhole(ks[..last], keys - {ks[last]});
    }
  }

  lemma FreeSlot(ks: seq<int>, vs: seq<int>, m: map<int, int>)
    requires Holds(ks, vs, m) && |m| < |ks|
    ensures HasFree(ks)
  {
    if !HasFree(ks) {
      Pigeonhole(ks, m.Keys);
    }
  }

  ghost function KeysIn(ks: seq<int>): set<int> {
    set k | k in ks && k != FREE_KEY
  }

  lemma {:induction false} KeysCount(ks: seq<int>)
    ensures |KeysIn(ks)| <= |ks| && (HasFree(ks) ==> |KeysIn(ks)| < |ks|)
    decreases |ks|
  {
    if ks != [] {
      var last := |ks| - 1;
      KeysCount(ks[..last]);
      assert ks == ks[..last] + [ks[last]];
      if ks[last] == FREE_KEY {
        assert KeysIn(ks) == KeysIn(ks[..last]);
      } else {
        assert KeysIn(ks) == KeysIn(ks[..last]) + {ks[last]};
        if HasFree(ks) {
          var i :| 0 <= i < |ks| && ks[i] == FREE_KEY;
          assert ks[..last][i] == FREE_KEY;
        }
      }
    }
  }

  /** There is a free slot exactly if there are fewer entries than slots. */
  lemma FreeIsRoom(ks: seq<int>, vs: seq<int>, m: map<int, int>)
    requires Holds(ks, vs, m)
    ensures HasFree(ks) <==> |m| < |ks|
  {
    if |m| < |ks| {
      FreeSlot(ks, vs, m);
    }
    if HasFree(ks) {
      KeysCount(ks);
      HeldKeys(ks, vs, m);
    }
  }

  lemma HeldKeys(ks: seq<int>, vs: seq<int>, m: map<int, int>)
    requires Holds(ks, vs, m)
    ensures m.Keys == KeysIn(ks)
  {
    forall k ensures k in m.Keys <==> k in KeysIn(ks) {
      if k in ks && k != FREE_KEY {
        var i :| 0 <= i < |ks| && ks[i] == k;
        assert ks[i] in m;
      }
    }
  }

  /** The slot a search from slot `h` looks at after `n` steps. */
  function Walk(h: int, n: nat, cap: int): int {
    if n == 0 then h else Next(Walk(h, n - 1, cap), cap)
  }

  /** In a full table the search for an absent key never comes to a slot that would end it. */
  lemma {:induction false} NeverEnds(phi: int -> int, ks: seq<int>, k: int, n: nat)
    requires |ks| > 0 && !HasFree(ks) && k !in ks
    ensures var i := Walk(Home(phi, |ks|, k), n, |ks|); 0 <= i < |ks| && ks[i] != FREE_KEY && ks[i] != k
    decreases n
  {
    if n > 0 {
      NeverEnds(phi, ks, k, n - 1);
    }
  }

  /** A search for `k` in the table never comes to a slot that would end it. */
  ghost predicate Endless(phi: int -> int, ks: seq<int>, k: int) {
    |ks| > 0 && forall n: nat ::
      var i := Walk(Home(phi, |ks|, k), n, |ks|); 0 <= i < |ks| && ks[i] != FREE_KEY && ks[i] != k
  }

  /** Walking on from `h` comes to every slot. */
  lemma {:induction false} WalkReaches(h: int, n: nat, cap: int, i: int)
    requires 0 <= h < cap && 0 <= i < cap && n == Dist(h, i, cap)
    ensures Walk(h, n, cap) == i
    decreases n
  {
    if n > 0 {
      WalkReaches(h, n - 1, cap, if i == 0 then cap - 1 else i - 1);
    }
  }

  /** A search ends exactly if a slot is free or the key is in the table. */
  lemma SearchEnds(phi: int -> int, ks: seq<int>, k: int)
    requires |ks| > 0
    ensures Endless(phi, ks, k) <==> !HasFree(ks) && k !in ks
  {
    hide Walk;
    if !HasFree(ks) && k !in ks {
      forall n: nat
        ensures var i := Walk(Home(phi, |ks|, k), n, |ks|); 0 <= i < |ks| && ks[i] != FREE_KEY && ks[i] != k
      {
        NeverEnds(phi, ks, k, n);
      }
    } else {
      var i :| 0 <= i < |ks| && (ks[i] == FREE_KEY || ks[i] == k);
      var h := Home(phi, |ks|, k);
      WalkReaches(h, Dist(h, i, |ks|), |ks|, i);
    }
  }

  // ---- backward-shift deletion ----

  /** Moving the key at `pos` into the hole keeps the contents: the hole itself stands for no key. */
  lemma MoveHolds(ks: seq<int>, vs: seq<int>, m: map<int, int>, hole: int, pos: int)
    requires |ks| == |vs| && 0 <= hole < |ks| && 0 <= pos < |ks| && hole != pos && ks[pos] != FREE_KEY
    requires Holds(ks[hole := FREE_KEY], vs, m)
    ensures Holds(ks[hole := ks[pos]][pos := FREE_KEY], vs[hole := vs[pos]], m)
  {
    var a := ks[hole := FREE_KEY];
    var b := ks[hole := ks[pos]][pos := FREE_KEY];
    forall i, j | 0 <= i < |b| && 0 <= j < |b| && i != j && b[i] != FREE_KEY ensures b[i] != b[j] {
      assert a[if i == hole then pos else i] == b[i];
      assert j != pos ==> a[if j == hole then pos else j] == b[j];
    }
    forall i | 0 <= i < |b| && b[i] != FREE_KEY
      ensures b[i] in m && m[b[i]] == vs[hole := vs[pos]][i]
    {
      assert a[if i == hole then pos else i] == b[i];
    }
    forall x | x in m ensures x in b {
      var j :| 0 <= j < |a| && a[j] == x;
      assert b[if j == pos then hole else j] == x;
    }
  }

  /** The source's wrap-around test on (doubled) slots: must the key homed at `slot` move from `pos` into `last`? */
  predicate MustMove(last: int, pos: int, slot: int) {
    if last <= pos then last >= slot || slot > pos else last >= slot && slot > pos
  }

  /** Where the scan of a deletion stands: the keys, the hole and the slot looked at next. */
  datatype Scan = Scan(ks: seq<int>, last: int, pos: int)

  ghost predicate Scanning(s: Scan) {
    0 <= s.last < |s.ks| && 0 <= s.pos < |s.ks|
  }

  /** One turn past a key: it moves into the hole, or it stays; at a free slot the scan would end. */
  function ScanStep(phi: int -> int, s: Scan): Scan {
    if !(0 <= s.last < |s.ks| && 0 <= s.pos < |s.ks|) then s
    else if MustMove(2 * s.last, 2 * s.pos, 2 * Home(phi, |s.ks|, s.ks[s.pos])) then
      Scan(s.ks[s.last := s.ks[s.pos]], s.pos, Next(s.pos, |s.ks|))
    else s.(pos := Next(s.pos, |s.ks|))
  }

  function Scanned(phi: int -> int, s: Scan, n: nat): Scan {
    if n == 0 then s else ScanStep(phi, Scanned(phi, s, n - 1))
  }

  lemma {:induction false} ScannedAdd(phi: int -> int, s: Scan, m: nat, n: nat)
    ensures Scanned(phi, s, m + n) == Scanned(phi, Scanned(phi, s, m), n)
    decreases n
  {
    hide ScanStep;
    if n > 0 {
      ScannedAdd(phi, s, m, n - 1);
    }
  }

  lemma ScannedNone(phi: int -> int, s: Scan)
    ensures Scanned(phi, s, 0) == s
  {
  }

  /** The next turn of the scan leaves the key at `p` where it is. */
  lemma ScannedPast(phi: int -> int, s: Scan, n: nat, hole: int, p: int)
    requires Scanned(phi, s, n) == Scan(s.ks, hole, p) && 0 <= hole < |s.ks| && 0 <= p < |s.ks| && hole != p
    requires !MustMove(2 * hole, 2 * p, 2 * Home(phi, |s.ks|, s.ks[p]))
    ensures Scanned(phi, s, n + 1) == Scan(s.ks, hole, Next(p, |s.ks|))
  {
  }

  /** The next turn of the scan moves the key at `p`, whose path crosses the hole. */
  lemma ScannedMove(phi: int -> int, s: Scan, n: nat, ks: seq<int>, hole: int, p: int)
    requires Scanned(phi, s, n) == Scan(ks, hole, p) && 0 <= hole < |ks| && 0 <= p < |ks| && hole != p && OnPath(phi, ks, p, hole)
    ensures Scanned(phi, s, n + 1) == Scan(ks[hole := ks[p]], p, Next(p, |ks|))
  {
    MustMoveIsOnPath(phi, ks, hole, p);
  }

  /** The scan from `slot` came after `n` turns to a free slot, and the hole was freed. */
  ghost predicate ScanEnded(phi: int -> int, ks: seq<int>, slot: int, n: nat, after: seq<int>) {
    var s := Scanned(phi, Scan(ks, slot, Next(slot, |ks|)), n);
    Scanning(s) && s.ks[s.pos] == FREE_KEY && after == s.ks[s.last := FREE_KEY]
  }

  lemma ScanEnds(phi: int -> int, ks: seq<int>, slot: int, n: nat, swept: seq<int>, hole: int, p: int)
    requires Scanned(phi, Scan(ks, slot, Next(slot, |ks|)), n) == Scan(swept, hole, p)
    requires 0 <= hole < |swept| && 0 <= p < |swept| && swept[p] == FREE_KEY
    ensures ScanEnded(phi, ks, slot, n, swept[hole := FREE_KEY])
  {
  }

  lemma ScanStays(phi: int -> int, s: Scan)
    requires Scanning(s) && !HasFree(s.ks)
    ensures var t := ScanStep(phi, s); Scanning(t) && !HasFree(t.ks)
  {
    hide MustMove, Home;
    assert forall i :: 0 <= i < |s.ks| ==> s.ks[i] != FREE_KEY;
  }

  /** In a full table a deletion never comes to the free slot that would end its scan. */
  lemma {:induction false} ShiftNeverEnds(phi: int -> int, ks: seq<int>, slot: int, n: nat)
    requires 0 <= slot < |ks| && !HasFree(ks)
    ensures var s := Scanned(phi, Scan(ks, slot, Next(slot, |ks|)), n);
      Scanning(s) && !HasFree(s.ks) && s.ks[s.pos] != FREE_KEY
    decreases n
  {
    hide ScanStep;
    if n > 0 {
      ShiftNeverEnds(phi, ks, slot, n - 1);
      ScanStays(phi, Scanned(phi, Scan(ks, slot, Next(slot, |ks|)), n - 1));
    }
  }

  /** Every key strictly between the hole and `pos` has a path that avoids the hole. */
  ghost predicate Settled(phi: int -> int, ks: seq<int>, hole: int, pos: int)
    requires 0 <= hole < |ks| && 0 <= pos < |ks|
  {
    forall p :: 0 <= p < |ks| && 0 < Dist(hole, p, |ks|) < Dist(hole, pos, |ks|)
      ==> ks[p] != FREE_KEY && !OnPath(phi, ks, p, hole)
  }

  lemma SettleNone(phi: int -> int, ks: seq<int>, hole: int)
    requires 0 <= hole < |ks| && |ks| >= 2
    ensures Settled(phi, ks, hole, Next(hole, |ks|)) && Next(hole, |ks|) != hole
  {
  }

  /** One step of the scan past a key that may stay; the free slot ahead keeps the scan from lapping the hole. */
  lemma SettleOne(phi: int -> int, ks: seq<int>, hole: int, pos: int, end: int)
    requires 0 <= hole < |ks| && 0 <= pos < |ks| && hole != pos && 0 <= end < |ks|
    requires Settled(phi, ks, hole, pos) && ks[pos] != FREE_KEY && !OnPath(phi, ks, pos, hole)
    requires ks[end] == FREE_KEY && ks[hole] != FREE_KEY && Dist(pos, end, |ks|) < Dist(hole, end, |ks|)
    ensures Settled(phi, ks, hole, Next(pos, |ks|)) && Next(pos, |ks|) != hole
    ensures 0 <= Dist(Next(pos, |ks|), end, |ks|) < Dist(pos, end, |ks|)
  {
  }

  /** The wrap-around test decides exactly whether the hole is on the path of the key at `pos`. */
  lemma MustMoveIsOnPath(phi: int -> int, ks: seq<int>, hole: int, pos: int)
    requires 0 <= hole < |ks| && 0 <= pos < |ks| && hole != pos
    ensures MustMove(2 * hole, 2 * pos, 2 * Home(phi, |ks|, ks[pos])) <==> OnPath(phi, ks, pos, hole)
  {
  }

  /** At a free slot the scan is over: emptying the hole restores the probe invariant. */
  lemma CloseHole(phi: int -> int, ks: seq<int>, hole: int, pos: int)
    requires 0 <= hole < |ks| && 0 <= pos < |ks| && hole != pos && ks[pos] == FREE_KEY
    requires Probed(phi, ks, hole) && Settled(phi, ks, hole, pos)
    ensures Probed(phi, ks[hole := FREE_KEY], -1)
  {
    var ks' := ks[hole := FREE_KEY];
    forall p, j | 0 <= p < |ks'| && ks'[p] != FREE_KEY && 0 <= j < |ks'| && OnPath(phi, ks', p, j)
      ensures ks'[j] != FREE_KEY
    {
      assert OnPath(phi, ks, p, j);
      HoleMissed(phi, ks, hole, pos, p);
    }
  }

  /** Once the scan has come to a free slot, no key has the hole on its path. */
  lemma HoleMissed(phi: int -> int, ks: seq<int>, hole: int, pos: int, p: int)
    requires 0 <= hole < |ks| && 0 <= pos < |ks| && hole != pos && ks[pos] == FREE_KEY
    requires Probed(phi, ks, hole) && Settled(phi, ks, hole, pos)
    requires 0 <= p < |ks| && p != hole && ks[p] != FREE_KEY
    ensures !OnPath(phi, ks, p, hole)
  {
    hide Home;
    assert !OnPath(phi, ks, p, pos);
  }

  /** Moving a key whose path crosses the hole makes its old slot the new hole. */
  lemma MoveProbed(phi: int -> int, ks: seq<int>, hole: int, pos: int)
    requires 0 <= hole < |ks| && 0 <= pos < |ks| && hole != pos && ks[pos] != FREE_KEY
    requires Probed(phi, ks, hole) && OnPath(phi, ks, pos, hole)
    ensures Probed(phi, ks[hole := ks[pos]], pos)
  {
    var ks' := ks[hole := ks[pos]];
    forall p, j | 0 <= p < |ks'| && p != pos && ks'[p] != FREE_KEY && 0 <= j < |ks'| && OnPath(phi, ks', p, j)
      ensures ks'[j] != FREE_KEY
    {
      if p == hole {
        assert OnPath(phi, ks, pos, j);
      } else {
        assert OnPath(phi, ks, p, j);
      }
    }
  }
}
