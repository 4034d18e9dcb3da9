/** `hashmap.MapInt64`: an open-addressing int64 table with linear probing, refining a finite map. */
module HashMap {
  import opened Basics
  import opened BitMask
  import opened Capacity
  import opened ProbeTable

  /** Keys at the even offsets, values at the odd ones. */
  ghost predicate Interleaved(d: seq<int>, ks: seq<int>, vs: seq<int>) {
    && |d| == 2 * |ks| && |vs| == |ks|
    && forall i :: 0 <= i < |ks| ==> d[2 * i] == ks[i] && d[2 * i + 1] == vs[i]
  }

  lemma InterleavedAt(d: seq<int>, ks: seq<int>, vs: seq<int>, i: int)
    requires Interleaved(d, ks, vs) && 0 <= i < |ks|
    ensures |d| == 2 * |ks| && |vs| == |ks| && d[2 * i] == ks[i] && d[2 * i + 1] == vs[i]
  {
  }

  lemma InterleavedStore(d: seq<int>, ks: seq<int>, vs: seq<int>, i: int, k: int, v: int)
    requires Interleaved(d, ks, vs) && 0 <= i < |ks|
    ensures |vs| == |ks| && |d| == 2 * |ks|
    ensures Interleaved(d[2 * i := k][2 * i + 1 := v], ks[i := k], vs[i := v])
  {
  }

  /** The resize threshold of a capacity: `floor(capacity * fillFactor)`. */
  function Threshold(cap: int, fill: real): int {
    (cap as real * fill).Floor
  }

  /** The largest count not above the fill factor's share of the slots. */
  lemma ThresholdIs(cap: int, fill: real)
    ensures Threshold(cap, fill) as real <= cap as real * fill < (Threshold(cap, fill) + 1) as real
  {
  }

  lemma ThresholdBelow(cap: int, fill: real)
    requires 0.0 < fill < 1.0 && cap > 0
    ensures 0 <= Threshold(cap, fill) < cap
  {
    assert cap as real * fill < cap as real;
  }

  /** Every capacity whose threshold is still too low for `total` keys lies below `bound`. */
  ghost predicate Ample(total: int, bound: int, fill: real) {
    forall cap: int :: Threshold(cap, fill) < total ==> cap < bound
  }

  /** How far a capacity is from one that is ample: the measure of the put/rehash recursion. */
  ghost function Room(bound: int, cap: int): nat {
    if cap < bound then bound - cap else 0
  }

  lemma AmpleLess(total: int, less: int, bound: int, fill: real)
    requires Ample(total, bound, fill) && less <= total
    ensures Ample(less, bound, fill)
  {
    hide Threshold;
  }

  lemma ScaleLess(a: real, b: real, f: real)
    requires a <= b && f > 0.0
    ensures a * f <= b * f
  {
  }

  lemma DivideBack(a: real, f: real)
    requires f > 0.0
    ensures (a / f) * f == a
  {
  }

  /** From this capacity on the threshold is no longer too low. */
  lemma AmpleFrom(total: nat, fill: real, bound: nat, cap: int)
    requires fill > 0.0 && bound == (total as real / fill).Floor + 1 && Threshold(cap, fill) < total
    ensures cap < bound
  {
    var q := total as real / fill;
    if cap >= bound {
      assert q <= cap as real;
      ScaleLess(q, cap as real, fill);
      DivideBack(total as real, fill);
    }
  }

  /** Since the threshold grows with the capacity, resizing cannot go on for ever. */
  lemma AmpleExists(total: nat, fill: real) returns (bound: nat)
    requires fill > 0.0
    ensures Ample(total, bound, fill)
  {
    assert total as real / fill >= 0.0;
    bound := (total as real / fill).Floor + 1;
    hide Threshold;
    forall cap: int | Threshold(cap, fill) < total ensures cap < bound {
      AmpleFrom(total, fill, bound, cap);
    }
  }

  /** The entries of the table together with the separately stored entry of the reserved key. */
  ghost function With(table: map<int, int>, hasFree: bool, freeVal: int): map<int, int> {
    if hasFree then table[FREE_KEY := freeVal] else table
  }

  lemma WithSize(table: map<int, int>, hasFree: bool, freeVal: int)
    requires FREE_KEY !in table
    ensures |With(table, hasFree, freeVal)| == |table| + if hasFree then 1 else 0
  {
  }

  lemma WithDel(table: map<int, int>, hasFree: bool, freeVal: int, k: int)
    requires k != FREE_KEY && k in table && FREE_KEY !in table
    ensures With(table - {k}, hasFree, freeVal) == With(table, hasFree, freeVal) - {k}
    ensures |table - {k}| == |table| - 1
    ensures |With(table - {k}, hasFree, freeVal)| == |With(table, hasFree, freeVal)| - 1
    ensures k in With(table, hasFree, freeVal)
  {
    assert (table - {k}).Keys == table.Keys - {k};
    WithSize(table, hasFree, freeVal);
    WithSize(table - {k}, hasFree, freeVal);
  }

  lemma WithMiss(table: map<int, int>, hasFree: bool, freeVal: int, k: int)
    requires k != FREE_KEY && k !in table
    ensures With(table, hasFree, freeVal) == With(table, hasFree, freeVal) - {k}
    ensures k !in With(table, hasFree, freeVal)
  {
  }

  lemma WithKey(table: map<int, int>, hasFree: bool, freeVal: int, k: int)
    requires k != FREE_KEY
    ensures k in With(table, hasFree, freeVal) <==> k in table
  {
  }

  lemma HoldsKey(ks: seq<int>, vs: seq<int>, table: map<int, int>, k: int)
    requires Holds(ks, vs, table)
    ensures k in table <==> k != FREE_KEY && k in ks
  {
    if k in ks && k != FREE_KEY {
      var i :| 0 <= i < |ks| && ks[i] == k;
    }
  }

  lemma ProbedSkip(phi: int -> int, ks: seq<int>, skip: int)
    requires Probed(phi, ks, -1)
    ensures Probed(phi, ks, skip)
  {
  }

  /** Before slot `n` is reinserted there are fewer entries than in the end, so the same bound is still ample. */
  lemma ReinsertOne(ks: seq<int>, vs: seq<int>, table: map<int, int>, part: map<int, int>, n: nat,
                    hasFree: bool, freeVal: int, bound: nat, fill: real)
    requires Holds(ks, vs, table) && n < |ks| && Holds(ks[..n], vs[..n], part) && ks[n] != FREE_KEY && ks[n] !in part
    requires Ample(|With(table, hasFree, freeVal)|, bound, fill)
    ensures Ample(|With(part, hasFree, freeVal)| + 1, bound, fill)
    ensures With(part[ks[n] := vs[n]], hasFree, freeVal) == With(part, hasFree, freeVal)[ks[n] := vs[n]]
  {
    hide Ample;
    PrefixHolds(ks, vs, table, part, n);
    hide With;
    HoldsSize(ks, vs, table, hasFree, freeVal);
    HoldsSize(ks[..n], vs[..n], part, hasFree, freeVal);
    WithPut(part, hasFree, freeVal, ks[n], vs[n]);
    AmpleLess(|With(table, hasFree, freeVal)|, |With(part, hasFree, freeVal)| + 1, bound, fill);
  }

  lemma HoldsSize(ks: seq<int>, vs: seq<int>, table: map<int, int>, hasFree: bool, freeVal: int)
    requires Holds(ks, vs, table)
    ensures |With(table, hasFree, freeVal)| == |table| + if hasFree then 1 else 0
  {
    WithSize(table, hasFree, freeVal);
  }

  lemma HoldsNoDup(ks: seq<int>, vs: seq<int>, table: map<int, int>)
    requires Holds(ks, vs, table)
    ensures NoDup(ks) && |ks| == |vs|
  {
  }

  lemma WithPut(table: map<int, int>, hasFree: bool, freeVal: int, k: int, v: int)
    requires k != FREE_KEY
    ensures With(table[k := v], hasFree, freeVal) == With(table, hasFree, freeVal)[k := v]
    ensures |With(table[k := v], hasFree, freeVal)|
         == |With(table, hasFree, freeVal)| + if k in table then 0 else 1
  {
  }

  lemma SlotsPositive(size: int, fill: real)
    requires 0.0 < fill < 1.0 && size > 0
    ensures size as real / fill > 0.0 && Ceil(size as real / fill) >= 1
  {
  }

  lemma InterleavedSize(d: seq<int>, ks: seq<int>, vs: seq<int>)
    requires Interleaved(d, ks, vs)
    ensures |d| == 2 * |ks| && |vs| == |ks|
  {
  }

  lemma EmptyTable(phi: int -> int, d: seq<int>, ks: seq<int>, vs: seq<int>)
    requires |d| == 2 * |ks| && ks == vs && |ks| > 0
    requires (forall i :: 0 <= i < |d| ==> d[i] == FREE_KEY) && forall i :: 0 <= i < |ks| ==> ks[i] == FREE_KEY
    ensures Interleaved(d, ks, vs)
    ensures Holds(ks, vs, map[]) && Probed(phi, ks, -1) && HasFree(ks)
  {
    assert ks[0] == FREE_KEY;
  }

  lemma EmptyPrefix(ks: seq<int>, vs: seq<int>)
    ensures Holds(ks[..0], vs[..0], map[])
  {
  }

  lemma DoublePow2(cap: int)
    requires IsPow2(cap)
    ensures IsPow2(2 * cap) && cap >= 1
  {
  }

  /** An array of free slots, as `make([]int64, 2*cap)` gives it. */
  method NewSlots(ghost phi: int -> int, cap: nat) returns (a: array<int>, ghost zeros: seq<int>)
    requires cap > 0
    ensures fresh(a) && a.Length == 2 * cap && |zeros| == cap
    ensures Interleaved(a[..], zeros, zeros)
    ensures Holds(zeros, zeros, map[]) && Probed(phi, zeros, -1) && HasFree(zeros)
  {
    a := new int[2 * cap](_ => FREE_KEY);
    zeros := seq(cap, _ => FREE_KEY);
    EmptyTable(phi, a[..], zeros, zeros);
  }

  class MapInt64 {
    const phi: int -> int
    const fillFactor: real
    var data: array<int>
    var threshold: int
    var size: int
    var mask: int
    var mask2: int
    var hasFreeKey: bool
    var freeVal: int

    ghost var ks: seq<int>          // the keys at the even offsets of data
    ghost var vs: seq<int>          // the values at the odd offsets of data
    ghost var table: map<int, int>  // the entries under keys other than 0

    ghost predicate Shape()
      reads this, data
    {
      && 0.0 < fillFactor < 1.0
      && |ks| >= 2 && IsPow2(|ks|)
      && data.Length == 2 * |ks| && mask == |ks| - 1 && mask2 == data.Length - 1
      && threshold == Threshold(|ks|, fillFactor)
      && Interleaved(data[..], ks, vs)
    }

    /** The finite map this object stands for. */
    ghost function Contents(): map<int, int>
      reads this
    {
      With(table, hasFreeKey, freeVal)
    }

    /** The probe invariant, and no key twice. */
    ghost predicate Ordered()
      reads this, data
    {
      Shape() && Holds(ks, vs, table) && Probed(phi, ks, -1)
    }

    /** The same with a free slot, which ends every search. */
    ghost predicate Structured()
      reads this, data
    {
      Ordered() && HasFree(ks)
    }

    /** The invariant between operations: also the count is right and the load is within the threshold. */
    ghost predicate Valid()
      reads this, data
    {
      && Structured()
      && size == |Contents()|
      && |table| <= threshold
    }

    /** All but the free slot: the entries are right, whatever the count says, as long as it is not too high. */
    ghost predicate Loose()
      reads this, data
    {
      Ordered() && size <= |Contents()|
    }

    /** Deleting an absent key 0 makes the count too low; as long as a slot is free, every operation still works. */
    ghost predicate Usable()
      reads this, data
    {
      Structured() && size <= |Contents()|
    }

    /**
      `NewMapInt64`; it panics on the arguments the first precondition excludes. A slot count that does not
      fit in 32 bits converts in a way Go leaves to the implementation; the largest that fits is no capacity.
    */
    constructor (phi: int -> int, size: int, fillFactor: real)
      requires 0.0 < fillFactor < 1.0 && size > 0
      requires Ceil(size as real / fillFactor) <= MAX_UINT32
      ensures Contents() == map[] && this.size == 0 && this.fillFactor == fillFactor && this.phi == phi && fresh(data)
      ensures |ks| == ArraySize(Ceil(size as real / fillFactor))
      ensures Valid() <==> Ceil(size as real / fillFactor) < MAX_UINT32
    {
      hide Holds, Probed, HasFree, Threshold, IsPow2, Interleaved, ArraySize;
      SlotsPositive(size, fillFactor);
      var capacity := ArraySize(Ceil(size as real / fillFactor));
      ArraySizeSpec(Ceil(size as real / fillFactor));
      ThresholdBelow(capacity, fillFactor);
      this.phi, this.fillFactor := phi, fillFactor;
      var slots, zeros := NewSlots(phi, capacity);
      data, ks, vs, table := slots, zeros, zeros, map[];
      threshold := Threshold(capacity, fillFactor);
      mask := capacity - 1;
      mask2 := 2 * capacity - 1;
      hasFreeKey, freeVal, this.size := false, 0, 0;
    }

    /** `(phiMix(key) & mask) << 1`: the array offset of the key's home slot. */
    method HomeOffset(key: int) returns (ptr: int)
      requires Shape()
      ensures ptr == 2 * Home(phi, |ks|, key)
    {
      hide IsPow2, Threshold;
      AndIsMod(phi(key), |ks|);
      ptr := 2 * And(phi(key), mask);
    }

    /** `(ptr + 2) & mask2`: the array offset of the next slot around the ring. */
    method Advance(ptr: int, ghost slot: int) returns (next: int)
      requires Shape() && ptr == 2 * slot && 0 <= slot < |ks|
      ensures next == 2 * Next(slot, |ks|)
    {
      hide IsPow2, Threshold;
      NextOffset(slot, |ks|);
      next := And(ptr + 2, mask2);
    }

    /** Walks the probe path of `key` to the slot that holds it, or to the free slot that ends the path. */
    method Locate(key: int) returns (ptr: int, ghost slot: int)
      requires Ordered() && key != FREE_KEY && (HasFree(ks) || key in ks)
      ensures 0 <= slot < |ks| && ptr == 2 * slot
      ensures data[ptr] == if key in ks then key else FREE_KEY
      ensures Passed(ks, Home(phi, |ks|, key), slot, key)
    {
      hide IsPow2, Threshold, Holds, Probed, Interleaved, Passed;
      ghost var h := Home(phi, |ks|, key);
      ghost var end :| 0 <= end < |ks| && (ks[end] == FREE_KEY || ks[end] == key);
      ptr := HomeOffset(key);
      slot := h;
      PassNone(ks, h, key);
      while data[ptr] != FREE_KEY && data[ptr] != key
        invariant 0 <= slot < |ks| && ptr == 2 * slot
        invariant Passed(ks, h, slot, key)
        decreases Dist(slot, end, |ks|)
      {
        InterleavedAt(data[..], ks, vs, slot);
        PassOne(ks, h, slot, key, end);
        ptr := Advance(ptr, slot);
        slot := Next(slot, |ks|);
      }
      InterleavedAt(data[..], ks, vs, slot);
      if data[ptr] == FREE_KEY {
        SearchMiss(phi, ks, key, slot);
      }
    }

    /** A lookup that ends returns exactly what the finite map holds, key 0 included. */
    method Get(key: int) returns (val: int, ok: bool)
      requires Ordered() && Ends(ks, Op.Get(key))
      ensures ok <==> key in Contents()
      ensures val == if ok then Contents()[key] else 0
    {
      hide IsPow2, Threshold, Probed, Interleaved;
      if key == FREE_KEY {
        if hasFreeKey {
          return freeVal, true;
        }
        return 0, false;
      }
      var ptr, slot := Locate(key);
      if data[ptr] == FREE_KEY {
        return 0, false;
      }
      InterleavedAt(data[..], ks, vs, slot);
      return data[ptr + 1], true;
    }

    /** Writes both halves of one slot. */
    method Store(ptr: int, ghost slot: int, key: int, val: int)
      requires Shape() && 0 <= slot < |ks| && ptr == 2 * slot
      modifies data, `ks, `vs
      ensures Shape() && ks == old(ks)[slot := key] && vs == old(vs)[slot := val]
    {
      hide IsPow2, Threshold, Interleaved;
      InterleavedStore(data[..], ks, vs, slot, key, val);
      data[ptr] := key;
      data[ptr + 1] := val;
      assert data[..] == old(data[..])[2 * slot := key][2 * slot + 1 := val];
      ks := ks[slot := key];
      vs := vs[slot := val];
    }

    method PutFree(val: int)
      requires Loose()
      modifies `size, `hasFreeKey, `freeVal
      ensures Loose() && (old(Valid()) ==> Valid())
      ensures Contents() == old(Contents())[FREE_KEY := val]
      ensures size == old(size) + if FREE_KEY in old(Contents()) then 0 else 1
    {
      hide IsPow2, Threshold, Probed, HasFree, NoDup, Interleaved;
      HoldsKey(ks, vs, table, FREE_KEY);
      WithSize(table, hasFreeKey, freeVal);
      if !hasFreeKey {
        size := size + 1;
      }
      hasFreeKey := true;
      freeVal := val;
    }

    /** Fills the free slot that ended the search for a new key; the table may now be full. */
    method InsertAt(ptr: int, ghost slot: int, key: int, val: int)
      requires Structured() && key != FREE_KEY && key !in ks
      requires 0 <= slot < |ks| && ptr == 2 * slot && ks[slot] == FREE_KEY
      requires Passed(ks, Home(phi, |ks|, key), slot, key)
      modifies data, `ks, `vs, `table
      ensures Shape() && Holds(ks, vs, table) && Probed(phi, ks, -1)
      ensures |ks| == old(|ks|) && table == old(table)[key := val] && key !in old(table)
    {
      hide IsPow2, Threshold, Probed, HasFree, Holds, Passed, Interleaved;
      InsertHolds(ks, vs, table, slot, key, val);
      InsertProbed(phi, ks, key, slot);
      Store(ptr, slot, key, val);
      table := table[key := val];
    }

    method OverwriteAt(ptr: int, ghost slot: int, key: int, val: int)
      requires Loose() && key != FREE_KEY
      requires 0 <= slot < |ks| && ptr == 2 * slot && ks[slot] == key
      modifies data, `ks, `vs, `table
      ensures Loose() && ks == old(ks) && (old(Valid()) ==> Valid())
      ensures Contents() == old(Contents())[key := val] && key in old(table)
    {
      hide IsPow2, Threshold, Probed, HasFree, Holds, Interleaved, With;
      OverwriteHolds(ks, vs, table, slot, val);
      WithPut(table, hasFreeKey, freeVal, key, val);
      Store(ptr, slot, key, val);
      table := table[key := val];
    }

    /** A new key below the threshold: counted, and with a right count the table keeps a free slot. */
    method CountNew(ghost table0: map<int, int>, ghost key: int, ghost val: int)
      requires Shape() && Holds(ks, vs, table) && Probed(phi, ks, -1)
      requires key != FREE_KEY && key !in table0 && table == table0[key := val]
      requires size <= |With(table0, hasFreeKey, freeVal)| && size < threshold
      modifies `size
      ensures Loose() && size == old(size) + 1 && Contents() == With(table0, hasFreeKey, freeVal)[key := val]
      ensures Usable() <==> |table0| + 1 < |ks|
      ensures old(size) == |With(table0, hasFreeKey, freeVal)| ==> Valid()
    {
      hide IsPow2, Threshold, Probed, HasFree, Holds, Interleaved, With;
      WithPut(table0, hasFreeKey, freeVal, key, val);
      HoldsSize(ks, vs, table, hasFreeKey, freeVal);
      ThresholdBelow(|ks|, fillFactor);
      FreeIsRoom(ks, vs, table);
      size := size + 1;
    }

    /** The one put that leaves no slot free: a new key for the last free slot while the count is below the threshold. */
    ghost predicate Fills(key: int)
      reads this
    {
      key != FREE_KEY && key !in table && size < threshold && |table| + 1 == |ks|
    }

    /**
      `putNoLock`. `bound` is a capacity ample for the keys involved: every rehash, nested ones
      included, starts strictly below it, which is why the mutual recursion ends.
    */
    method PutNoLock(key: int, val: int, ghost bound: nat)
      requires Loose() && Ends(ks, Op.Put(key, val))
      requires Ample(|Contents()| + 1, bound, fillFactor)
      modifies this, data
      ensures Loose() && (Usable() <==> old(Usable()) && !old(Fills(key))) && (old(Valid()) ==> Valid())
      ensures data == old(data) || fresh(data)
      ensures |ks| >= old(|ks|)
      ensures Contents() == old(Contents())[key := val]
      ensures old(size) < old(threshold) ==>
        |ks| == old(|ks|) && size == old(size) + if key in old(Contents()) then 0 else 1
      ensures key == FREE_KEY || key in old(Contents()) || old(size) < old(threshold) <==> |ks| == old(|ks|)
      decreases Room(bound, |ks|), 1
    {
      hide IsPow2, Threshold, Probed, HasFree, Holds, Passed, With, Interleaved;
      if key == FREE_KEY {
        PutFree(val);
        return;
      }
      var ptr, slot := Locate(key);
      InterleavedAt(data[..], ks, vs, slot);
      HoldsKey(ks, vs, table, key);
      WithKey(table, hasFreeKey, freeVal, key);
      if data[ptr] == FREE_KEY {
        ghost var table0 := table;
        FreeIsRoom(ks, vs, table);
        InsertAt(ptr, slot, key, val);
        if size >= threshold {
          WithPut(table0, hasFreeKey, freeVal, key, val);
          Rehash(bound);
        } else {
          CountNew(table0, key, val);
        }
      } else {
        OverwriteAt(ptr, slot, key, val);
      }
    }

    /** Resets the table to an empty one of twice the capacity; only the reserved key survives. */
    method Enlarge()
      requires Shape()
      modifies this
      ensures Valid() && fresh(data) && |ks| == 2 * old(|ks|)
      ensures hasFreeKey == old(hasFreeKey) && freeVal == old(freeVal) && table == map[]
    {
      hide Holds, Probed, HasFree, Threshold, IsPow2, Interleaved;
      InterleavedSize(data[..], ks, vs);
      DoublePow2(|ks|);
      var newCapacity := data.Length * 2;
      threshold := Threshold(newCapacity / 2, fillFactor);
      mask := newCapacity / 2 - 1;
      mask2 := newCapacity - 1;
      data, ks := NewSlots(phi, newCapacity / 2);
      vs, table := ks, map[];
      size := if hasFreeKey then 1 else 0;
      ThresholdBelow(|ks|, fillFactor);
    }

    /** Doubles the capacity and reinserts every entry; the contents stay exactly the same. */
    method Rehash(ghost bound: nat)
      requires Shape() && Holds(ks, vs, table) && |ks| < bound
      requires Ample(|Contents()|, bound, fillFactor)
      modifies this, data
      ensures Valid() && fresh(data)
      ensures |ks| > old(|ks|)
      ensures Contents() == old(Contents())
      decreases Room(bound, |ks|), 0
    {
      hide IsPow2, Threshold, Probed, HasFree, With, Holds, Interleaved, Ample;
      var copy := data[..];
      ghost var ks0, vs0, table0 := ks, vs, table;
      InterleavedSize(copy, ks, vs);
      EmptyPrefix(ks, vs);
      Enlarge();
      assert ks0[..|ks0|] == ks0 && vs0[..|ks0|] == vs0;
      Reinsert(copy, ks0, vs0, table0, bound);
    }

    /** The reinsertion loop; a put inside it may rehash again, which leaves the entries put so far in place. */
    method Reinsert(copy: seq<int>, ghost ks0: seq<int>, ghost vs0: seq<int>, ghost table0: map<int, int>, ghost bound: nat)
      requires Valid() && Contents() == With(map[], hasFreeKey, freeVal)
      requires Interleaved(copy, ks0, vs0) && Holds(ks0, vs0, table0) && |ks0| < |ks|
      requires Ample(|With(table0, hasFreeKey, freeVal)|, bound, fillFactor)
      modifies this, data
      ensures Valid() && (data == old(data) || fresh(data)) && |ks| >= old(|ks|)
      ensures Contents() == With(table0, old(hasFreeKey), old(freeVal))
      decreases Room(bound, |ks|), 2
    {
      hide IsPow2, Threshold, Probed, HasFree, With, Holds, Interleaved, Contents, Valid, Usable, Loose, Fills, Ample;
      ghost var has, fv, part, n := hasFreeKey, freeVal, map[], 0;
      EmptyPrefix(ks0, vs0);
      InterleavedSize(copy, ks0, vs0);
      HoldsNoDup(ks0, vs0, table0);
      var i := 0;
      while i < |copy|
        invariant 0 <= n <= |ks0| && i == 2 * n
        invariant Valid() && (data == old(data) || fresh(data)) && |ks| >= old(|ks|)
        invariant Holds(ks0[..n], vs0[..n], part) && Contents() == With(part, has, fv)
      {
        InterleavedAt(copy, ks0, vs0, n);
        ExtendHolds(ks0, vs0, part, n);
        var o := copy[i];
        if o != FREE_KEY {
          ReinsertOne(ks0, vs0, table0, part, n, has, fv, bound, fillFactor);
          ValidFacts();
          PutNoLock(o, copy[i + 1], bound);
          part := part[o := copy[i + 1]];
        }
        i := i + 2;
        n := n + 1;
      }
      assert ks0[..n] == ks0 && vs0[..n] == vs0;
      HoldsOne(ks0, vs0, table0, part);
    }

    /** Frees a slot; its stale value stays behind, as in the source. */
    method FreeAt(ptr: int, ghost slot: int)
      requires Shape() && 0 <= slot < |ks| && ptr == 2 * slot
      modifies data, `ks
      ensures Shape() && ks == old(ks)[slot := FREE_KEY]
    {
      hide IsPow2, Threshold, Interleaved;
      InterleavedAt(data[..], ks, vs, slot);
      InterleavedStore(data[..], ks, vs, slot, FREE_KEY, vs[slot]);
      data[ptr] := FREE_KEY;
      assert data[..] == old(data[..])[2 * slot := FREE_KEY][2 * slot + 1 := vs[slot]];
      assert vs == vs[slot := vs[slot]];
      ks := ks[slot := FREE_KEY];
    }

    /**
      The scan from a hole for the next key that must move into it. Either a free slot comes first,
      or the key at the returned slot has the hole on its probe path and no key in between has.
    */
    method ScanFrom(last: int, ghost hole: int, ghost end: int) returns (pos: int, ghost p: int, ghost n: nat)
      requires Shape() && 0 <= hole < |ks| && last == 2 * hole && ks[hole] != FREE_KEY
      requires 0 <= end < |ks| && ks[end] == FREE_KEY
      ensures 0 <= p < |ks| && pos == 2 * p && p != hole && Settled(phi, ks, hole, p)
      ensures 0 <= Dist(p, end, |ks|) < Dist(hole, end, |ks|)
      ensures ks[p] != FREE_KEY ==> OnPath(phi, ks, p, hole)
      ensures Scanned(phi, Scan(ks, hole, Next(hole, |ks|)), n) == Scan(ks, hole, p)
    {
      hide IsPow2, Threshold, Settled, OnPath, Interleaved, Scanned, ScanStep;
      SettleNone(phi, ks, hole);
      n := 0;
      ScannedNone(phi, Scan(ks, hole, Next(hole, |ks|)));
      pos := Advance(last, hole);
      p := Next(hole, |ks|);
      while true
        invariant 0 <= p < |ks| && pos == 2 * p && p != hole && Settled(phi, ks, hole, p)
        invariant 0 <= Dist(p, end, |ks|) < Dist(hole, end, |ks|)
        invariant Scanned(phi, Scan(ks, hole, Next(hole, |ks|)), n) == Scan(ks, hole, p)
        decreases Dist(p, end, |ks|)
      {
        InterleavedAt(data[..], ks, vs, p);
        var k := data[pos];
        if k == FREE_KEY {
          return;
        }
        var slot := HomeOffset(k);
        MustMoveIsOnPath(phi, ks, hole, p);
        if MustMove(last, pos, slot) {
          return;
        }
        SettleOne(phi, ks, hole, p, end);
        ScannedPast(phi, Scan(ks, hole, Next(hole, |ks|)), n, hole, p);
        n := n + 1;
        pos := Advance(pos, p);
        p := Next(p, |ks|);
      }
    }

    /** Backward-shift deletion: removes exactly the entry at `pos` and restores the probe invariant. */
    method ShiftKeys(pos: int, ghost slot: int) returns (last: int)
      requires Structured() && 0 <= slot < |ks| && pos == 2 * slot && ks[slot] != FREE_KEY
      modifies data, `ks, `vs, `table
      ensures Structured()
      ensures table == old(table) - {old(ks[slot])} && |ks| == old(|ks|)
      ensures old(ks[slot]) in old(table)
      ensures exists n: nat :: ScanEnded(phi, old(ks), slot, n, ks)
    {
      hide IsPow2, Threshold, Holds, Probed, OnPath, Settled, Interleaved, Scanned, ScanStep, ScanEnded;
      ghost var n, start := 0, Scan(ks, slot, Next(slot, |ks|));
      ScannedNone(phi, start);
      ghost var end :| 0 <= end < |ks| && ks[end] == FREE_KEY;
      ghost var cap := |ks|;
      ghost var hole := slot;
      RemoveHolds(ks, vs, table, slot);
      ProbedSkip(phi, ks, slot);
      table := table - {ks[slot]};
      last := pos;
      while true
        invariant Shape() && |ks| == cap && 0 <= hole < cap && last == 2 * hole && ks[hole] != FREE_KEY
        invariant ks[end] == FREE_KEY && Probed(phi, ks, hole)
        invariant Holds(ks[hole := FREE_KEY], vs, table) && table == old(table) - {old(ks[slot])}
        invariant Scanned(phi, start, n) == Scan(ks, hole, Next(hole, cap))
        decreases Dist(hole, end, cap)
      {
        var next, p, more := ScanFrom(last, hole, end);
        ScannedAdd(phi, start, n, more);
        n := n + more;
        InterleavedAt(data[..], ks, vs, p);
        if data[next] == FREE_KEY {
          CloseHole(phi, ks, hole, p);
          ghost var swept := ks;
          FreeAt(last, hole);
          assert ks[hole] == FREE_KEY;
          ScanEnds(phi, old(ks), slot, n, swept, hole, p);
          return;
        }
        MoveProbed(phi, ks, hole, p);
        MoveHolds(ks, vs, table, hole, p);
        ScannedMove(phi, start, n, ks, hole, p);
        n := n + 1;
        Store(last, hole, data[next], data[next + 1]);
        last, hole := next, p;
      }
    }

    method DelFree()
      requires Loose()
      modifies `size, `hasFreeKey
      ensures Loose() && size == old(size) - 1
      ensures Contents() == old(Contents()) - {FREE_KEY}
      ensures old(Valid()) ==> (Valid() <==> FREE_KEY in old(Contents()))
    {
      hide IsPow2, Threshold, Probed, HasFree, Holds, Interleaved;
      HoldsSize(ks, vs, table, hasFreeKey, freeVal);
      HoldsKey(ks, vs, table, FREE_KEY);
      hasFreeKey := false;
      size := size - 1;
    }

    /**
      Deletes a key. The reserved key's branch decrements the count whether or not key 0 is present,
      so deleting an absent key 0 leaves the count one too low and breaks the invariant; nothing else does.
    */
    method Del(key: int)
      requires Loose() && Ends(ks, Op.Del(key))
      modifies this, data
      ensures Loose() && (Usable() <==> old(Usable())) && data == old(data) && |ks| == old(|ks|)
      ensures Contents() == old(Contents()) - {key}
      ensures size == old(size) - if key == FREE_KEY || key in old(Contents()) then 1 else 0
      ensures old(Valid()) ==> (Valid() <==> key != FREE_KEY || key in old(Contents()))
    {
      hide IsPow2, Threshold, Probed, HasFree, Holds, Passed, Interleaved, With;
      if key == FREE_KEY {
        DelFree();
        return;
      }
      var ptr, slot := Locate(key);
      InterleavedAt(data[..], ks, vs, slot);
      HoldsKey(ks, vs, table, key);
      if data[ptr] == key {
        DelAt(ptr, slot, key);
      } else {
        WithMiss(table, hasFreeKey, freeVal, key);
      }
    }

    /** Removes the entry found at a slot and counts it. */
    method DelAt(ptr: int, ghost slot: int, ghost key: int)
      requires Usable() && 0 <= slot < |ks| && ptr == 2 * slot && ks[slot] == key != FREE_KEY
      modifies data, `ks, `vs, `table, `size
      ensures Usable() && |ks| == old(|ks|) && size == old(size) - 1
      ensures Contents() == old(Contents()) - {key} && key in old(Contents())
      ensures old(Valid()) ==> Valid()
    {
      hide IsPow2, Threshold, Probed, HasFree, Holds, Interleaved, With;
      HoldsSize(ks, vs, table, hasFreeKey, freeVal);
      HoldsKey(ks, vs, table, key);
      HoldsKey(ks, vs, table, FREE_KEY);
      WithDel(table, hasFreeKey, freeVal, key);
      var last := ShiftKeys(ptr, slot);
      size := size - 1;
    }

    /**
      `Put` sets the key, whatever the count says, in a full table too if the key is there. With a right count it
      keeps the invariant by growing the table; after an absent key 0 was deleted, it leaves a free slot exactly
      if there was one and it does not fill the last one.
    */
    method Put(key: int, val: int)
      requires Loose() && Ends(ks, Op.Put(key, val))
      modifies this, data
      ensures Loose() && (Usable() <==> old(Usable()) && !old(Fills(key))) && (old(Valid()) ==> Valid())
      ensures data == old(data) || fresh(data)
      ensures Contents() == old(Contents())[key := val]
      ensures old(size) < old(threshold) ==>
        |ks| == old(|ks|) && size == old(size) + if key in old(Contents()) then 0 else 1
      ensures key == FREE_KEY || key in old(Contents()) || old(size) < old(threshold) <==> |ks| == old(|ks|)
    {
      hide IsPow2, Threshold, Probed, HasFree, Holds, Passed, Interleaved;
      ghost var bound := AmpleExists(|Contents()| + 1, fillFactor);
      PutNoLock(key, val, bound);
    }

    /** Whether some slot holds one of two keys. */
    method AnySlot(a: int, b: int) returns (found: bool)
      requires Shape()
      ensures found <==> a in ks || b in ks
    {
      hide IsPow2, Threshold, Interleaved;
      InterleavedSize(data[..], ks, vs);
      ghost var n := 0;
      var i := 0;
      while i < data.Length
        invariant i == 2 * n && 0 <= n <= |ks| && forall j :: 0 <= j < n ==> ks[j] != a && ks[j] != b
      {
        InterleavedAt(data[..], ks, vs, n);
        if data[i] == a || data[i] == b {
          return true;
        }
        i, n := i + 2, n + 1;
      }
      return false;
    }

    lemma ValidFacts()
      requires Valid()
      ensures Usable() && Loose() && HasFree(ks)
    {
    }

    lemma LooseFacts()
      requires Loose()
      ensures Ordered() && Shape() && (HasFree(ks) <==> Usable()) && (Valid() ==> Usable())
    {
    }

    method Size() returns (n: int)
      requires Valid()
      ensures n == |Contents()|
    {
      n := size;
    }
  }

  datatype Op = Put(key: int, val: int) | Del(key: int) | Get(key: int)

  /**
    The operations that end: in a full table only those on the reserved key, and the lookups and overwrites of
    keys that are there (`ProbeTable.SearchEnds`, `ProbeTable.ShiftNeverEnds`).
  */
  ghost predicate Ends(ks: seq<int>, op: Op) {
    HasFree(ks) || op.key == FREE_KEY || (!op.Del? && op.key in ks)
  }

  /** The plain finite map every operation is measured against. */
  ghost function Apply(m: map<int, int>, op: Op): map<int, int> {
    match op
    case Put(k, v) => m[k := v]
    case Del(k) => m - {k}
    case Get(_) => m
  }

  ghost function ApplyAll(m: map<int, int>, ops: seq<Op>): map<int, int> {
    if ops == [] then m else Apply(ApplyAll(m, ops[..|ops| - 1]), ops[|ops| - 1])
  }

  /** What the lookups among `ops` answer on a plain finite map. */
  ghost function Answers(m: map<int, int>, ops: seq<Op>): seq<Option<int>> {
    if ops == [] then [] else
      var before, op := ops[..|ops| - 1], ops[|ops| - 1];
      var now := ApplyAll(m, before);
      Answers(m, before) +
      match op
      case Get(k) => [if k in now then Some(now[k]) else None]
      case _ => []
  }

  /** No operation deletes the reserved key 0 while it is absent. */
  ghost predicate Tame(m: map<int, int>, ops: seq<Op>) {
    forall i :: 0 <= i < |ops| && ops[i] == Del(FREE_KEY) ==> FREE_KEY in ApplyAll(m, ops[..i])
  }

  /** The table has had room so far, and holds and has answered what the finite map would. */
  ghost predicate Answered(before: map<int, int>, now: map<int, int>, ops: seq<Op>, done: nat, answers: seq<Option<int>>) {
    done <= |ops| && now == ApplyAll(before, ops[..done]) && answers == Answers(before, ops[..done])
  }

  lemma AnsweredNone(before: map<int, int>, ops: seq<Op>)
    ensures Answered(before, before, ops, 0, [])
  {
  }

  lemma AnsweredMore(before: map<int, int>, now: map<int, int>, ops: seq<Op>, done: nat, answers: seq<Option<int>>)
    requires Answered(before, now, ops, done, answers) && done < |ops|
    ensures Answered(before, Apply(now, ops[done]), ops, done + 1, answers +
      if !ops[done].Get? then [] else [if ops[done].key in now then Some(now[ops[done].key]) else None])
  {
    assert ops[..done + 1][..done] == ops[..done];
  }

  /**
    Any sequence of operations: the table holds and answers what a plain finite map would, up to an operation
    that does not end because puts after deletions of the absent key 0 have filled the table. Without such
    deletions that never happens: the whole sequence runs, and the invariant (free slot, exact count) holds.
  */
  method RunAll(m: MapInt64, ops: seq<Op>) returns (done: nat, answers: seq<Option<int>>)
    requires m.Loose()
    modifies m, m.data
    ensures m.Loose() && Answered(old(m.Contents()), m.Contents(), ops, done, answers)
    ensures done < |ops| ==> !Ends(m.ks, ops[done])
    ensures old(m.Valid()) && Tame(old(m.Contents()), ops) ==> done == |ops| && m.Valid()
  {
    hide MapInt64.Valid, MapInt64.Usable, MapInt64.Loose, MapInt64.Contents, MapInt64.Fills, MapInt64.Ordered, MapInt64.Structured,
      Answered, Tame, Ends, HasFree;
    ghost var start, valid := m.Contents(), m.Valid() && Tame(m.Contents(), ops);
    answers, done := [], 0;
    AnsweredNone(start, ops);
    while done < |ops|
      invariant done <= |ops| && m.Loose() && (valid ==> m.Valid())
      invariant m.data == old(m.data) || fresh(m.data)
      invariant Answered(start, m.Contents(), ops, done, answers)
      decreases |ops| - done
    {
      var ends := WillEnd(m, ops[done]);
      if !ends {
        return;
      }
      AnsweredMore(start, m.Contents(), ops, done, answers);
      if valid {
        TameAt(start, m.Contents(), ops, done, answers);
      }
      var got := RunOne(m, ops[done]);
      answers := answers + got;
      done := done + 1;
    }
  }

  /** Looks through all slots for what would end an operation. */
  method WillEnd(m: MapInt64, op: Op) returns (ends: bool)
    requires m.Loose()
    ensures ends <==> Ends(m.ks, op)
    ensures m.Valid() ==> ends
  {
    hide MapInt64.Valid, MapInt64.Usable, MapInt64.Loose, MapInt64.Ordered, MapInt64.Structured, MapInt64.Shape;
    m.LooseFacts();
    if m.Valid() {
      m.ValidFacts();
    }
    var found := m.AnySlot(FREE_KEY, if op.Del? then FREE_KEY else op.key);
    return found || op.key == FREE_KEY;
  }

  lemma TameAt(before: map<int, int>, now: map<int, int>, ops: seq<Op>, done: nat, answers: seq<Option<int>>)
    requires Tame(before, ops) && Answered(before, now, ops, done, answers) && done < |ops|
    ensures ops[done] == Del(FREE_KEY) ==> FREE_KEY in now
  {
  }

  method RunOne(m: MapInt64, op: Op) returns (got: seq<Option<int>>)
    requires m.Loose() && Ends(m.ks, op)
    modifies m, m.data
    ensures m.Loose() && (m.data == old(m.data) || fresh(m.data))
    ensures m.Contents() == Apply(old(m.Contents()), op)
    ensures got == if !op.Get? then [] else
      [if op.key in old(m.Contents()) then Some(old(m.Contents())[op.key]) else None]
    ensures old(m.Valid()) && (op == Op.Del(FREE_KEY) ==> FREE_KEY in old(m.Contents())) ==> m.Valid()
  {
    hide MapInt64.Valid, MapInt64.Usable, MapInt64.Loose, MapInt64.Contents, MapInt64.Fills, MapInt64.Ordered, MapInt64.Structured,
      Ends, HasFree;
    got := [];
    m.LooseFacts();
    match op
    case Put(key, val) => m.Put(key, val);
    case Del(key) => m.Del(key);
    case Get(key) =>
      var v, ok := m.Get(key);
      got := [if ok then Some(v) else None];
  }

  /** The one failing branch, on a fresh map: deleting the absent key 0 makes the reported size -1. */
  method DeleteAbsentZero(phi: int -> int) returns (n: int)
    ensures n == -1
  {
    var m := Smallest(phi);
    m.Del(0);
    n := m.size;
  }

  lemma SmallestTable()
    ensures Ceil(1 as real / 0.5) == 2 && ArraySize(2) == 2 && Threshold(2, 0.5) == 1
  {
    assert NextPowerOf2(2) == 2 by { NextPowerOf2Spec(2); }
  }

  lemma WithNone(table: map<int, int>, hasFree: bool, freeVal: int)
    requires FREE_KEY !in With(table, hasFree, freeVal)
    ensures table == With(table, hasFree, freeVal)
  {
  }

  /** The smallest table, for one key at half load: two slots and the threshold 1. */
  method Smallest(phi: int -> int) returns (m: MapInt64)
    ensures fresh(m) && fresh(m.data) && m.phi == phi && m.Valid()
    ensures m.Contents() == map[] && m.size == 0 && |m.ks| == 2 && m.threshold == 1
  {
    SmallestTable();
    hide Ceil, ArraySize, Holds, Probed, HasFree, IsPow2, Interleaved, With, Threshold;
    m := new MapInt64(phi, 1, 0.5);
    assert m.threshold == Threshold(2, 0.5);
  }

  /** Deleting the absent key 0 from it and putting a key: the count is 0, still below the threshold. */
  method PutAfterDelete(phi: int -> int) returns (m: MapInt64)
    ensures fresh(m) && fresh(m.data) && m.phi == phi && m.Usable()
    ensures m.Contents() == map[1 := 10] && m.size == 0 && |m.ks| == 2 && m.threshold == 1
  {
    hide Holds, Probed, HasFree, IsPow2, Interleaved, Threshold, With;
    m := Smallest(phi);
    m.Del(FREE_KEY);
    WithNone(m.table, m.hasFreeKey, m.freeVal);
    m.Put(1, 10);
  }

  /** One more put fills the table, and a search for a third key never ends. */
  method FillAfterDelete(phi: int -> int) returns (m: MapInt64)
    ensures fresh(m) && m.Contents() == map[1 := 10, 2 := 20] && Endless(phi, m.ks, 3)
  {
    hide Holds, Probed, HasFree, IsPow2, Interleaved, Threshold, With, Endless;
    m := PutAfterDelete(phi);
    WithNone(m.table, m.hasFreeKey, m.freeVal);
    m.Put(2, 20);
    WithNone(m.table, m.hasFreeKey, m.freeVal);
    HoldsKey(m.ks, m.vs, m.table, 3);
    SearchEnds(phi, m.ks, 3);
  }
}
