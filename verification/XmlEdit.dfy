/** Tree edits (`goxml/goxml.go`): every edit keeps child slots and tokens pointing at each other. */
module XmlEdit {
  import opened Basics
  import opened XmlTree
  import opened XmlPath

  /** A token that names a parent names an element and a position; it need not be there any more. */
  ghost predicate Anchored(d: Doc, x: Id)
    requires x in d
  {
    d[x].parent.Some? ==> IsElement(d, d[x].parent.value) && d[x].index >= 0
  }

  ghost predicate Sound(d: Doc) {
    Linked(d) && forall x {:trigger Anchored(d, x)} :: x in d ==> Anchored(d, x)
  }

  /** A token that names a parent is in that parent's list. */
  predicate Placed(d: Doc, x: Id)
    requires x in d
  {
    d[x].parent.Some? ==> IsElement(d, d[x].parent.value) && x in Children(d, d[x].parent.value)
  }

  ghost predicate AllPlaced(d: Doc) {
    forall x :: x in d ==> Placed(d, x)
  }

  ghost predicate ElementsPlaced(d: Doc) {
    forall x :: IsElement(d, x) ==> Placed(d, x)
  }

  ghost predicate KeepsPlaces(d: Doc, f: Doc) {
    (AllPlaced(d) ==> AllPlaced(f)) && (ElementsPlaced(d) ==> ElementsPlaced(f))
  }

  function PutAt(c: seq<Id>, i: int, t: Id): seq<Id> {
    if 0 <= i <= |c| then c[..i] + [t] + c[i..] else c
  }

  function Without(xs: seq<Id>, t: Id): (r: seq<Id>)
    ensures t !in r
  {
    if xs == [] then [] else (if xs[0] == t then [] else [xs[0]]) + Without(xs[1..], t)
  }

  lemma {:induction false} WithoutAbsent(xs: seq<Id>, t: Id)
    requires t !in xs
    ensures Without(xs, t) == xs
    decreases |xs|
  {
    if xs != [] {
      WithoutAbsent(xs[1..], t);
    }
  }

  lemma {:induction false} WithoutConcat(xs: seq<Id>, ys: seq<Id>, t: Id)
    ensures Without(xs + ys, t) == Without(xs, t) + Without(ys, t)
    decreases |xs|
  {
    if xs == [] {
      assert xs + ys == ys;
    } else {
      WithoutConcat(xs[1..], ys, t);
      assert (xs + ys)[1..] == xs[1..] + ys && (xs + ys)[0] == xs[0];
      var head := if xs[0] == t then [] else [xs[0]];
      assert Without(xs + ys, t) == head + Without(xs[1..] + ys, t) && Without(xs, t) == head + Without(xs[1..], t);
      hide Without;
      Assoc(head, Without(xs[1..], t), Without(ys, t));
    }
  }

  lemma WithoutAt(xs: seq<Id>, i: nat)
    requires Distinct(xs) && i < |xs|
    ensures Without(xs, xs[i]) == xs[..i] + xs[i + 1..]
  {
    var t, a, b := xs[i], xs[..i], xs[i + 1..];
    assert Without([t], t) == [];
    hide Without;
    assert xs == a + [t] + b;
    assert t !in a && t !in b;
    WithoutConcat(a + [t], b, t);
    WithoutConcat(a, [t], t);
    WithoutAbsent(a, t);
    WithoutAbsent(b, t);
    assert a + [] == a;
  }

  // ---- what an edit does to one token ----

  function Rekind(k: Kind, c: seq<Id>): Kind {
    if k.Element? then k.(child := c) else k
  }

  function RemovedToken(d: Doc, e: Id, i: nat, x: Id): Token
    requires IsElement(d, e) && i < |Children(d, e)| && x in d
  {
    var c := Children(d, e);
    var k := if x == e then Rekind(d[x].kind, c[..i] + c[i + 1..]) else d[x].kind;
    if x == c[i] then Token(k, None, -1)
    else if x in c[i + 1..] then Token(k, d[x].parent, d[x].index - 1)
    else Token(k, d[x].parent, d[x].index)
  }

  /** `f` is `d` with slot `i` of `e` taken out. */
  ghost predicate RemovedAt(d: Doc, f: Doc, e: Id, i: nat)
    requires IsElement(d, e) && i < |Children(d, e)|
  {
    f.Keys == d.Keys && forall x :: x in d ==> f[x] == RemovedToken(d, e, i, x)
  }

  function InsertedToken(d: Doc, e: Id, t: Id, i: nat, x: Id): Token
    requires IsElement(d, e) && i <= |Children(d, e)| && x in d
  {
    var c := Children(d, e);
    var k := if x == e then Rekind(d[x].kind, c[..i] + [t] + c[i..]) else d[x].kind;
    if x == t then Token(k, Some(e), i)
    else if x in c[i..] then Token(k, d[x].parent, d[x].index + 1)
    else Token(k, d[x].parent, d[x].index)
  }

  /** `f` is `d` with `t` put in front of slot `i` of `e`. */
  ghost predicate InsertedAt(d: Doc, f: Doc, e: Id, t: Id, i: nat)
    requires IsElement(d, e) && i <= |Children(d, e)|
  {
    f.Keys == d.Keys && forall x :: x in d ==> f[x] == InsertedToken(d, e, t, i, x)
  }

  /** `f` is `d` with `t` taken from wherever it was and the children of `e` being `c`. */
  ghost predicate Moved(d: Doc, f: Doc, e: Id, t: Id, c: seq<Id>) {
    && f.Keys == d.Keys
    && forall x :: x in d ==> f[x].kind == MovedKind(d[x].kind, x, e, t, c)
  }

  function MovedKind(k: Kind, x: Id, e: Id, t: Id, c: seq<Id>): Kind {
    if !k.Element? then k else Rekind(k, if x == e then c else Without(k.child, t))
  }

  lemma InSlot(d: Doc, e: Id, x: Id)
    requires Linked(d) && IsElement(d, e) && x in Children(d, e)
    ensures x in d && d[x].parent == Some(e) && 0 <= d[x].index < |Children(d, e)| && Children(d, e)[d[x].index] == x
  {
    var i :| 0 <= i < |Children(d, e)| && Children(d, e)[i] == x;
    assert LinkedAt(d, e, i);
  }

  lemma RemovedSlot(d: Doc, f: Doc, e: Id, i: nat, p: Id, j: nat)
    requires Sound(d) && IsElement(d, e) && i < |Children(d, e)| && RemovedAt(d, f, e, i)
    requires IsElement(f, p) && j < |Children(f, p)|
    ensures LinkedAt(f, p, j)
  {
    var c := Children(d, e);
    ChildrenDistinct(d, e);
    var x := Children(f, p)[j];
    if p == e {
      var k := if j < i then j else j + 1;
      assert x == c[k] && LinkedAt(d, e, k);
      assert x in c[i + 1..] <==> k > i;
    } else {
      assert LinkedAt(d, p, j);
      if x in c {
        InSlot(d, e, x);
      }
    }
  }

  lemma RemovedSound(d: Doc, f: Doc, e: Id, i: nat)
    requires Sound(d) && IsElement(d, e) && i < |Children(d, e)| && RemovedAt(d, f, e, i)
    ensures Sound(f)
  {
    forall p, j | IsElement(f, p) && 0 <= j < |Children(f, p)| ensures LinkedAt(f, p, j) {
      RemovedSlot(d, f, e, i, p, j);
    }
    var c := Children(d, e);
    forall x | x in f ensures Anchored(f, x) {
      assert Anchored(d, x);
      if x in c[i + 1..] {
        var k :| i + 1 <= k < |c| && c[k] == x;
        assert LinkedAt(d, e, k);
      }
    }
  }

  lemma InsertedSlot(d: Doc, f: Doc, e: Id, t: Id, i: nat, p: Id, j: nat)
    requires Sound(d) && IsElement(d, e) && t in d && i <= |Children(d, e)| && InsertedAt(d, f, e, t, i)
    requires forall q :: IsElement(d, q) ==> t !in Children(d, q)
    requires IsElement(f, p) && j < |Children(f, p)|
    ensures LinkedAt(f, p, j)
  {
    var c := Children(d, e);
    ChildrenDistinct(d, e);
    var x := Children(f, p)[j];
    if p == e {
      if j != i {
        var k := if j < i then j else j - 1;
        assert x == c[k] && LinkedAt(d, e, k);
        assert x in c[i..] <==> k >= i;
      }
    } else {
      assert LinkedAt(d, p, j);
      if x in c {
        InSlot(d, e, x);
      }
    }
  }

  lemma InsertedSound(d: Doc, f: Doc, e: Id, t: Id, i: nat)
    requires Sound(d) && IsElement(d, e) && t in d && i <= |Children(d, e)| && InsertedAt(d, f, e, t, i)
    requires forall q :: IsElement(d, q) ==> t !in Children(d, q)
    ensures Sound(f)
  {
    forall p, j | IsElement(f, p) && 0 <= j < |Children(f, p)| ensures LinkedAt(f, p, j) {
      InsertedSlot(d, f, e, t, i, p, j);
    }
    forall x | x in f ensures Anchored(f, x) {
      assert Anchored(d, x);
    }
  }

  lemma RemovedPlaced(d: Doc, f: Doc, e: Id, i: nat)
    requires Sound(d) && IsElement(d, e) && i < |Children(d, e)| && RemovedAt(d, f, e, i)
    ensures KeepsPlaces(d, f)
  {
    forall x | x in f ensures x in d && (Placed(d, x) ==> Placed(f, x)) && IsElement(d, x) == IsElement(f, x) {
      RemovedPlace(d, f, e, i, x);
    }
  }

  lemma RemovedPlace(d: Doc, f: Doc, e: Id, i: nat, x: Id)
    requires IsElement(d, e) && i < |Children(d, e)| && RemovedAt(d, f, e, i) && x in f
    ensures x in d && (Placed(d, x) ==> Placed(f, x)) && IsElement(d, x) == IsElement(f, x)
  {
    var c := Children(d, e);
    assert c == c[..i] + [c[i]] + c[i + 1..];
    assert f[x] == RemovedToken(d, e, i, x) && f[e] == RemovedToken(d, e, i, e);
    if Placed(d, x) && f[x].parent.Some? {
      var p := d[x].parent.value;
      assert f[p] == RemovedToken(d, e, i, p);
    }
  }

  lemma InsertedPlaced(d: Doc, f: Doc, e: Id, t: Id, i: nat)
    requires Sound(d) && IsElement(d, e) && t in d && i <= |Children(d, e)| && InsertedAt(d, f, e, t, i)
    ensures KeepsPlaces(d, f)
  {
    forall x | x in f ensures x in d && (Placed(d, x) ==> Placed(f, x)) && IsElement(d, x) == IsElement(f, x) {
      InsertedPlace(d, f, e, t, i, x);
    }
  }

  lemma InsertedPlace(d: Doc, f: Doc, e: Id, t: Id, i: nat, x: Id)
    requires IsElement(d, e) && t in d && i <= |Children(d, e)| && InsertedAt(d, f, e, t, i) && x in f
    ensures x in d && (Placed(d, x) ==> Placed(f, x)) && IsElement(d, x) == IsElement(f, x)
  {
    var c := Children(d, e);
    assert c == c[..i] + c[i..];
    assert f[x] == InsertedToken(d, e, t, i, x) && f[e] == InsertedToken(d, e, t, i, e);
    if x != t && Placed(d, x) && d[x].parent.Some? {
      var p := d[x].parent.value;
      assert f[p] == InsertedToken(d, e, t, i, p);
    }
  }

  ghost predicate NoSlot(d: Doc, t: Id) {
    forall q :: IsElement(d, q) ==> t !in Children(d, q)
  }

  /** The token remembers a parent and an index that is still a slot of it. */
  predicate Takes(d: Doc, t: Id)
    requires t in d
  {
    && d[t].parent.Some? && IsElement(d, d[t].parent.value)
    && 0 <= d[t].index < |Children(d, d[t].parent.value)|
  }

  /** What taking `t` out of its parent takes out: whatever stands in the slot that `t` remembers. */
  function Evicted(d: Doc, t: Id): Id
    requires t in d
  {
    if Takes(d, t) then Children(d, d[t].parent.value)[d[t].index] else t
  }

  /** A token takes out another one exactly if it was dropped before and the slot it remembers is in use again. */
  lemma EvictsItself(d: Doc, t: Id)
    requires Sound(d) && t in d
    ensures Evicted(d, t) == t <==> Placed(d, t) || !Takes(d, t)
    ensures Placed(d, t) ==> (Takes(d, t) <==> d[t].parent.Some?)
  {
    if Placed(d, t) && d[t].parent.Some? {
      InSlot(d, d[t].parent.value, t);
    }
  }

  /** `f` is `d` with `t` in no list: the slot it remembers is closed, and its occupant has lost its parent. */
  ghost predicate Detached(d: Doc, f: Doc, t: Id)
    requires t in d
  {
    var v := Evicted(d, t);
    && f.Keys == d.Keys && NoSlot(f, t)
    && (forall x :: x in d ==> f[x].kind == WithoutKind(d[x].kind, v))
    && (forall x :: x in d ==> f[x].parent == if Takes(d, t) && x == v then None else d[x].parent)
    && (forall x :: x in d && NoSlot(d, x) && !(Takes(d, t) && x == v) ==> f[x].index == d[x].index)
    && (Takes(d, t) ==> v in f && f[v].index == -1)
  }

  ghost predicate SameElements(d: Doc, f: Doc) {
    && (forall x :: x in d ==> x in f && IsElement(d, x) == IsElement(f, x))
    && (forall x :: x in f && x !in d ==> !IsElement(f, x))
  }

  /** No old token has a new parent, though it may have lost its own. */
  ghost predicate Loosened(d: Doc, f: Doc) {
    SameElements(d, f) && forall x :: x in d ==> f[x].parent == d[x].parent || f[x].parent.None?
  }

  /** Only `t` has a new parent, `e`; only what it took out has lost its own. */
  ghost predicate Reparented(d: Doc, f: Doc, e: Id, t: Id)
    requires t in d
  {
    && SameElements(d, f) && f[t].parent == Some(e)
    && (forall x :: x in d && x != t ==>
          f[x].parent == if Takes(d, t) && x == Evicted(d, t) then None else d[x].parent)
  }

  lemma InsertedReparents(d: Doc, b: Doc, f: Doc, e: Id, t: Id, i: nat)
    requires t in d && Detached(d, b, t) && IsElement(b, e) && i <= |Children(b, e)| && InsertedAt(b, f, e, t, i)
    ensures Reparented(d, f, e, t)
  {
    forall x | x in b
      ensures IsElement(d, x) == IsElement(f, x) && f[x].parent == if x == t then Some(e) else b[x].parent
    {
      assert f[x] == InsertedToken(b, e, t, i, x) && b[x].kind == WithoutKind(d[x].kind, Evicted(d, t));
    }
  }

  lemma RemovedLoosens(d: Doc, f: Doc, e: Id, i: nat)
    requires IsElement(d, e) && i < |Children(d, e)| && RemovedAt(d, f, e, i)
    ensures Loosened(d, f)
  {
  }

  lemma CutLoosens(d: Doc, mid: Doc, f: Doc, e: Id, i: nat, end: nat)
    requires IsElement(mid, e) && i <= end <= |Children(mid, e)| && CutAt(mid, f, e, i, end)
    requires mid.Keys == d.Keys && forall x :: x in d ==> mid[x].parent == d[x].parent && IsElement(d, x) == IsElement(mid, x)
    ensures Loosened(d, f)
  {
    forall x | x in mid ensures f[x].parent == mid[x].parent && IsElement(f, x) == IsElement(mid, x) {
      assert f[x] == CutToken(mid, e, i, end, x);
    }
  }

  lemma FreshLoosens(d: Doc, mid: Doc, f: Doc, e: Id, cd: Id)
    requires cd !in d && cd in mid && mid == d[cd := mid[cd]] && !mid[cd].kind.Element? && mid[cd].parent.None?
    requires Reparented(mid, f, e, cd)
    ensures Loosened(d, f)
  {
    forall x | x in d ensures x in f && IsElement(d, x) == IsElement(f, x) && f[x].parent == d[x].parent {
      assert x in mid;
    }
  }

  function WithoutKind(k: Kind, t: Id): Kind {
    if k.Element? then Rekind(k, Without(k.child, t)) else k
  }

  /** Closing the remembered slot leaves `t` in no list. */
  lemma RemovedNoSlot(d: Doc, f: Doc, e: Id, i: nat, t: Id)
    requires Sound(d) && IsElement(d, e) && i < |Children(d, e)| && RemovedAt(d, f, e, i)
    requires t in d && d[t].parent == Some(e) && d[t].index == i
    ensures NoSlot(f, t)
  {
    var c := Children(d, e);
    ChildrenDistinct(d, e);
    forall q | IsElement(f, q) ensures t !in Children(f, q) {
      assert f[q] == RemovedToken(d, e, i, q);
      if t in Children(d, q) {
        InSlot(d, q, t);
        WithoutAt(c, i);
      }
    }
  }

  lemma RemovedKind(d: Doc, f: Doc, e: Id, i: nat, x: Id)
    requires Sound(d) && IsElement(d, e) && i < |Children(d, e)| && RemovedAt(d, f, e, i) && x in d
    ensures f[x].kind == WithoutKind(d[x].kind, Children(d, e)[i])
  {
    var c := Children(d, e);
    assert f[x] == RemovedToken(d, e, i, x);
    ChildrenDistinct(d, e);
    WithoutAt(c, i);
    if IsElement(d, x) && x != e {
      if c[i] in Children(d, x) {
        InSlot(d, x, c[i]);
        InSlot(d, e, c[i]);
      }
      WithoutAbsent(Children(d, x), c[i]);
    }
  }

  lemma RemovedDetaches(d: Doc, f: Doc, e: Id, i: nat, t: Id)
    requires Sound(d) && IsElement(d, e) && i < |Children(d, e)| && RemovedAt(d, f, e, i)
    requires t in d && d[t].parent == Some(e) && d[t].index == i
    ensures Takes(d, t) && Evicted(d, t) == Children(d, e)[i] && Detached(d, f, t)
  {
    RemovedNoSlot(d, f, e, i, t);
    SoundLinked(d);
    var c := Children(d, e);
    forall x | x in d ensures f[x].kind == WithoutKind(d[x].kind, c[i]) {
      RemovedKind(d, f, e, i, x);
    }
    hide Sound, WithoutKind, RemovedAt;
    forall x | x in d
      ensures f[x].parent == if x == c[i] then None else d[x].parent
      ensures NoSlot(d, x) && x != c[i] ==> f[x].index == d[x].index
    {
      RemovedOther(d, f, e, i, x);
    }
    ChildrenIn(d, e);
    RemovedOther(d, f, e, i, c[i]);
    RemovedKeys(d, f, e, i);
  }

  lemma RemovedOther(d: Doc, f: Doc, e: Id, i: nat, x: Id)
    requires IsElement(d, e) && i < |Children(d, e)| && RemovedAt(d, f, e, i) && x in d
    ensures x in f && f[x].parent == if x == Children(d, e)[i] then None else d[x].parent
    ensures NoSlot(d, x) && x != Children(d, e)[i] ==> f[x].index == d[x].index
    ensures x == Children(d, e)[i] ==> f[x].index == -1
  {
    var c := Children(d, e);
    assert f[x] == RemovedToken(d, e, i, x);
    assert x in c[i + 1..] ==> x in c;
  }

  lemma RemovedKeys(d: Doc, f: Doc, e: Id, i: nat)
    requires IsElement(d, e) && i < |Children(d, e)| && RemovedAt(d, f, e, i)
    ensures f.Keys == d.Keys
  {
  }

  /** A token in no list is not moved by being detached. */
  lemma NothingToDetach(d: Doc, t: Id)
    requires Sound(d) && t in d && !Takes(d, t)
    ensures Detached(d, d, t)
  {
    assert Anchored(d, t);
    forall q | IsElement(d, q) ensures t !in Children(d, q) {
      if t in Children(d, q) {
        InSlot(d, q, t);
      }
    }
    forall x | x in d ensures d[x].kind == WithoutKind(d[x].kind, t) {
      if IsElement(d, x) {
        WithoutAbsent(Children(d, x), t);
      }
    }
  }

  lemma InsertedMoves(d: Doc, b: Doc, f: Doc, e: Id, t: Id, i: nat)
    requires t in d && Detached(d, b, t) && IsElement(d, e) && IsElement(b, e)
    requires i <= |Children(b, e)| && InsertedAt(b, f, e, t, i)
    ensures var v := Evicted(d, t); var w := Without(Children(d, e), v);
      i <= |w| && Moved(d, f, e, v, w[..i] + [t] + w[i..])
  {
    var v := Evicted(d, t);
    var w := Without(Children(d, e), v);
    assert b[e].kind == WithoutKind(d[e].kind, v);
    forall x | x in d ensures f[x].kind == MovedKind(d[x].kind, x, e, v, w[..i] + [t] + w[i..]) {
      assert b[x].kind == WithoutKind(d[x].kind, v) && f[x] == InsertedToken(b, e, t, i, x);
    }
  }

  ghost predicate Renumbered(d: Doc, f: Doc, c: seq<Id>, from: nat, to: nat, shift: int)
    requires from <= to <= |c| && forall j :: 0 <= j < |c| ==> c[j] in d
  {
    && f.Keys == d.Keys
    && (forall j :: from <= j < to ==> f[c[j]] == d[c[j]].(index := j + shift))
    && (forall x :: x in d && x !in c[from..to] ==> f[x] == d[x])
  }

  lemma RenumberStep(d: Doc, f: Doc, c: seq<Id>, from: nat, k: nat, shift: int)
    requires from <= k < |c| && Distinct(c) && (forall j :: 0 <= j < |c| ==> c[j] in d)
    requires Renumbered(d, f, c, from, k, shift)
    ensures c[k] in f && Renumbered(d, f[c[k] := f[c[k]].(index := k + shift)], c, from, k + 1, shift)
  {
    var t := c[k];
    var g := f[t := f[t].(index := k + shift)];
    assert c[from..k + 1] == c[from..k] + [t];
    assert t !in c[from..k];
    assert t in d && f[t] == d[t];
    forall j | from <= j < k + 1 ensures g[c[j]] == d[c[j]].(index := j + shift) {
      if j < k {
        assert c[j] != t && f[c[j]] == d[c[j]].(index := j + shift);
      }
    }
    forall x | x in d && x !in c[from..k + 1] ensures g[x] == d[x] {
      assert x !in c[from..k];
    }
  }

  function WithChild(t: Token, c: seq<Id>): Token {
    t.(kind := Rekind(t.kind, c))
  }

  lemma ToRemoved(d: Doc, f: Doc, e: Id, i: nat)
    requires Sound(d) && IsElement(d, e) && i < |Children(d, e)|
    requires forall j :: 0 <= j < |Children(d, e)| ==> Children(d, e)[j] in d
    requires Renumbered(d, f, Children(d, e), i + 1, |Children(d, e)|, -1)
    ensures var c := Children(d, e);
      var g := f[e := WithChild(f[e], c[..i] + c[i + 1..])];
      RemovedAt(d, g[c[i] := g[c[i]].(parent := None, index := -1)], e, i)
  {
    var c := Children(d, e);
    ChildrenDistinct(d, e);
    var g := f[e := WithChild(f[e], c[..i] + c[i + 1..])];
    var h := g[c[i] := g[c[i]].(parent := None, index := -1)];
    forall x | x in d ensures h[x] == RemovedToken(d, e, i, x) {
      if x in c[i + 1..] {
        InSlot(d, e, x);
        var j := d[x].index;
        assert f[c[j]] == d[c[j]].(index := j - 1);
      } else {
        assert f[x] == d[x];
      }
    }
  }

  lemma ToInserted(d: Doc, f: Doc, e: Id, t: Id, i: nat, c: seq<Id>)
    requires Sound(d) && IsElement(d, e) && t in d && t !in Children(d, e) && i <= |Children(d, e)|
    requires c == Children(d, e)[..i] + [t] + Children(d, e)[i..]
    requires forall j :: 0 <= j < |c| ==> c[j] in d
    requires var g := d[t := d[t].(parent := Some(e))];
      Renumbered(g[e := WithChild(g[e], c)], f, c, i, |c|, 0)
    ensures InsertedAt(d, f, e, t, i)
  {
    var b := Children(d, e);
    assert c[i..] == [t] + b[i..];
    forall x | x in d ensures f[x] == InsertedToken(d, e, t, i, x) {
      if x in b[i..] {
        InTail(d, e, i, x);
        var j := d[x].index + 1;
        hide Sound;
        assert c[j] == x;
      } else {
        hide Sound;
        if x == t {
          assert c[i] == t;
        }
      }
    }
  }

  lemma InTail(d: Doc, e: Id, i: nat, x: Id)
    requires Sound(d) && IsElement(d, e) && i <= |Children(d, e)| && x in Children(d, e)[i..]
    ensures x in d && d[x].parent == Some(e) && i <= d[x].index < |Children(d, e)| && Children(d, e)[d[x].index] == x
  {
    InSlot(d, e, x);
    ChildrenDistinct(d, e);
  }

  lemma SpliceDistinct(b: seq<Id>, t: Id, i: nat)
    requires Distinct(b) && t !in b && i <= |b|
    ensures Distinct(b[..i] + [t] + b[i..])
  {
  }

  lemma ChildrenIn(d: Doc, e: Id)
    requires Linked(d) && IsElement(d, e)
    ensures forall j :: 0 <= j < |Children(d, e)| ==> Children(d, e)[j] in d
  {
    forall j | 0 <= j < |Children(d, e)| ensures Children(d, e)[j] in d {
      assert LinkedAt(d, e, j);
    }
  }

  /** The document as the edits see it: every token reachable through its identity. */
  class Forest {
    var doc: Doc

    constructor (d: Doc)
      ensures doc == d
    {
      doc := d;
    }

    /** The loops that set `index` from a position on. */
    method Renumber(c: seq<Id>, from: nat, shift: int)
      requires from <= |c| && Distinct(c) && forall j :: 0 <= j < |c| ==> c[j] in doc
      modifies this
      ensures Renumbered(old(doc), doc, c, from, |c|, shift)
    {
      for k := from to |c|
        invariant Renumbered(old(doc), doc, c, from, k, shift)
      {
        RenumberStep(old(doc), doc, c, from, k, shift);
        doc := doc[c[k] := doc[c[k]].(index := k + shift)];
      }
    }

    /** Removes the child at a position, if there is one; a crash is `ok == false`. */
    method RemoveChildAt(e: Id, index: int) returns (t: Option<Id>, ok: bool)
      requires Sound(doc) && IsElement(doc, e)
      modifies this
      ensures ok <==> index >= 0
      ensures Sound(doc) && KeepsPlaces(old(doc), doc) && Loosened(old(doc), doc)
      ensures !ok || index >= |Children(old(doc), e)| ==> t == None && doc == old(doc)
      ensures 0 <= index < |Children(old(doc), e)| ==>
        t == Some(Children(old(doc), e)[index]) && RemovedAt(old(doc), doc, e, index)
    {
      hide Sound, AllPlaced, ElementsPlaced, Renumbered, RemovedAt;
      var c := Children(doc, e);
      t, ok := None, index >= 0;
      if index >= |c| || !ok {
        SameLoosened(doc);
        return;
      }
      SoundLinked(doc);
      ChildrenDistinct(doc, e);
      ChildrenIn(doc, e);
      Renumber(c, index + 1, -1);
      ToRemoved(old(doc), doc, e, index);
      RenumberedKeys(old(doc), doc, c, index + 1, |c|, -1);
      doc := doc[e := WithChild(doc[e], c[..index] + c[index + 1..])];
      t := Some(c[index]);
      doc := doc[t.value := doc[t.value].(parent := None, index := -1)];
      RemovedSound(old(doc), doc, e, index);
      RemovedLoosens(old(doc), doc, e, index);
      RemovedPlaced(old(doc), doc, e, index);
    }

    method RemoveChild(e: Id, t: Id) returns (r: Option<Id>)
      requires Sound(doc) && IsElement(doc, e) && t in doc
      modifies this
      ensures Sound(doc) && KeepsPlaces(old(doc), doc) && Loosened(old(doc), doc)
      ensures old(doc[t].parent) != Some(e) ==> r == None && doc == old(doc)
      ensures old(doc[t].parent) == Some(e) ==> Detached(old(doc), doc, t)
      ensures old(doc[t].parent) == Some(e) ==> r == if Takes(old(doc), t) then Some(Evicted(old(doc), t)) else None
    {
      if doc[t].parent != Some(e) {
        return None;
      }
      assert Anchored(doc, t);
      hide Sound, AllPlaced, ElementsPlaced, RemovedAt, Detached;
      var ok;
      r, ok := RemoveChildAt(e, doc[t].index);
      if old(doc[t].index) < |Children(old(doc), e)| {
        RemovedDetaches(old(doc), doc, e, old(doc[t].index), t);
      } else {
        NothingToDetach(old(doc), t);
      }
    }

    /** Takes a token out of the element it belongs to, if any. */
    method Detach(t: Id)
      requires Sound(doc) && t in doc
      modifies this
      ensures Sound(doc) && KeepsPlaces(old(doc), doc) && Detached(old(doc), doc, t)
    {
      assert Anchored(doc, t);
      hide Sound, AllPlaced, ElementsPlaced, Detached;
      if doc[t].parent.Some? {
        var _ := RemoveChild(doc[t].parent.value, t);
      } else {
        NothingToDetach(doc, t);
      }
    }

    /** Opens a slot at `i` for a token that is in no list. */
    method Put(e: Id, t: Id, i: nat)
      requires Sound(doc) && IsElement(doc, e) && t in doc && i <= |Children(doc, e)| && NoSlot(doc, t)
      modifies this
      ensures Sound(doc) && KeepsPlaces(old(doc), doc) && InsertedAt(old(doc), doc, e, t, i)
    {
      hide Sound, AllPlaced, ElementsPlaced, Renumbered, InsertedAt;
      SoundLinked(doc);
      ChildrenDistinct(doc, e);
      ChildrenIn(doc, e);
      doc := doc[t := doc[t].(parent := Some(e))];
      var c := Children(doc, e);
      SpliceDistinct(c, t, i);
      c := c[..i] + [t] + c[i..];
      doc := doc[e := WithChild(doc[e], c)];
      Renumber(c, i, 0);
      ToInserted(old(doc), doc, e, t, i, c);
      InsertedSound(old(doc), doc, e, t, i);
      InsertedPlaced(old(doc), doc, e, t, i);
    }

    /** `addChild`: a token that is in no list becomes the last child. */
    method Append(e: Id, t: Id)
      requires Sound(doc) && IsElement(doc, e) && t in doc && NoSlot(doc, t)
      modifies this
      ensures Sound(doc) && KeepsPlaces(old(doc), doc)
      ensures InsertedAt(old(doc), doc, e, t, |Children(old(doc), e)|)
    {
      hide Sound, AllPlaced, ElementsPlaced;
      doc := doc[t := doc[t].(parent := Some(e))];
      doc := doc[t := doc[t].(index := |Children(doc, e)|)];
      doc := doc[e := WithChild(doc[e], Children(doc, e) + [t])];
      ghost var c := Children(old(doc), e);
      assert c[..|c|] + [t] + c[|c|..] == c + [t];
      InsertedSound(old(doc), doc, e, t, |c|);
      InsertedPlaced(old(doc), doc, e, t, |c|);
    }

    method AddChild(e: Id, t: Id)
      requires Sound(doc) && IsElement(doc, e) && t in doc
      modifies this
      ensures Sound(doc) && KeepsPlaces(old(doc), doc)
      ensures var v := Evicted(old(doc), t); Moved(old(doc), doc, e, v, Without(Children(old(doc), e), v) + [t])
      ensures Reparented(old(doc), doc, e, t)
    {
      hide Sound, AllPlaced, ElementsPlaced, InsertedAt, Moved, Reparented, Evicted;
      Detach(t);
      ghost var mid := doc;
      DetachedElement(old(doc), mid, t, e);
      ghost var n := |Children(doc, e)|;
      Append(e, t);
      InsertedReparents(old(doc), mid, doc, e, t, n);
      InsertedMoves(old(doc), mid, doc, e, t, n);
      ghost var w := Without(Children(old(doc), e), Evicted(old(doc), t));
      assert w[..n] + [t] + w[n..] == w + [t];
    }

    /** Puts `t` in front of `ex`; a crash is `ok == false`. */
    method InsertChild(e: Id, ex: Option<Id>, t: Id) returns (ok: bool)
      requires Sound(doc) && IsElement(doc, e) && t in doc && (ex.Some? ==> ex.value in doc)
      modifies this
      ensures ok ==> Sound(doc) && KeepsPlaces(old(doc), doc) && Reparented(old(doc), doc, e, t)
      ensures var d := old(doc); var v := Evicted(d, t); var w := Without(Children(d, e), v);
        if ex.None? || d[ex.value].parent != Some(e) then ok && Moved(d, doc, e, v, w + [t])
        else
          var i := Position(d, e, ex.value, t);
          (ok <==> 0 <= i <= |w|) && (ok ==> Moved(d, doc, e, v, PutAt(w, i, t)))
    {
      hide Sound, AllPlaced, ElementsPlaced, InsertedAt, Moved, Reparented, Evicted, Position;
      if ex.None? || doc[ex.value].parent != Some(e) {
        AddChild(e, t);
        return true;
      }
      Detach(t);
      ghost var mid := doc;
      DetachedElement(old(doc), mid, t, e);
      var i := doc[ex.value].index;
      PositionAfter(old(doc), mid, e, ex.value, t);
      if !(0 <= i <= |Children(doc, e)|) {
        return false;
      }
      Put(e, t, i);
      InsertedReparents(old(doc), mid, doc, e, t, i);
      InsertedMoves(old(doc), mid, doc, e, t, i);
      return true;
    }

    /** Puts `t` at a position; a crash is `ok == false`. */
    method InsertChildAt(e: Id, index: int, t: Id) returns (ok: bool)
      requires Sound(doc) && IsElement(doc, e) && t in doc
      modifies this
      ensures ok <==> 0 <= LandsAt(old(doc), e, index, t)
      ensures ok ==> Sound(doc) && KeepsPlaces(old(doc), doc) && Reparented(old(doc), doc, e, t)
      ensures ok ==> Moved(old(doc), doc, e, Evicted(old(doc), t), Lands(old(doc), e, index, t))
    {
      hide Sound, AllPlaced, ElementsPlaced, InsertedAt, Moved, Reparented, Evicted;
      ghost var d := doc;
      if index >= |Children(doc, e)| {
        AddChild(e, t);
        LandsLast(d, e, index, t);
        return true;
      }
      var at := index;
      if doc[t].parent == Some(e) && doc[t].index > index {
        at := at - 1;
      }
      Detach(t);
      if at < 0 {
        return false;
      }
      ghost var mid := doc;
      DetachedElement(d, mid, t, e);
      RoomLeft(d, mid, e, t);
      Put(e, t, at);
      InsertedReparents(d, mid, doc, e, t, at);
      InsertedMoves(d, mid, doc, e, t, at);
      return true;
    }

    /** The first child from `start` on that is not character data. */
    method FindTermCharData(e: Id, start: nat) returns (end: nat)
      requires Linked(doc) && IsElement(doc, e) && start <= |Children(doc, e)|
      ensures RunOfText(doc, Children(doc, e), start, end)
    {
      var c := Children(doc, e);
      ChildrenIn(doc, e);
      for i := start to |c|
        invariant forall k :: start <= k < i ==> doc[c[k]].kind.CharData?
      {
        if !doc[c[i]].kind.CharData? {
          return i;
        }
      }
      return |c|;
    }

    /** Drops the slots from `i` to `end` without touching the tokens that were in them. */
    method Cut(e: Id, i: nat, end: nat)
      requires Sound(doc) && IsElement(doc, e) && i <= end <= |Children(doc, e)|
      modifies this
      ensures Sound(doc) && CutAt(old(doc), doc, e, i, end)
      ensures AllPlaced(old(doc)) ==> (AllPlaced(doc) <==> i == end)
      ensures NoElements(old(doc), Children(old(doc), e)[i..end]) && ElementsPlaced(old(doc)) ==> ElementsPlaced(doc)
    {
      hide Sound, AllPlaced, ElementsPlaced, Renumbered, CutAt;
      SoundLinked(doc);
      ChildrenDistinct(doc, e);
      ChildrenIn(doc, e);
      var b := Children(doc, e);
      var c := b[..i] + b[end..];
      assert Distinct(c) && forall j :: 0 <= j < |c| ==> c[j] in doc;
      doc := doc[e := WithChild(doc[e], c)];
      Renumber(c, i, 0);
      ToCut(old(doc), doc, e, i, end, c);
      CutSound(old(doc), doc, e, i, end);
      CutElements(old(doc), doc, e, i, end);
      if AllPlaced(old(doc)) {
        CutPlaced(old(doc), doc, e, i, end);
      }
    }

    /** Replaces the run of character data at `i` by one token holding `text`, or by nothing. */
    method ReplaceText(e: Id, i: nat, text: string, cd: Id)
      requires Sound(doc) && IsElement(doc, e) && i <= |Children(doc, e)| && cd !in doc
      modifies this
      ensures Sound(doc)
      ensures Reworded(old(doc), doc, e, i, text, cd)
      ensures IsElement(doc, e) && i <= |Children(doc, e)| && Text(doc, Children(doc, e)[i..]) == text
      ensures Children(doc, e)[..i] == Children(old(doc), e)[..i]
      ensures AllPlaced(old(doc)) ==> (AllPlaced(doc) <==> !TwoTexts(old(doc), Children(old(doc), e), i))
      ensures Loosened(old(doc), doc) && (ElementsPlaced(old(doc)) ==> ElementsPlaced(doc))
    {
      hide Sound, AllPlaced, ElementsPlaced, NoElements, Retexted, CutAt, Moved, Text, Lands, Loosened;
      ghost var d := doc;
      SoundLinked(doc);
      var end := FindTermCharData(e, i);
      RunLength(doc, e, i, end);
      var one: seq<Id>;
      if end == i {
        one := PutText(e, i, text, cd);
      } else {
        one := if text == "" then [] else [Children(doc, e)[i]];
        if end == i + 1 && text == "" {
          var _, _ := RemoveChildAt(e, i);
          RemovedRetexts(d, doc, e, i, cd);
          RemovedLoosens(d, doc, e, i);
        } else {
          if text != "" {
            SetDataSound(doc, e, i, text);
            doc := doc[one[0] := doc[one[0]].(kind := CharData(text, false))];
          }
          ghost var mid := doc;
          RunHasNoElements(d, mid, e, i, end, one);
          if end > i + 1 {
            Cut(e, i + |one|, end);
          } else {
            NothingCut(doc, e, i + |one|);
          }
          CutRetexts(d, mid, doc, e, i, end, text, one, cd);
          CutLoosens(d, mid, doc, e, i + |one|, end);
        }
      }
      ReadsBack(d, doc, e, i, end, one, text, cd);
    }

    method PutText(e: Id, i: nat, text: string, cd: Id) returns (one: seq<Id>)
      requires Sound(doc) && IsElement(doc, e) && i <= |Children(doc, e)| && cd !in doc
      requires RunOfText(doc, Children(doc, e), i, i)
      modifies this
      ensures Sound(doc) && KeepsPlaces(old(doc), doc)
      ensures Retexted(old(doc), doc, e, i, i, one, text, cd) && Loosened(old(doc), doc)
    {
      hide Sound, AllPlaced, ElementsPlaced, Moved, Lands, Retexted, Reparented;
      one := [];
      if text != "" {
        one := [cd];
        FreshSound(doc, cd, text, false);
        doc := doc[cd := Token(CharData(text, false), None, -1)];
        ghost var mid := doc;
        LandsFresh(old(doc), mid, e, i, cd);
        var ok := InsertChildAt(e, i, cd);
        MovedRetexts(old(doc), mid, doc, e, i, text, cd);
        FreshLoosens(old(doc), mid, doc, e, cd);
      } else {
        SameRetexts(doc, e, i, cd);
      }
    }

    method SetText(e: Id, text: string, cd: Id)
      requires Sound(doc) && IsElement(doc, e) && cd !in doc
      modifies this
      ensures Sound(doc) && IsElement(doc, e) && Text(doc, Children(doc, e)) == text && Loosened(old(doc), doc)
      ensures AllPlaced(old(doc)) ==> (AllPlaced(doc) <==> !TwoTexts(old(doc), Children(old(doc), e), 0))
      ensures Reworded(old(doc), doc, e, 0, text, cd) && (ElementsPlaced(old(doc)) ==> ElementsPlaced(doc))
    {
      hide Sound, Text, Reworded, AllPlaced, ElementsPlaced, Loosened, TwoTexts;
      ReplaceText(e, 0, text, cd);
      assert Children(doc, e)[0..] == Children(doc, e);
    }

    /** Sets the text behind `e` in the list of its parent; a crash is `ok == false`. */
    method SetTail(e: Id, text: string, cd: Id) returns (ok: bool)
      requires Sound(doc) && IsElement(doc, e) && cd !in doc
      modifies this
      ensures ok <==> HasTail(old(doc), e)
      ensures ok ==> Sound(doc) && Loosened(old(doc), doc) && (ElementsPlaced(old(doc)) ==> ElementsPlaced(doc))
      ensures !ok || old(doc[e].parent).None? ==> doc == old(doc)
      ensures ok && AllPlaced(old(doc)) ==> (AllPlaced(doc) <==> !TailTwoTexts(old(doc), e))
      ensures ok && old(doc[e].parent).Some? ==>
        var p, i := old(doc[e].parent.value), old(doc[e].index) + 1;
        && IsElement(doc, p) && 0 < i <= |Children(doc, p)| && Reworded(old(doc), doc, p, i, text, cd)
        && Children(doc, p)[..i] == Children(old(doc), p)[..i] && Text(doc, Children(doc, p)[i..]) == text
    {
      hide Sound, Text, AllPlaced, ElementsPlaced, Loosened, TwoTexts, Reworded;
      if doc[e].parent.None? {
        SameLoosened(doc);
        return true;
      }
      HasAnchor(doc, e);
      var p := doc[e].parent.value;
      if doc[e].index + 1 > |Children(doc, p)| {
        return false;
      }
      ReplaceText(p, doc[e].index + 1, text, cd);
      return true;
    }
  }

  /** An element with a parent remembers an index inside its parent's list. */
  predicate HasTail(d: Doc, e: Id)
    requires e in d
  {
    d[e].parent.Some? ==> IsElement(d, d[e].parent.value) && d[e].index < |Children(d, d[e].parent.value)|
  }

  lemma HasAnchor(d: Doc, e: Id)
    requires Sound(d) && e in d && d[e].parent.Some?
    ensures IsElement(d, d[e].parent.value) && d[e].index >= 0
  {
    assert Anchored(d, e);
  }

  lemma SameLoosened(d: Doc)
    ensures Loosened(d, d)
  {
  }

  /** `i` up to `end` is the longest run of character data from `i` on. */
  ghost predicate RunOfText(d: Doc, c: seq<Id>, i: nat, end: nat) {
    && i <= end <= |c| && (forall k :: i <= k < end ==> c[k] in d && d[c[k]].kind.CharData?)
    && (end < |c| ==> c[end] in d && !d[c[end]].kind.CharData?)
  }

  ghost predicate TwoTexts(d: Doc, c: seq<Id>, i: nat) {
    i + 1 < |c| && c[i] in d && d[c[i]].kind.CharData? && c[i + 1] in d && d[c[i + 1]].kind.CharData?
  }

  /** The character data after `e` is more than one token. */
  ghost predicate TailTwoTexts(d: Doc, e: Id)
    requires e in d
  {
    && d[e].parent.Some? && IsElement(d, d[e].parent.value) && d[e].index >= -1
    && TwoTexts(d, Children(d, d[e].parent.value), d[e].index + 1)
  }

  lemma RunHasNoElements(d: Doc, mid: Doc, e: Id, i: nat, end: nat, one: seq<Id>)
    requires IsElement(d, e) && RunOfText(d, Children(d, e), i, end) && i + |one| <= end && IsElement(mid, e)
    requires Children(mid, e) == Children(d, e) && forall x :: x in d ==> x in mid && IsElement(d, x) == IsElement(mid, x)
    ensures NoElements(mid, Children(mid, e)[i + |one|..end])
  {
  }

  lemma RunLength(d: Doc, e: Id, i: nat, end: nat)
    requires IsElement(d, e) && RunOfText(d, Children(d, e), i, end)
    ensures TwoTexts(d, Children(d, e), i) <==> end > i + 1
  {
  }

  /** `f` is `d` with the run of text at `i` of `e` replaced by the slots `one`, which hold `text`. */
  ghost predicate Retexted(d: Doc, f: Doc, e: Id, i: nat, end: nat, one: seq<Id>, text: string, cd: Id) {
    && IsElement(d, e) && RunOfText(d, Children(d, e), i, end)
    && d.Keys <= f.Keys <= d.Keys + {cd}
    && one == (if text == "" then [] else if end == i then [cd] else [Children(d, e)[i]])
    && (forall x :: x in one ==> x in f && f[x].kind == CharData(text, false))
    && (forall x :: x in d && x !in Children(d, e)[i..end] ==> f[x].kind == RetextedKind(d, e, i, end, one, x))
  }

  /** `f` is `d` with the longest run of text at `i` of `e` replaced by `text`. */
  ghost predicate Reworded(d: Doc, f: Doc, e: Id, i: nat, text: string, cd: Id) {
    exists end, one :: Retexted(d, f, e, i, end, one, text, cd)
  }

  function RetextedKind(d: Doc, e: Id, i: nat, end: nat, one: seq<Id>, x: Id): Kind
    requires x in d && IsElement(d, e) && i <= end <= |Children(d, e)|
  {
    if x == e then Rekind(d[x].kind, Children(d, e)[..i] + one + Children(d, e)[end..]) else d[x].kind
  }

  lemma ReadsBack(d: Doc, f: Doc, e: Id, i: nat, end: nat, one: seq<Id>, text: string, cd: Id)
    requires Sound(d) && Retexted(d, f, e, i, end, one, text, cd)
    ensures IsElement(f, e) && Children(f, e) == Children(d, e)[..i] + one + Children(d, e)[end..]
    ensures Text(f, Children(f, e)[i..]) == text
  {
    var c := Children(d, e);
    ChildrenDistinct(d, e);
    assert e !in c[i..end];
    hide Sound, Linked;
    assert f[e].kind == RetextedKind(d, e, i, end, one, e);
    assert Children(f, e)[i..] == one + c[end..];
    if end < |c| {
      assert c[end] !in c[i..end];
      assert f[c[end]].kind == RetextedKind(d, e, i, end, one, c[end]);
    }
    hide Retexted, RunOfText;
    assert Text(f, c[end..]) == "";
    if text != "" {
      assert (one + c[end..])[1..] == c[end..] && (one + c[end..])[0] == one[0];
      assert text + "" == text;
    }
  }

  function CutToken(d: Doc, e: Id, i: nat, end: nat, x: Id): Token
    requires IsElement(d, e) && i <= end <= |Children(d, e)| && x in d
  {
    var c := Children(d, e);
    var k := if x == e then Rekind(d[x].kind, c[..i] + c[end..]) else d[x].kind;
    Token(k, d[x].parent, if x in c[end..] then d[x].index - (end - i) else d[x].index)
  }

  ghost predicate CutAt(d: Doc, f: Doc, e: Id, i: nat, end: nat)
    requires IsElement(d, e) && i <= end <= |Children(d, e)|
  {
    f.Keys == d.Keys && forall x :: x in d ==> f[x] == CutToken(d, e, i, end, x)
  }

  lemma ToCut(d: Doc, f: Doc, e: Id, i: nat, end: nat, c: seq<Id>)
    requires Sound(d) && IsElement(d, e) && i <= end <= |Children(d, e)|
    requires c == Children(d, e)[..i] + Children(d, e)[end..] && forall j :: 0 <= j < |c| ==> c[j] in d
    requires Renumbered(d[e := WithChild(d[e], c)], f, c, i, |c|, 0)
    ensures CutAt(d, f, e, i, end)
  {
    var b := Children(d, e);
    ChildrenDistinct(d, e);
    assert c[i..] == b[end..];
    forall x | x in d ensures f[x] == CutToken(d, e, i, end, x) {
      if x in b[end..] {
        InSlot(d, e, x);
        assert c[d[x].index - (end - i)] == x;
      }
    }
  }

  lemma CutSlot(d: Doc, f: Doc, e: Id, i: nat, end: nat, p: Id, j: nat)
    requires Sound(d) && IsElement(d, e) && i <= end <= |Children(d, e)| && CutAt(d, f, e, i, end)
    requires IsElement(f, p) && j < |Children(f, p)|
    ensures LinkedAt(f, p, j)
  {
    var c := Children(d, e);
    ChildrenDistinct(d, e);
    var x := Children(f, p)[j];
    if p == e {
      var k := if j < i then j else j + (end - i);
      assert x == c[k] && LinkedAt(d, e, k);
      assert x in c[end..] <==> k >= end;
    } else {
      assert LinkedAt(d, p, j);
      if x in c {
        InSlot(d, e, x);
      }
    }
  }

  lemma CutSound(d: Doc, f: Doc, e: Id, i: nat, end: nat)
    requires Sound(d) && IsElement(d, e) && i <= end <= |Children(d, e)| && CutAt(d, f, e, i, end)
    ensures Sound(f)
  {
    forall p, j | IsElement(f, p) && 0 <= j < |Children(f, p)| ensures LinkedAt(f, p, j) {
      CutSlot(d, f, e, i, end, p, j);
    }
    forall x | x in f ensures Anchored(f, x) {
      assert Anchored(d, x);
      if x in Children(d, e)[end..] {
        InSlot(d, e, x);
        ChildrenDistinct(d, e);
      }
    }
  }

  /** The tokens cut off keep naming their old parent: none may be cut off if all are to stay placed. */
  lemma CutPlaced(d: Doc, f: Doc, e: Id, i: nat, end: nat)
    requires Sound(d) && IsElement(d, e) && i <= end <= |Children(d, e)| && CutAt(d, f, e, i, end) && AllPlaced(d)
    ensures AllPlaced(f) <==> i == end
  {
    var c := Children(d, e);
    if i == end {
      assert c[..i] + c[end..] == c;
      forall x | x in f ensures Placed(f, x) {
        assert Placed(d, x);
      }
    } else {
      ChildrenDistinct(d, e);
      var x := c[i];
      InSlot(d, e, x);
      assert x !in c[..i] + c[end..];
      assert !Placed(f, x);
    }
  }

  ghost predicate NoElements(d: Doc, xs: seq<Id>) {
    forall i :: 0 <= i < |xs| ==> !IsElement(d, xs[i])
  }

  /** Cutting off text leaves every element where it says it is. */
  lemma CutElements(d: Doc, f: Doc, e: Id, i: nat, end: nat)
    requires IsElement(d, e) && i <= end <= |Children(d, e)| && CutAt(d, f, e, i, end)
    ensures NoElements(d, Children(d, e)[i..end]) && ElementsPlaced(d) ==> ElementsPlaced(f)
  {
    var c := Children(d, e);
    assert c == c[..i] + c[i..end] + c[end..];
    if NoElements(d, c[i..end]) && ElementsPlaced(d) {
      forall x | IsElement(f, x) ensures Placed(f, x) {
        assert f[x] == CutToken(d, e, i, end, x) && Placed(d, x);
        if d[x].parent.Some? {
          var p := d[x].parent.value;
          assert f[p] == CutToken(d, e, i, end, p);
        }
      }
    }
  }

  lemma NothingCut(d: Doc, e: Id, i: nat)
    requires IsElement(d, e) && i <= |Children(d, e)|
    ensures CutAt(d, d, e, i, i)
  {
    var c := Children(d, e);
    assert c[..i] + c[i..] == c;
  }

  lemma SetDataSound(d: Doc, e: Id, i: nat, text: string)
    requires Sound(d) && IsElement(d, e) && i < |Children(d, e)| && Children(d, e)[i] in d
    requires d[Children(d, e)[i]].kind.CharData?
    ensures var t := Children(d, e)[i]; var f := d[t := d[t].(kind := CharData(text, false))];
      Sound(f) && (AllPlaced(d) <==> AllPlaced(f)) && (ElementsPlaced(d) ==> ElementsPlaced(f)) && IsElement(f, e)
  {
    var t := Children(d, e)[i];
    var f := d[t := d[t].(kind := CharData(text, false))];
    forall p, j | IsElement(f, p) && 0 <= j < |Children(f, p)| ensures LinkedAt(f, p, j) {
      assert LinkedAt(d, p, j);
    }
    forall x | x in f ensures Anchored(f, x) && (Placed(d, x) <==> Placed(f, x)) {
      assert Anchored(d, x);
    }
  }

  lemma FreshSound(d: Doc, cd: Id, text: string, whitespace: bool)
    requires Sound(d) && cd !in d
    ensures var f := d[cd := Token(CharData(text, whitespace), None, -1)];
      Sound(f) && KeepsPlaces(d, f) && !Takes(f, cd) && Evicted(f, cd) == cd
  {
    var f := d[cd := Token(CharData(text, whitespace), None, -1)];
    forall p, j | IsElement(f, p) && 0 <= j < |Children(f, p)| ensures LinkedAt(f, p, j) {
      assert LinkedAt(d, p, j);
    }
    forall x | x in f ensures Anchored(f, x) && (x != cd ==> x in d && (Placed(d, x) ==> Placed(f, x))) {
      if x != cd {
        assert Anchored(d, x);
      }
    }
  }

  lemma SameRetexts(d: Doc, e: Id, i: nat, cd: Id)
    requires IsElement(d, e) && RunOfText(d, Children(d, e), i, i)
    ensures Retexted(d, d, e, i, i, [], "", cd)
  {
    var c := Children(d, e);
    assert c[..i] + [] + c[i..] == c;
  }

  lemma MovedRetexts(d: Doc, mid: Doc, f: Doc, e: Id, i: nat, text: string, cd: Id)
    requires Sound(d) && IsElement(d, e) && RunOfText(d, Children(d, e), i, i) && cd !in d && text != ""
    requires mid == d[cd := Token(CharData(text, false), None, -1)]
    requires Moved(mid, f, e, cd, Children(d, e)[..i] + [cd] + Children(d, e)[i..])
    ensures Retexted(d, f, e, i, i, [cd], text, cd)
  {
    var c := Children(d, e);
    forall x | x in d && x !in c[i..i]
      ensures f[x].kind == if x == e then Rekind(d[x].kind, c[..i] + [cd] + c[i..]) else d[x].kind
    {
      if IsElement(d, x) && x != e {
        ChildrenIn(d, x);
        WithoutAbsent(Children(d, x), cd);
      }
    }
  }

  lemma RemovedRetexts(d: Doc, f: Doc, e: Id, i: nat, cd: Id)
    requires IsElement(d, e) && RunOfText(d, Children(d, e), i, i + 1) && RemovedAt(d, f, e, i)
    ensures Retexted(d, f, e, i, i + 1, [], "", cd)
  {
    var c := Children(d, e);
    assert c[..i] + [] + c[i + 1..] == c[..i] + c[i + 1..];
  }

  lemma CutRetexts(d: Doc, mid: Doc, f: Doc, e: Id, i: nat, end: nat, text: string, one: seq<Id>, cd: Id)
    requires IsElement(d, e) && RunOfText(d, Children(d, e), i, end) && i < end
    requires one == if text == "" then [] else [Children(d, e)[i]]
    requires mid == if text == "" then d else var t := Children(d, e)[i]; d[t := d[t].(kind := CharData(text, false))]
    requires IsElement(mid, e) && CutAt(mid, f, e, i + |one|, end)
    ensures Retexted(d, f, e, i, end, one, text, cd)
  {
    var c := Children(d, e);
    assert Children(mid, e) == c;
    assert c[..i + |one|] == c[..i] + one;
    if text != "" {
      assert c[i] in c[i..end];
    }
  }

  function IndexIn(xs: seq<Id>, t: Id): (i: nat)
    requires t in xs
    ensures i < |xs| && xs[i] == t && t !in xs[..i]
  {
    if xs[0] == t then 0
    else
      var i := IndexIn(xs[1..], t);
      assert xs[..i + 1] == [xs[0]] + xs[1..][..i];
      i + 1
  }

  /** Where `ex`, a token that names `e` as its parent, says it is once `t` has been taken out. */
  function Position(d: Doc, e: Id, ex: Id, t: Id): int
    requires t in d && ex in d && IsElement(d, e)
  {
    var w := Without(Children(d, e), Evicted(d, t));
    if ex in w then IndexIn(w, ex) else if Takes(d, t) && ex == Evicted(d, t) then -1 else d[ex].index
  }

  /** A placed `ex` is found at its place unless it is what was taken out, which is a crash. */
  lemma PositionOfPlaced(d: Doc, e: Id, ex: Id, t: Id)
    requires Sound(d) && t in d && ex in d && IsElement(d, e) && d[ex].parent == Some(e) && Placed(d, ex)
    ensures ex != Evicted(d, t) ==> ex in Without(Children(d, e), Evicted(d, t))
    ensures ex == Evicted(d, t) ==> Position(d, e, ex, t) == -1
  {
    if ex != Evicted(d, t) {
      WithoutKeeps(Children(d, e), Evicted(d, t), ex);
    } else {
      EvictsItself(d, ex);
    }
  }

  /** Where `InsertChildAt` puts a token: in front of this slot of the list without what was taken out. */
  function LandsAt(d: Doc, e: Id, index: int, t: Id): int
    requires t in d && IsElement(d, e)
  {
    if index >= |Children(d, e)| then |Without(Children(d, e), Evicted(d, t))|
    else if d[t].parent == Some(e) && d[t].index > index then index - 1
    else index
  }

  function Lands(d: Doc, e: Id, index: int, t: Id): seq<Id>
    requires t in d && IsElement(d, e)
  {
    PutAt(Without(Children(d, e), Evicted(d, t)), LandsAt(d, e, index, t), t)
  }

  lemma LandsLast(d: Doc, e: Id, index: int, t: Id)
    requires t in d && IsElement(d, e) && index >= |Children(d, e)|
    ensures Lands(d, e, index, t) == Without(Children(d, e), Evicted(d, t)) + [t]
  {
    var w := Without(Children(d, e), Evicted(d, t));
    assert w[..|w|] + [t] + w[|w|..] == w + [t];
  }

  lemma LandsFresh(d: Doc, mid: Doc, e: Id, i: nat, cd: Id)
    requires Sound(d) && IsElement(d, e) && IsElement(mid, e) && i <= |Children(d, e)| && cd !in d && cd in mid
    requires Children(mid, e) == Children(d, e) && mid[cd].parent.None?
    ensures 0 <= LandsAt(mid, e, i, cd) && Lands(mid, e, i, cd) == Children(d, e)[..i] + [cd] + Children(d, e)[i..]
  {
    ChildrenIn(d, e);
    WithoutAbsent(Children(d, e), cd);
  }

  /** Where `InsertChildAt` leaves a token: one slot too early behind its place, one too late in front of it. */
  function Landed(c: seq<Id>, index: nat, t: Id): seq<Id> {
    var w := Without(c, t);
    var at := if index >= |c| then |w| else if t in c && IndexIn(c, t) > index then index - 1 else index;
    if 0 <= at <= |w| then w[..at] + [t] + w[at..] else w
  }

  /** Where it was asked for: in front of the token that was at `index`. */
  function Asked(c: seq<Id>, index: nat, t: Id): seq<Id> {
    if index >= |c| then Without(c, t) + [t] else Without(c[..index], t) + [t] + Without(c[index..], t)
  }

  lemma SoundLinked(d: Doc)
    requires Sound(d)
    ensures Linked(d)
  {
  }

  lemma RenumberedKeys(d: Doc, f: Doc, c: seq<Id>, from: nat, to: nat, shift: int)
    requires from <= to <= |c| && (forall j :: 0 <= j < |c| ==> c[j] in d) && Renumbered(d, f, c, from, to, shift)
    ensures f.Keys == d.Keys
  {
  }

  lemma {:induction false} WithoutKeeps(xs: seq<Id>, t: Id, x: Id)
    requires x in xs && x != t
    ensures x in Without(xs, t)
    decreases |xs|
  {
    if x != xs[0] {
      WithoutKeeps(xs[1..], t, x);
    }
  }

  lemma DetachedElement(d: Doc, mid: Doc, t: Id, e: Id)
    requires t in d && IsElement(d, e) && Detached(d, mid, t)
    ensures t in mid && IsElement(mid, e) && Children(mid, e) == Without(Children(d, e), Evicted(d, t)) && NoSlot(mid, t)
  {
    assert mid[e].kind == WithoutKind(d[e].kind, Evicted(d, t));
  }

  lemma RoomLeft(d: Doc, mid: Doc, e: Id, t: Id)
    requires Sound(d) && t in d && IsElement(d, e) && IsElement(mid, e)
    requires Children(mid, e) == Without(Children(d, e), Evicted(d, t))
    ensures |Children(mid, e)| >= |Children(d, e)| - 1
  {
    var c, v := Children(d, e), Evicted(d, t);
    ChildrenDistinct(d, e);
    if v in c {
      var i :| 0 <= i < |c| && c[i] == v;
      WithoutAt(c, i);
    } else {
      WithoutAbsent(c, v);
    }
  }

  lemma PositionAfter(d: Doc, mid: Doc, e: Id, ex: Id, t: Id)
    requires Sound(d) && Sound(mid) && t in d && ex in d && Detached(d, mid, t)
    requires IsElement(d, e) && d[ex].parent == Some(e)
    requires IsElement(mid, e) && Children(mid, e) == Without(Children(d, e), Evicted(d, t))
    ensures ex in mid && mid[ex].index == Position(d, e, ex, t)
  {
    var v := Evicted(d, t);
    if ex in Children(mid, e) {
      InSlot(mid, e, ex);
      ChildrenDistinct(mid, e);
    } else if !(Takes(d, t) && ex == v) {
      forall q | IsElement(d, q) ensures ex !in Children(d, q) {
        if ex in Children(d, q) {
          InSlot(d, q, ex);
          if ex != v {
            WithoutKeeps(Children(d, e), v, ex);
          }
        }
      }
    }
  }

  lemma LandedLast(c: seq<Id>, index: nat, t: Id)
    requires index >= |c|
    ensures Landed(c, index, t) == Without(c, t) + [t] == Asked(c, index, t)
  {
  }

  lemma LandedAbsent(c: seq<Id>, index: nat, t: Id)
    requires index < |c| && t !in c
    ensures Landed(c, index, t) == Asked(c, index, t)
  {
    hide Without;
    WithoutAbsent(c, t);
    WithoutAbsent(c[..index], t);
    WithoutAbsent(c[index..], t);
  }

  lemma AskedAt(c: seq<Id>, index: nat, k: nat)
    requires Distinct(c) && index < |c| && k < |c|
    ensures Without(c[..index], c[k]) == if k < index then c[..k] + c[k + 1..index] else c[..index]
    ensures Without(c[index..], c[k]) == if k < index then c[index..] else c[index..k] + c[k + 1..]
  {
    hide Without;
    var a, b, t := c[..index], c[index..], c[k];
    if k < index {
      assert t !in b;
      WithoutAbsent(b, t);
      assert a[k] == t && a[..k] == c[..k] && a[k + 1..] == c[k + 1..index];
      WithoutAt(a, k);
    } else {
      assert t !in a;
      WithoutAbsent(a, t);
      assert b[k - index] == t && b[..k - index] == c[index..k] && b[k - index + 1..] == c[k + 1..];
      WithoutAt(b, k - index);
    }
  }

  /** Where the `k`-th child lands, in terms of the list without it. */
  lemma LandedOf(c: seq<Id>, index: nat, k: nat, w: seq<Id>)
    requires Distinct(c) && index < |c| && k < |c| && w == c[..k] + c[k + 1..]
    ensures IndexIn(c, c[k]) == k
    ensures Landed(c, index, c[k]) == if k <= index then w[..index] + [c[k]] + w[index..]
                                      else if index > 0 then w[..index - 1] + [c[k]] + w[index - 1..] else w
  {
    hide Without, IndexIn, Distinct;
    IndexOfAt(c, k);
    WithoutAt(c, k);
  }

  lemma LandedHere(c: seq<Id>, k: nat)
    requires Distinct(c) && k < |c|
    ensures IndexIn(c, c[k]) == k && Landed(c, k, c[k]) == Asked(c, k, c[k])
  {
    hide Without, IndexIn, Distinct, Landed;
    var w := c[..k] + c[k + 1..];
    LandedOf(c, k, k, w);
    AskedAt(c, k, k);
    assert w[..k] == c[..k] && w[k..] == c[k + 1..] && c[k..k] + c[k + 1..] == c[k + 1..];
  }

  lemma LandedLate(c: seq<Id>, index: nat, k: nat)
    requires Distinct(c) && k < index < |c|
    ensures IndexIn(c, c[k]) == k && Landed(c, index, c[k]) != Asked(c, index, c[k])
  {
    hide Without, IndexIn, Distinct, Landed;
    var w, a := c[..k] + c[k + 1..], c[..k] + c[k + 1..index];
    LandedOf(c, index, k, w);
    AskedAt(c, index, k);
    TakenAt(a, c[k], c[index..], index - 1);
    TakenAt(w[..index], c[k], w[index..], index);
    DifferAt(c, index, k);
  }

  lemma LandedEarly(c: seq<Id>, index: nat, k: nat)
    requires Distinct(c) && index < k < |c|
    ensures IndexIn(c, c[k]) == k && Landed(c, index, c[k]) != Asked(c, index, c[k])
  {
    hide Without, IndexIn, Distinct, Landed;
    var w, b := c[..k] + c[k + 1..], c[index..k] + c[k + 1..];
    LandedOf(c, index, k, w);
    AskedAt(c, index, k);
    TakenAt(c[..index], c[k], b, index);
    if index > 0 {
      TakenAt(w[..index - 1], c[k], w[index - 1..], index - 1);
      DifferAt(c, index - 1, k);
    }
  }

  lemma IndexOfAt(c: seq<Id>, k: nat)
    requires Distinct(c) && k < |c|
    ensures IndexIn(c, c[k]) == k
  {
  }

  lemma DifferAt(c: seq<Id>, i: nat, k: nat)
    requires Distinct(c) && i < |c| && k < |c| && i != k
    ensures c[i] != c[k]
  {
  }

  /** What stands where in a list put together in front of, at and behind position `n`. */
  lemma TakenAt(a: seq<Id>, t: Id, b: seq<Id>, n: nat)
    requires |a| == n
    ensures |a + [t] + b| == n + 1 + |b| && (a + [t] + b)[n] == t
    ensures b != [] ==> (a + [t] + b)[n + 1] == b[0]
    ensures n > 0 ==> (a + [t] + b)[n - 1] == a[n - 1]
  {
  }

  /** `InsertChildAt` does what it is asked exactly when the token is not elsewhere in the same list. */
  lemma LandedAsAsked(c: seq<Id>, index: nat, t: Id)
    requires Distinct(c)
    ensures Landed(c, index, t) == Asked(c, index, t) <==> index >= |c| || t !in c || IndexIn(c, t) == index
  {
    hide Landed, Asked, Without;
    if index >= |c| {
      LandedLast(c, index, t);
    } else if t !in c {
      LandedAbsent(c, index, t);
    } else {
      var k := IndexIn(c, t);
      if k == index {
        LandedHere(c, k);
      } else if k < index {
        LandedLate(c, index, k);
      } else {
        LandedEarly(c, index, k);
      }
    }
  }

  /** Asked to put the last of three children second, it puts it first. */
  lemma LandsEarly()
    ensures Landed([1, 2, 3], 1, 3) == [3, 1, 2] && Asked([1, 2, 3], 1, 3) == [1, 3, 2]
  {
    hide Without;
    var c := [1, 2, 3];
    WithoutAt(c, 2);
    AskedAt(c, 1, 2);
    assert c[..2] + c[3..] == [1, 2];
    assert c[..1] == [1] && c[1..2] + c[3..] == [2];
    hide IndexIn;
    assert IndexIn(c, 3) == 2;
  }

  /** A placed token lands where the list alone says. */
  lemma LandsPlaced(d: Doc, e: Id, t: Id, index: nat)
    requires Sound(d) && IsElement(d, e) && t in d && Placed(d, t)
    ensures Lands(d, e, index, t) == Landed(Children(d, e), index, t)
  {
    EvictsItself(d, t);
    if t in Children(d, e) {
      InSlot(d, e, t);
      ChildrenDistinct(d, e);
    }
  }

  // ---- dropped text, at an input ----

  /** An element with two text tokens and a child element. */
  const TWO_TEXTS: Doc := map[0 := Token(Element("", "a", [], [1, 2, 3]), None, -1),
                              1 := Token(CharData("x", false), Some(0), 0),
                              2 := Token(CharData("y", false), Some(0), 1),
                              3 := Token(Element("", "b", [], []), Some(0), 2)]

  /** The same with both texts cut off: they still name their parent and their old slots. */
  const TEXTS_DROPPED: Doc := map[0 := Token(Element("", "a", [], [3]), None, -1),
                                  1 := Token(CharData("x", false), Some(0), 0),
                                  2 := Token(CharData("y", false), Some(0), 1),
                                  3 := Token(Element("", "b", [], []), Some(0), 0)]

  lemma TwoTextsSound()
    ensures Sound(TWO_TEXTS) && AllPlaced(TWO_TEXTS) && TwoTexts(TWO_TEXTS, [1, 2, 3], 0)
  {
    var d := TWO_TEXTS;
    assert Children(d, 0) == [1, 2, 3] && Children(d, 3) == [];
  }

  /** Setting the text of an element with two text tokens leaves a token that is not where it says it is. */
  method SetTextDrops() returns (f: Forest)
    ensures fresh(f) && Sound(f.doc) && !AllPlaced(f.doc) && ElementsPlaced(f.doc)
  {
    TwoTextsSound();
    assert ElementsPlaced(TWO_TEXTS);
    f := new Forest(TWO_TEXTS);
    hide Sound, AllPlaced, ElementsPlaced, TwoTexts;
    f.SetText(0, "z", 9);
  }

  /** Adding the first of two dropped texts again throws the child element out of the document. */
  lemma DroppedEvicts()
    ensures CutAt(TWO_TEXTS, TEXTS_DROPPED, 0, 0, 2) && Sound(TEXTS_DROPPED)
    ensures !Placed(TEXTS_DROPPED, 1) && Evicted(TEXTS_DROPPED, 1) == 3
  {
    var d, f := TWO_TEXTS, TEXTS_DROPPED;
    var c := [1, 2, 3];
    assert Children(d, 0) == c && Children(f, 0) == [3];
    assert c[..0] + c[2..] == [3] && c[2..] == [3];
  }
}
