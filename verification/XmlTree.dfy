/** `goxml` element trees: tokens linked by parent and index, addressed by identity. */
module XmlTree {
  import opened Basics

  type Id = int

  datatype Attr = Attr(space: string, key: string, value: string)

  datatype Kind =
    | Element(space: string, tag: string, attrs: seq<Attr>, child: seq<Id>)
    | CharData(data: string, whitespace: bool)
    | Other                                     // comments, directives, processing instructions

  datatype Token = Token(kind: Kind, parent: Option<Id>, index: int)

  type Doc = map<Id, Token>

  predicate IsElement(d: Doc, e: Id) {
    e in d && d[e].kind.Element?
  }

  function Children(d: Doc, e: Id): seq<Id>
    requires IsElement(d, e)
  {
    d[e].kind.child
  }

  /** Every child slot points at a token that points back: the invariant tree edits must keep. */
  ghost predicate Linked(d: Doc) {
    forall e, i :: IsElement(d, e) && 0 <= i < |Children(d, e)| ==> LinkedAt(d, e, i)
  }

  ghost predicate LinkedAt(d: Doc, e: Id, i: int)
    requires IsElement(d, e) && 0 <= i < |Children(d, e)|
  {
    var c := Children(d, e)[i];
    c in d && d[c].parent == Some(e) && d[c].index == i
  }

  /** How deep each element lies below its root, and a bound on it: a witness that there are no cycles. */
  datatype Shape = Shape(depth: map<Id, nat>, bound: nat)

  /** An element with a parent sits in that parent's child list, one level below it. */
  ghost predicate Rooted(d: Doc, s: Shape, x: Id)
    requires x in d
  {
    && x in s.depth && s.depth[x] < s.bound
    && match d[x].parent
       case None => s.depth[x] == 0
       case Some(p) =>
         && IsElement(d, p) && p in s.depth && s.depth[x] == s.depth[p] + 1
         && 0 <= d[x].index < |Children(d, p)| && Children(d, p)[d[x].index] == x
  }

  /** A tree of elements; text that was dropped from a list may still name its old parent. */
  ghost predicate WellFormed(d: Doc, s: Shape) {
    Linked(d) && forall x {:trigger Rooted(d, s, x)} :: IsElement(d, x) ==> Rooted(d, s, x)
  }

  /** The elements among a list of tokens, in order. */
  function Elements(d: Doc, toks: seq<Id>): seq<Id> {
    if toks == [] then []
    else Elements(d, toks[..|toks| - 1]) + if IsElement(d, toks[|toks| - 1]) then [toks[|toks| - 1]] else []
  }

  function Kids(d: Doc, e: Id): seq<Id>
    requires IsElement(d, e)
  {
    Elements(d, Children(d, e))
  }

  ghost predicate AllElements(d: Doc, xs: seq<Id>) {
    forall i :: 0 <= i < |xs| ==> IsElement(d, xs[i])
  }

  lemma {:induction false} ElementsIn(d: Doc, toks: seq<Id>, x: Id)
    ensures x in Elements(d, toks) <==> x in toks && IsElement(d, x)
    ensures AllElements(d, Elements(d, toks))
    decreases |toks|
  {
    if toks != [] {
      var n := |toks| - 1;
      ElementsIn(d, toks[..n], x);
      assert toks == toks[..n] + [toks[n]];
    }
  }

  lemma KidsLinked(d: Doc, e: Id, x: Id)
    requires Linked(d) && IsElement(d, e) && x in Kids(d, e)
    ensures IsElement(d, x) && d[x].parent == Some(e)
  {
    ElementsIn(d, Children(d, e), x);
    var i :| 0 <= i < |Children(d, e)| && Children(d, e)[i] == x;
    assert LinkedAt(d, e, i);
  }

  lemma KidOfParent(d: Doc, s: Shape, x: Id, p: Id)
    requires WellFormed(d, s) && IsElement(d, x) && d[x].parent == Some(p)
    ensures IsElement(d, p) && x in Kids(d, p)
  {
    assert Rooted(d, s, x);
    assert x in Children(d, p);
    ElementsIn(d, Children(d, p), x);
  }

  ghost predicate Distinct(xs: seq<Id>) {
    forall i, j :: 0 <= i < j < |xs| ==> xs[i] != xs[j]
  }

  lemma ChildrenDistinct(d: Doc, e: Id)
    requires Linked(d) && IsElement(d, e)
    ensures Distinct(Children(d, e))
  {
    forall i, j | 0 <= i < j < |Children(d, e)| ensures Children(d, e)[i] != Children(d, e)[j] {
      assert LinkedAt(d, e, i) && LinkedAt(d, e, j);
    }
  }

  lemma {:induction false} ElementsDistinct(d: Doc, toks: seq<Id>)
    requires Distinct(toks)
    ensures Distinct(Elements(d, toks))
    decreases |toks|
  {
    if toks != [] {
      var n := |toks| - 1;
      ElementsDistinct(d, toks[..n]);
      ElementsIn(d, toks[..n], toks[n]);
    }
  }

  // ---- descendants, level by level ----

  /** The children of a list of elements, in order. */
  function AllKids(d: Doc, xs: seq<Id>): seq<Id>
    requires AllElements(d, xs)
  {
    if xs == [] then [] else AllKids(d, xs[..|xs| - 1]) + Kids(d, xs[|xs| - 1])
  }

  ghost predicate KidAt(d: Doc, xs: seq<Id>, i: int, x: Id)
    requires AllElements(d, xs)
  {
    0 <= i < |xs| && x in Kids(d, xs[i])
  }

  lemma {:induction false} AllKidsIn(d: Doc, xs: seq<Id>, x: Id)
    requires AllElements(d, xs)
    ensures x in AllKids(d, xs) <==> exists i :: KidAt(d, xs, i, x)
    decreases |xs|
  {
    hide Kids;
    if xs != [] {
      var n := |xs| - 1;
      AllKidsIn(d, xs[..n], x);
      assert x in AllKids(d, xs) <==> x in AllKids(d, xs[..n]) || x in Kids(d, xs[n]);
      assert KidAt(d, xs, n, x) <==> x in Kids(d, xs[n]);
      forall i | 0 <= i < n ensures KidAt(d, xs, i, x) <==> KidAt(d, xs[..n], i, x) {}
    }
  }

  lemma {:induction false} AllKidsElements(d: Doc, xs: seq<Id>)
    requires AllElements(d, xs)
    ensures AllElements(d, AllKids(d, xs))
    decreases |xs|
  {
    if xs != [] {
      AllKidsElements(d, xs[..|xs| - 1]);
      KidsElements(d, xs[|xs| - 1]);
    }
  }

  lemma KidsElements(d: Doc, e: Id)
    requires IsElement(d, e)
    ensures AllElements(d, Kids(d, e))
  {
    ElementsIn(d, Children(d, e), 0);
  }

  /** The descendants of `e` exactly `k` levels below it, in document order within the level. */
  ghost function Level(d: Doc, e: Id, k: nat): (xs: seq<Id>)
    requires IsElement(d, e)
    ensures AllElements(d, xs)
  {
    if k == 0 then [e]
    else
      AllKidsElements(d, Level(d, e, k - 1));
      AllKids(d, Level(d, e, k - 1))
  }

  /** The first `n` levels below `e`, one after the other. */
  ghost function Levels(d: Doc, e: Id, n: nat): seq<Id>
    requires IsElement(d, e)
  {
    if n == 0 then [] else Levels(d, e, n - 1) + Level(d, e, n - 1)
  }

  /** `e` is the `k`-th ancestor of `x`. */
  ghost predicate Below(d: Doc, e: Id, x: Id, k: nat)
    decreases k
  {
    x in d && if k == 0 then x == e else d[x].parent.Some? && Below(d, e, d[x].parent.value, k - 1)
  }

  /** Level `k` holds exactly the elements whose `k`-th ancestor is `e`. */
  lemma {:induction false} LevelIsBelow(d: Doc, s: Shape, e: Id, x: Id, k: nat)
    requires WellFormed(d, s) && IsElement(d, e)
    ensures x in Level(d, e, k) <==> IsElement(d, x) && Below(d, e, x, k)
    decreases k
  {
    hide WellFormed;
    if k > 0 {
      var up := Level(d, e, k - 1);
      assert Level(d, e, k) == AllKids(d, up);
      hide Level, AllKids, Kids, Children, AllElements;
      if x in Level(d, e, k) {
        var p := ParentAmong(d, up, x);
        WellLinked(d, s);
        KidsLinked(d, p, x);
        LevelIsBelow(d, s, e, p, k - 1);
      }
      if IsElement(d, x) && Below(d, e, x, k) {
        var p := d[x].parent.value;
        KidOfParent(d, s, x, p);
        LevelIsBelow(d, s, e, p, k - 1);
        KidsAmong(d, up, p, x);
      }
    }
  }

  lemma WellLinked(d: Doc, s: Shape)
    requires WellFormed(d, s)
    ensures Linked(d)
  {
  }

  lemma ParentAmong(d: Doc, xs: seq<Id>, x: Id) returns (p: Id)
    requires AllElements(d, xs) && x in AllKids(d, xs)
    ensures p in xs && IsElement(d, p) && x in Kids(d, p)
  {
    AllKidsIn(d, xs, x);
    var i :| KidAt(d, xs, i, x);
    p := xs[i];
  }

  lemma KidsAmong(d: Doc, xs: seq<Id>, p: Id, x: Id)
    requires AllElements(d, xs) && p in xs && IsElement(d, p) && x in Kids(d, p)
    ensures x in AllKids(d, xs)
  {
    AllKidsIn(d, xs, x);
    var i :| 0 <= i < |xs| && xs[i] == p;
    assert KidAt(d, xs, i, x);
  }

  lemma {:induction false} BelowDepth(d: Doc, s: Shape, e: Id, x: Id, k: nat)
    requires WellFormed(d, s) && IsElement(d, x) && Below(d, e, x, k)
    ensures e in d && x in s.depth && e in s.depth && s.depth[x] == s.depth[e] + k
    decreases k
  {
    assert Rooted(d, s, x);
    if k > 0 {
      BelowDepth(d, s, e, d[x].parent.value, k - 1);
    }
  }

  /** Below the deepest level there is nothing. */
  lemma NoLevel(d: Doc, s: Shape, e: Id, k: nat)
    requires WellFormed(d, s) && IsElement(d, e) && k >= s.bound
    ensures Level(d, e, k) == []
  {
    if Level(d, e, k) != [] {
      var x := Level(d, e, k)[0];
      LevelIsBelow(d, s, e, x, k);
      assert Rooted(d, s, x);
      BelowDepth(d, s, e, x, k);
    }
  }

  lemma DistinctConcat(a: seq<Id>, b: seq<Id>)
    requires Distinct(a) && Distinct(b) && forall x :: x in a ==> x !in b
    ensures Distinct(a + b)
  {
    var c := a + b;
    forall i, j | 0 <= i < j < |c| ensures c[i] != c[j] {
      if i < |a| && j >= |a| {
        assert c[i] in a && c[j] in b;
      }
    }
  }

  lemma {:induction false} AllKidsDistinct(d: Doc, xs: seq<Id>)
    requires Linked(d) && AllElements(d, xs) && Distinct(xs)
    ensures Distinct(AllKids(d, xs))
    decreases |xs|
  {
    if xs != [] {
      var n := |xs| - 1;
      AllKidsDistinct(d, xs[..n]);
      ChildrenDistinct(d, xs[n]);
      ElementsDistinct(d, Children(d, xs[n]));
      hide Kids, Children;
      forall x | x in AllKids(d, xs[..n]) ensures x !in Kids(d, xs[n]) {
        var p := ParentAmong(d, xs[..n], x);
        KidsLinked(d, p, x);
        if x in Kids(d, xs[n]) {
          KidsLinked(d, xs[n], x);
        }
      }
      DistinctConcat(AllKids(d, xs[..n]), Kids(d, xs[n]));
    }
  }

  lemma {:induction false} LevelDistinct(d: Doc, e: Id, k: nat)
    requires Linked(d) && IsElement(d, e)
    ensures Distinct(Level(d, e, k))
    decreases k
  {
    if k > 0 {
      LevelDistinct(d, e, k - 1);
      AllKidsDistinct(d, Level(d, e, k - 1));
    }
  }

  ghost predicate InLevel(d: Doc, e: Id, x: Id, k: nat)
    requires IsElement(d, e)
  {
    x in Level(d, e, k)
  }

  lemma {:induction false} LevelsIn(d: Doc, e: Id, n: nat, x: Id)
    requires IsElement(d, e)
    ensures x in Levels(d, e, n) <==> exists k: nat :: k < n && InLevel(d, e, x, k)
    decreases n
  {
    hide Level;
    if n > 0 {
      LevelsIn(d, e, n - 1, x);
      assert InLevel(d, e, x, n - 1) <==> x in Level(d, e, n - 1);
      hide InLevel;
      if x in Levels(d, e, n - 1) {
        var k: nat :| k < n - 1 && InLevel(d, e, x, k);
        assert k < n && InLevel(d, e, x, k);
      }
      if k: nat :| k < n && InLevel(d, e, x, k) {
        assert k < n - 1 ==> x in Levels(d, e, n - 1);
      }
    }
  }

  /** Level by level, each descendant-or-self element appears exactly once. */
  lemma {:induction false} LevelsDistinct(d: Doc, s: Shape, e: Id, n: nat)
    requires WellFormed(d, s) && IsElement(d, e)
    ensures Distinct(Levels(d, e, n))
    decreases n
  {
    hide WellFormed, Level;
    if n > 0 {
      LevelsDistinct(d, s, e, n - 1);
      WellLinked(d, s);
      LevelDistinct(d, e, n - 1);
      var before, here := Levels(d, e, n - 1), Level(d, e, n - 1);
      forall x | x in before ensures x !in here {
        LevelsIn(d, e, n - 1, x);
        var k: nat :| k < n - 1 && InLevel(d, e, x, k);
        if x in here {
          LevelIsBelow(d, s, e, x, k);
          LevelIsBelow(d, s, e, x, n - 1);
          BelowDepth(d, s, e, x, k);
          BelowDepth(d, s, e, x, n - 1);
        }
      }
      DistinctConcat(before, here);
    }
  }

  ghost predicate IsDescendant(d: Doc, e: Id, x: Id) {
    IsElement(d, x) && exists k: nat :: Below(d, e, x, k)
  }

  /** All levels together hold exactly the descendants of `e` and `e` itself. */
  lemma DescendantsAre(d: Doc, s: Shape, e: Id, x: Id)
    requires WellFormed(d, s) && IsElement(d, e)
    ensures x in Levels(d, e, s.bound) <==> IsDescendant(d, e, x)
  {
    hide WellFormed, Level;
    LevelsIn(d, e, s.bound, x);
    if x in Levels(d, e, s.bound) {
      var k: nat :| k < s.bound && InLevel(d, e, x, k);
      LevelIsBelow(d, s, e, x, k);
    }
    if IsDescendant(d, e, x) {
      var k: nat :| Below(d, e, x, k);
      LevelIsBelow(d, s, e, x, k);
      if k >= s.bound {
        NoLevel(d, s, e, k);
      }
      assert InLevel(d, e, x, k);
    }
  }
}
