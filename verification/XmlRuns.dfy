/** Runs of edits on `goxml` trees: what every run keeps, and when the result is again a tree paths can search. */
module XmlRuns {
  import opened Basics
  import opened XmlTree
  import opened XmlPath
  import opened XmlEdit
  import opened XmlIndent

  // ---- trees without cycles ----

  /** A measure that goes up from an element to its parent: there are no cycles. */
  ghost predicate Ranked(d: Doc, rank: map<Id, nat>) {
    forall x :: IsElement(d, x) ==> x in rank && RankedAt(d, rank, x)
  }

  ghost predicate RankedAt(d: Doc, rank: map<Id, nat>, x: Id)
    requires x in d && x in rank
  {
    d[x].parent.Some? ==> d[x].parent.value in rank && rank[x] < rank[d[x].parent.value]
  }

  lemma {:induction false} AtRank(d: Doc, rank: map<Id, nat>, e: Id, x: Id, k: nat)
    requires Ranked(d, rank) && IsElement(d, x) && At(d, e, x, k)
    ensures IsElement(d, e) && rank[x] + k <= rank[e]
    decreases k
  {
    if k > 0 {
      assert RankedAt(d, rank, x);
      AtRank(d, rank, e, d[x].parent.value, k - 1);
    }
  }

  lemma SteadyRanked(d: Doc, f: Doc, rank: map<Id, nat>)
    requires Steady(d, f) && Ranked(d, rank)
    ensures Ranked(f, rank)
  {
    forall x | IsElement(f, x) ensures x in rank && RankedAt(f, rank, x) {
      assert x in d && SameButChild(d[x], f[x]);
      assert RankedAt(d, rank, x);
    }
  }

  ghost predicate NoCycle(d: Doc) {
    exists rank :: Ranked(d, rank)
  }

  /** `x` is `e` or one of its ancestors. */
  ghost predicate Above(d: Doc, x: Id, e: Id) {
    exists k: nat :: Below(d, x, e, k)
  }

  lemma LoosenedRank(d: Doc, f: Doc, rank: map<Id, nat>)
    requires Loosened(d, f) && Ranked(d, rank)
    ensures Ranked(f, rank)
  {
    forall x | IsElement(f, x) ensures x in rank && RankedAt(f, rank, x) {
      assert x in d && IsElement(d, x);
      assert RankedAt(d, rank, x);
    }
  }

  lemma LoosenedTree(d: Doc, f: Doc)
    requires Loosened(d, f) && NoCycle(d)
    ensures NoCycle(f)
  {
    var rank :| Ranked(d, rank);
    LoosenedRank(d, f, rank);
  }

  lemma {:induction false} BelowUp(d: Doc, x: Id, p: Id, e: Id, k: nat)
    requires Below(d, x, e, k) && x in d && d[x].parent == Some(p) && p in d
    ensures Below(d, p, e, k + 1)
    decreases k
  {
    if k == 0 {
      assert Below(d, p, p, 0);
    } else {
      BelowUp(d, x, p, d[e].parent.value, k - 1);
    }
  }

  /** Lifting everything above `e` makes room for the subtree of `t` below it. */
  ghost function Raised(d: Doc, rank: map<Id, nat>, e: Id, t: Id): map<Id, nat>
    requires t in rank
  {
    map x | x in rank :: rank[x] + if Above(d, x, e) then rank[t] + 1 else 0
  }

  lemma RaisedAt(d: Doc, f: Doc, e: Id, t: Id, rank: map<Id, nat>, x: Id)
    requires Sound(d) && Ranked(d, rank) && IsElement(d, e) && IsElement(d, t) && Reparented(d, f, e, t) && !Above(d, t, e)
    requires IsElement(f, x) && t in rank
    ensures x in Raised(d, rank, e, t) && RankedAt(f, Raised(d, rank, e, t), x)
  {
    assert IsElement(d, x) && RankedAt(d, rank, x);
    assert e in rank;
    if x == t {
      assert Below(d, e, e, 0);
      assert Above(d, e, e);
    } else if f[x].parent.Some? {
      var p := d[x].parent.value;
      assert Anchored(d, x);
      if Above(d, x, e) {
        var k: nat :| Below(d, x, e, k);
        BelowUp(d, x, p, e, k);
        assert Above(d, p, e);
      }
    }
  }

  lemma MovedTree(d: Doc, f: Doc, e: Id, t: Id)
    requires Sound(d) && NoCycle(d) && IsElement(d, e) && t in d && Reparented(d, f, e, t)
    requires IsElement(d, t) ==> !Above(d, t, e)
    ensures NoCycle(f)
  {
    var rank :| Ranked(d, rank);
    if IsElement(d, t) {
      forall x | IsElement(f, x) ensures x in Raised(d, rank, e, t) && RankedAt(f, Raised(d, rank, e, t), x) {
        RaisedAt(d, f, e, t, rank, x);
      }
      assert Ranked(f, Raised(d, rank, e, t));
    } else {
      forall x | IsElement(f, x) ensures x in rank && RankedAt(f, rank, x) {
        assert IsElement(d, x) && RankedAt(d, rank, x);
      }
      assert Ranked(f, rank);
    }
  }

  lemma {:induction false} ChainRank(d: Doc, f: Doc, e: Id, t: Id, rank: map<Id, nat>, x: Id, k: nat)
    requires Sound(d) && t in d && Evicted(d, t) == t && Reparented(d, f, e, t) && Ranked(f, rank)
    requires IsElement(d, t) && IsElement(d, x) && Below(d, t, x, k)
    ensures x in rank && t in rank && rank[x] <= rank[t]
    decreases k
  {
    assert RankedAt(f, rank, x) && RankedAt(f, rank, t);
    if k > 0 && x != t {
      var p := d[x].parent.value;
      assert Anchored(d, x);
      ChainRank(d, f, e, t, rank, p, k - 1);
    }
  }

  /** Moving a placed element keeps the document free of cycles exactly if it does not go into its own subtree. */
  lemma MoveKeepsTree(d: Doc, f: Doc, e: Id, t: Id)
    requires Sound(d) && NoCycle(d) && IsElement(d, e) && IsElement(d, t) && Placed(d, t) && Reparented(d, f, e, t)
    ensures NoCycle(f) <==> !Above(d, t, e)
  {
    EvictsItself(d, t);
    if Above(d, t, e) {
      if rank :| Ranked(f, rank) {
        var k: nat :| Below(d, t, e, k);
        ChainRank(d, f, e, t, rank, e, k);
      }
    } else {
      MovedTree(d, f, e, t);
    }
  }

  /** An element added to its own child: the two are each other's parent. */
  method AddToOwnChild() returns (f: Forest)
    ensures fresh(f) && Sound(f.doc) && !NoCycle(f.doc) && !Open(f.doc, 0)
  {
    var d := map[0 := Token(Element("", "a", [], [1]), None, -1), 1 := Token(Element("", "b", [], []), Some(0), 0)];
    f := new Forest(d);
    OwnChild(d);
    f.AddChild(1, 0);
    MoveKeepsTree(d, f.doc, 1, 0);
    OwnParent(d, f.doc);
  }

  lemma OwnChild(d: Doc)
    requires d == map[0 := Token(Element("", "a", [], [1]), None, -1), 1 := Token(Element("", "b", [], []), Some(0), 0)]
    ensures Sound(d) && NoCycle(d) && IsElement(d, 0) && IsElement(d, 1) && Placed(d, 0) && Above(d, 0, 1)
  {
    assert Ranked(d, map[0 := 1, 1 := 0]);
    assert Below(d, 0, 0, 0);
    assert Below(d, 0, 1, 1);
  }

  lemma OwnParent(d: Doc, f: Doc)
    requires d == map[0 := Token(Element("", "a", [], [1]), None, -1), 1 := Token(Element("", "b", [], []), Some(0), 0)]
    requires Reparented(d, f, 1, 0) && Moved(d, f, 1, Evicted(d, 0), Without(Children(d, 1), Evicted(d, 0)) + [0])
    ensures !Open(f, 0)
  {
    assert Evicted(d, 0) == 0;
    assert Without([1], 0) == [1] + Without([], 0);
    assert f[0].kind == MovedKind(d[0].kind, 0, 1, 0, Without(Children(d, 1), 0) + [0]);
    assert f[1].kind == MovedKind(d[1].kind, 1, 1, 0, Without(Children(d, 1), 0) + [0]);
    assert At(f, 0, 0, 0);
    assert At(f, 0, 1, 1);
    assert At(f, 0, 0, 2);
  }

  // ---- cycles and indentation ----

  /** The elements below `x` and `x` itself. */
  ghost function Subtree(d: Doc, x: Id): set<Id> {
    set y | y in d && IsElement(d, y) && Under(d, x, y)
  }

  lemma SmallerSubtree(d: Doc, p: Id, x: Id)
    requires Linked(d) && IsElement(d, p) && x in Children(d, p) && Open(d, x)
    ensures |Subtree(d, x)| < |Subtree(d, p)|
  {
    forall y | y in Subtree(d, x) ensures y in Subtree(d, p) && y != p {
      var k: nat :| At(d, x, y, k);
      AtAdd(d, p, x, y, k);
      AboveChild(d, p, x, k);
    }
    assert At(d, p, p, 0);
    SubsetSize(Subtree(d, x), Subtree(d, p) - {p});
  }

  /** Where every element is where it says it is, there is no cycle exactly if every element can be indented. */
  lemma NoCycleIsOpen(d: Doc)
    requires Linked(d) && ElementsPlaced(d)
    ensures NoCycle(d) <==> forall x :: IsElement(d, x) ==> Open(d, x)
  {
    if rank :| Ranked(d, rank) {
      forall x, k: nat | IsElement(d, x) && k > 0 ensures !At(d, x, x, k) {
        if At(d, x, x, k) {
          AtRank(d, rank, x, x, k);
        }
      }
    }
    if forall x :: IsElement(d, x) ==> Open(d, x) {
      var rank := map x | x in d && IsElement(d, x) :: |Subtree(d, x)|;
      forall x | IsElement(d, x) ensures RankedAt(d, rank, x) {
        assert Placed(d, x);
        if d[x].parent.Some? {
          SmallerSubtree(d, d[x].parent.value, x);
        }
      }
      assert Ranked(d, rank);
    }
  }

  lemma RankBound(rank: map<Id, nat>) returns (m: nat)
    ensures forall x :: x in rank ==> rank[x] <= m
  {
    m := KeysBound(rank, rank.Keys);
  }

  lemma {:induction false} KeysBound(rank: map<Id, nat>, keys: set<Id>) returns (m: nat)
    requires keys <= rank.Keys
    ensures forall x :: x in keys ==> rank[x] <= m
    decreases |keys|
  {
    m := 0;
    if x :| x in keys {
      var n := KeysBound(rank, keys - {x});
      m := if rank[x] > n then rank[x] else n;
    }
  }

  // ---- trees that paths can search ----

  ghost predicate IsTree(d: Doc) {
    exists s :: WellFormed(d, s)
  }

  /** How many ancestors an element has. */
  ghost function Depth(d: Doc, rank: map<Id, nat>, m: nat, x: Id): (k: nat)
    requires ElementsPlaced(d) && Ranked(d, rank) && IsElement(d, x) && forall y :: y in rank ==> rank[y] <= m
    ensures k <= m - rank[x]
    decreases m - rank[x]
  {
    assert Placed(d, x) && RankedAt(d, rank, x);
    if d[x].parent.None? then 0 else Depth(d, rank, m, d[x].parent.value) + 1
  }

  lemma ShapeOf(d: Doc, rank: map<Id, nat>, m: nat, x: Id)
    requires Linked(d) && ElementsPlaced(d) && Ranked(d, rank) && IsElement(d, x) && forall y :: y in rank ==> rank[y] <= m
    ensures Rooted(d, Shape(map y | y in d && IsElement(d, y) :: Depth(d, rank, m, y), m + 1), x)
  {
    assert Placed(d, x);
    if d[x].parent.Some? {
      InSlot(d, d[x].parent.value, x);
    }
  }

  /** Truthful slots, every element where it says it is, no cycles: exactly the trees of elements. */
  lemma TreesAre(d: Doc)
    ensures IsTree(d) <==> Linked(d) && ElementsPlaced(d) && NoCycle(d)
  {
    if s :| WellFormed(d, s) {
      TreeIsPlaced(d, s);
    }
    if Linked(d) && ElementsPlaced(d) && NoCycle(d) {
      var rank :| Ranked(d, rank);
      var m := RankBound(rank);
      var s := Shape(map y | y in d && IsElement(d, y) :: Depth(d, rank, m, y), m + 1);
      forall x | IsElement(d, x) ensures Rooted(d, s, x) {
        ShapeOf(d, rank, m, x);
      }
      assert WellFormed(d, s);
    }
  }

  lemma TreeIsPlaced(d: Doc, s: Shape)
    requires WellFormed(d, s)
    ensures Linked(d) && ElementsPlaced(d) && NoCycle(d)
  {
    var rank := map x | x in s.depth :: if s.depth[x] < s.bound then s.bound - s.depth[x] else 0;
    forall x | IsElement(d, x) ensures Placed(d, x) && x in rank && RankedAt(d, rank, x) {
      assert Rooted(d, s, x);
      if d[x].parent.Some? {
        assert Rooted(d, s, d[x].parent.value);
      }
    }
    assert Ranked(d, rank);
  }

  /** Searching any tree, whatever text has been dropped from it: what the path denotes, without repetitions. */
  method FindElements(d: Doc, e: Id, path: seq<Segment>) returns (found: seq<Id>)
    requires IsTree(d) && IsElement(d, e) && path != []
    ensures exists s :: WellFormed(d, s) && found == Dedup(Denote(d, s, path, e))
  {
    hide WellFormed, Denote, Dedup;
    ghost var s :| WellFormed(d, s);
    var p := new Pather(d, s);
    found := p.Traverse(e, path);
  }

  // ---- what one edit does to a tree ----

  datatype Edit =
    | Add(e: Id, t: Id)
    | Insert(e: Id, ex: Option<Id>, t: Id)
    | InsertAt(e: Id, index: int, t: Id)
    | Remove(e: Id, t: Id)
    | RemoveAt(e: Id, slot: int)
    | Retext(e: Id, text: string, cd: Id)
    | Retail(e: Id, text: string, cd: Id)
    | Reflow(e: Id, ind: int -> string, next: Id)

  /** The tokens a call names exist, and those it may create do not. */
  predicate Callable(d: Doc, c: Edit) {
    match c
    case Add(e, t) => IsElement(d, e) && t in d
    case Insert(e, ex, t) => IsElement(d, e) && t in d && (ex.Some? ==> ex.value in d)
    case InsertAt(e, _, t) => IsElement(d, e) && t in d
    case Remove(e, t) => IsElement(d, e) && t in d
    case RemoveAt(e, _) => IsElement(d, e)
    case Retext(e, _, cd) => IsElement(d, e) && cd !in d
    case Retail(e, _, cd) => IsElement(d, e) && cd !in d
    case Reflow(e, _, next) => IsElement(d, e) && forall x :: x in d ==> x < next
  }

  /** A call that moves no element into its own subtree. */
  ghost predicate Gentle(d: Doc, c: Edit)
    requires Callable(d, c)
  {
    (c.Add? || c.Insert? || c.InsertAt?) && IsElement(d, c.t) ==> !Above(d, c.t, c.e)
  }

  lemma AfterMove(d: Doc, f: Doc, e: Id, t: Id)
    requires Sound(d) && Sound(f) && IsElement(d, e) && t in d && Reparented(d, f, e, t) && KeepsPlaces(d, f)
    ensures IsTree(d) ==> (IsTree(f) <==> (IsElement(d, t) ==> !Above(d, t, e)))
  {
    SoundLinked(d);
    SoundLinked(f);
    hide Sound, AllPlaced, NoCycle, Reparented, IsTree, Above;
    TreesAre(d);
    TreesAre(f);
    if IsTree(d) {
      if IsElement(d, t) {
        assert Placed(d, t);
        hide ElementsPlaced;
        MoveKeepsTree(d, f, e, t);
      } else {
        MovedTree(d, f, e, t);
      }
    }
  }

  lemma AfterOther(d: Doc, f: Doc)
    requires Sound(d) && Sound(f) && Loosened(d, f) && (ElementsPlaced(d) ==> ElementsPlaced(f))
    ensures IsTree(d) ==> IsTree(f)
  {
    SoundLinked(f);
    hide Sound, ElementsPlaced, NoCycle, Loosened, IsTree;
    TreesAre(d);
    TreesAre(f);
    if NoCycle(d) {
      LoosenedTree(d, f);
    }
  }

  lemma IndentedPlaced(d: Doc, f: Doc, e: Id, depth: int, ind: int -> string, x: Id)
    requires Linked(d) && Linked(f) && ElementsPlaced(d) && Steady(d, f)
    requires IndentedBelow(d, f, e, depth, ind) && Elsewhere(d, f, e) && IsElement(f, x)
    ensures Placed(f, x)
  {
    hide Laid, Linked;
    SteadyElements(d, f);
    assert IsElement(d, x) && Placed(d, x) && SameButChild(d[x], f[x]);
    if d[x].parent.Some? {
      var p := d[x].parent.value;
      if Under(d, e, p) {
        var k: nat :| At(d, e, p, k);
        assert Laid(d, f, p, depth + k, ind);
        LaidKeepsChild(d, f, p, x, depth + k, ind);
      } else {
        assert SameList(d, f, p);
      }
    }
  }

  /** Indentation drops only text and adds only text: a tree stays a tree. */
  lemma AfterIndent(d: Doc, f: Doc, e: Id, depth: int, ind: int -> string)
    requires Sound(d) && Sound(f) && Steady(d, f) && IndentedBelow(d, f, e, depth, ind) && Elsewhere(d, f, e)
    ensures IsTree(d) ==> IsTree(f)
  {
    SoundLinked(d);
    SoundLinked(f);
    TreesAre(d);
    TreesAre(f);
    hide Sound, Linked, Steady, IndentedBelow, Elsewhere, IsTree;
    if IsTree(d) {
      forall x | IsElement(f, x) ensures Placed(f, x) {
        IndentedPlaced(d, f, e, depth, ind, x);
      }
      var rank :| Ranked(d, rank);
      SteadyRanked(d, f, rank);
    }
  }

  /** A call that comes back: it does not crash, and indentation does not come back to where it started. */
  ghost predicate Survives(d: Doc, c: Edit)
    requires Callable(d, c)
  {
    match c
    case Insert(e, Some(ex), t) =>
      d[ex].parent == Some(e) ==> 0 <= Position(d, e, ex, t) <= |Without(Children(d, e), Evicted(d, t))|
    case InsertAt(e, index, t) => 0 <= LandsAt(d, e, index, t)
    case RemoveAt(_, i) => i >= 0
    case Retail(e, _, _) => HasTail(d, e)
    case Reflow(e, _, _) => Open(d, e)
    case _ => true
  }

  /** The children of `e` once `t` has been put in front of `ex`, or last without one. */
  function PutBefore(d: Doc, e: Id, ex: Option<Id>, t: Id): seq<Id>
    requires IsElement(d, e) && t in d && (ex.Some? ==> ex.value in d)
  {
    var w := Without(Children(d, e), Evicted(d, t));
    if ex.None? || d[ex.value].parent != Some(e) then w + [t] else PutAt(w, Position(d, e, ex.value, t), t)
  }

  /** What a call makes of the document `d`. */
  ghost predicate Makes(d: Doc, f: Doc, c: Edit)
    requires Callable(d, c)
  {
    match c
    case Add(e, t) => Reparented(d, f, e, t) && Moved(d, f, e, Evicted(d, t), Without(Children(d, e), Evicted(d, t)) + [t])
    case Insert(e, ex, t) => Reparented(d, f, e, t) && Moved(d, f, e, Evicted(d, t), PutBefore(d, e, ex, t))
    case InsertAt(e, index, t) => Reparented(d, f, e, t) && Moved(d, f, e, Evicted(d, t), Lands(d, e, index, t))
    case Remove(e, t) => if d[t].parent == Some(e) then Detached(d, f, t) else f == d
    case RemoveAt(e, i) => if 0 <= i < |Children(d, e)| then RemovedAt(d, f, e, i) else f == d
    case Retext(e, text, cd) => Reworded(d, f, e, 0, text, cd)
    case Retail(e, text, cd) =>
      if d[e].parent.None? then f == d else d[e].index >= 0 && Reworded(d, f, d[e].parent.value, d[e].index + 1, text, cd)
    case Reflow(e, ind, _) => Steady(d, f) && IndentedBelow(d, f, e, 0, ind) && Elsewhere(d, f, e)
  }

  method ApplyMove(f: Forest, c: Edit) returns (ok: bool)
    requires Sound(f.doc) && Callable(f.doc, c) && (c.Add? || c.Insert? || c.InsertAt?)
    modifies f
    ensures ok <==> Survives(old(f.doc), c)
    ensures ok ==> Sound(f.doc) && Makes(old(f.doc), f.doc, c)
    ensures ok && IsTree(old(f.doc)) ==> (IsTree(f.doc) <==> Gentle(old(f.doc), c))
  {
    hide Sound, KeepsPlaces, Reparented, IsTree, Above, Moved, Lands, LandsAt, Position, Evicted, Without, PutAt;
    ok := true;
    if c.Add? {
      f.AddChild(c.e, c.t);
    } else if c.Insert? {
      ok := f.InsertChild(c.e, c.ex, c.t);
    } else {
      ok := f.InsertChildAt(c.e, c.index, c.t);
    }
    if ok {
      AfterMove(old(f.doc), f.doc, c.e, c.t);
    }
  }

  method ApplyOther(f: Forest, c: Edit) returns (ok: bool)
    requires Sound(f.doc) && Callable(f.doc, c) && (c.Remove? || c.RemoveAt? || c.Retext? || c.Retail?)
    modifies f
    ensures ok <==> Survives(old(f.doc), c)
    ensures ok ==> Sound(f.doc) && Makes(old(f.doc), f.doc, c)
    ensures ok && IsTree(old(f.doc)) ==> IsTree(f.doc)
  {
    hide Sound, AllPlaced, ElementsPlaced, Loosened, IsTree, TwoTexts, TailTwoTexts, Detached, RemovedAt, HasTail, Reworded, Text;
    ok := true;
    if c.Remove? {
      var _ := f.RemoveChild(c.e, c.t);
    } else if c.RemoveAt? {
      var _, back := f.RemoveChildAt(c.e, c.slot);
      ok := back;
    } else if c.Retext? {
      f.SetText(c.e, c.text, c.cd);
    } else {
      ok := f.SetTail(c.e, c.text, c.cd);
    }
    if ok {
      AfterOther(old(f.doc), f.doc);
    }
  }

  method ApplyReflow(f: Forest, e: Id, ind: int -> string, next: Id) returns (ok: bool)
    requires Sound(f.doc) && IsElement(f.doc, e) && Beyond(f.doc, next)
    modifies f
    ensures ok <==> Open(old(f.doc), e)
    ensures ok ==> Sound(f.doc) && (IsTree(old(f.doc)) ==> IsTree(f.doc))
    ensures ok ==>
      Steady(old(f.doc), f.doc) && IndentedBelow(old(f.doc), f.doc, e, 0, ind) && Elsewhere(old(f.doc), f.doc, e)
  {
    hide Sound, Beyond, Open, Steady, IndentedBelow, Elsewhere, IsTree;
    var _, ended := Indent(f, e, 0, ind, next);
    ok := ended;
    if ok {
      AfterIndent(old(f.doc), f.doc, e, 0, ind);
    }
  }

  /** One call: when it comes back, what it makes of the document, and when it leaves a tree. */
  method ApplyEdit(f: Forest, c: Edit) returns (ok: bool)
    requires Sound(f.doc) && Callable(f.doc, c)
    modifies f
    ensures ok <==> Survives(old(f.doc), c)
    ensures ok ==> Sound(f.doc) && Makes(old(f.doc), f.doc, c)
    ensures ok && IsTree(old(f.doc)) ==> (IsTree(f.doc) <==> Gentle(old(f.doc), c))
  {
    hide Sound, IsTree, Above, Open, Reparented, Moved, Detached, RemovedAt, Reworded, Steady, IndentedBelow, Elsewhere;
    ok := true;
    if c.Add? || c.Insert? || c.InsertAt? {
      ok := ApplyMove(f, c);
    } else if c.Reflow? {
      ok := ApplyReflow(f, c.e, c.ind, c.next);
    } else {
      ok := ApplyOther(f, c);
    }
  }

  // ---- runs ----

  /** A call of a run: what it makes of the document, and that a tree stays a tree exactly if the call is gentle. */
  ghost predicate Turn(d: Doc, f: Doc, c: Edit) {
    Callable(d, c) && Survives(d, c) && Makes(d, f, c) && (IsTree(d) ==> (IsTree(f) <==> Gentle(d, c)))
  }

  /** The documents of a run, one more than the calls made. */
  ghost predicate IsTrace(trace: seq<Doc>, edits: seq<Edit>, done: nat) {
    && done <= |edits| && |trace| == done + 1
    && forall i :: 0 <= i < done ==> Turn(trace[i], trace[i + 1], edits[i])
  }

  /** Every call of a run moves no element into its own subtree. */
  ghost predicate AllGentle(trace: seq<Doc>, edits: seq<Edit>, done: nat)
    requires IsTrace(trace, edits, done)
  {
    forall i :: 0 <= i < done ==> Turn(trace[i], trace[i + 1], edits[i]) && Gentle(trace[i], edits[i])
  }

  /**
    Any run of edits, indentation among them: it stops only at a call that names no token of the document or does
    not come back. Each call makes of the document what it is for, slots and tokens point at each other after every
    call, and from a tree each call leaves a tree exactly if it moves no element into its own subtree.
  */
  method ApplyEdits(f: Forest, edits: seq<Edit>) returns (done: nat, crashed: bool, ghost trace: seq<Doc>)
    requires Sound(f.doc)
    modifies f
    ensures IsTrace(trace, edits, done) && trace[0] == old(f.doc)
    ensures forall i :: 0 <= i <= done ==> Sound(trace[i])
    ensures !crashed ==> trace[done] == f.doc && (done < |edits| ==> !Callable(f.doc, edits[done]))
    ensures crashed ==> done < |edits| && Callable(trace[done], edits[done]) && !Survives(trace[done], edits[done])
    ensures IsTree(trace[0]) && AllGentle(trace, edits, done) ==> forall i :: 0 <= i <= done ==> IsTree(trace[i])
  {
    hide Callable, Gentle, Sound, IsTree, Survives, Makes;
    done, crashed, trace := 0, false, [f.doc];
    while done < |edits| && Callable(f.doc, edits[done])
      invariant IsTrace(trace, edits, done) && trace[0] == old(f.doc) && trace[done] == f.doc
      invariant forall i :: 0 <= i <= done ==> Sound(trace[i])
      decreases |edits| - done
    {
      ghost var before := trace;
      var ok := ApplyEdit(f, edits[done]);
      if !ok {
        crashed := true;
        TreesStay(trace, edits, done);
        return;
      }
      trace := trace + [f.doc];
      TraceMore(before, trace, edits, done);
      done := done + 1;
    }
    TreesStay(trace, edits, done);
  }

  lemma TraceMore(before: seq<Doc>, trace: seq<Doc>, edits: seq<Edit>, done: nat)
    requires IsTrace(before, edits, done) && done < |edits| && |trace| == done + 2 && trace[..done + 1] == before
    requires Turn(before[done], trace[done + 1], edits[done])
    ensures IsTrace(trace, edits, done + 1)
  {
    hide Turn;
    assert forall i :: 0 <= i <= done ==> trace[i] == before[i];
  }

  lemma {:induction false} TreesStay(trace: seq<Doc>, edits: seq<Edit>, done: nat)
    requires IsTrace(trace, edits, done)
    ensures IsTree(trace[0]) && AllGentle(trace, edits, done) ==> forall i :: 0 <= i <= done ==> IsTree(trace[i])
    decreases done
  {
    hide Callable, Gentle, IsTree, Survives, Makes;
    if done > 0 {
      var less := trace[..done];
      assert forall i :: 0 <= i < done ==> less[i] == trace[i];
      TreesStay(less, edits, done - 1);
      if IsTree(trace[0]) && AllGentle(trace, edits, done) {
        assert AllGentle(less, edits, done - 1);
        assert IsTree(less[done - 1]);
        assert Turn(trace[done - 1], trace[done - 1 + 1], edits[done - 1]);
      }
    }
  }
}
