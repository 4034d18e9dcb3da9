/** `goxml/path.go`: path evaluation by a queue of (element, remaining segments) equals the path's denotation. */
module XmlPath {
  import opened Basics
  import opened XmlTree
  import opened XmlQueue

  datatype Selector = Self | Root | Parent | AllChildren | Descendants | ByTag(space: string, tag: string)

  datatype Filter =
    | Pos(pos: int)
    | HasAttr(space: string, key: string)
    | AttrIs(space: string, key: string, val: string)
    | Func(fn: Id -> string)
    | FuncIs(fn: Id -> string, val: string)
    | HasChild(space: string, tag: string)
    | ChildTextIs(space: string, tag: string, text: string)

  datatype Segment = Segment(sel: Selector, filters: seq<Filter>)

  /** An empty prefix matches every namespace. */
  predicate SpaceMatch(a: string, b: string) {
    a == "" || a == b
  }

  // ---- the denotation ----

  function Text(d: Doc, toks: seq<Id>): string {
    if toks == [] || toks[0] !in d || !d[toks[0]].kind.CharData? then ""
    else d[toks[0]].kind.data + Text(d, toks[1..])
  }

  predicate TagIs(d: Doc, x: Id, space: string, tag: string) {
    IsElement(d, x) && SpaceMatch(space, d[x].kind.space) && tag == d[x].kind.tag
  }

  function Tagged(d: Doc, toks: seq<Id>, space: string, tag: string): seq<Id> {
    if toks == [] then []
    else Tagged(d, toks[..|toks| - 1], space, tag)
         + if TagIs(d, toks[|toks| - 1], space, tag) then [toks[|toks| - 1]] else []
  }

  ghost function RootOf(d: Doc, s: Shape, e: Id): (r: Id)
    requires WellFormed(d, s) && IsElement(d, e)
    ensures IsElement(d, r)
    decreases s.depth[(assert Rooted(d, s, e); e)]
  {
    assert Rooted(d, s, e);
    if d[e].parent.None? then e else RootOf(d, s, d[e].parent.value)
  }

  /** What a selector picks from one element, in order. */
  ghost function Select(d: Doc, s: Shape, sel: Selector, e: Id): seq<Id>
    requires WellFormed(d, s) && IsElement(d, e)
  {
    match sel
    case Self => [e]
    case Root => [RootOf(d, s, e)]
    case Parent => if d[e].parent.Some? then [d[e].parent.value] else []
    case AllChildren => Kids(d, e)
    case Descendants => Levels(d, e, s.bound)
    case ByTag(space, tag) => Tagged(d, Children(d, e), space, tag)
  }

  predicate AttrMatches(a: Attr, f: Filter) {
    match f
    case HasAttr(space, key) => SpaceMatch(space, a.space) && key == a.key
    case AttrIs(space, key, val) => SpaceMatch(space, a.space) && key == a.key && val == a.value
    case _ => false
  }

  predicate ChildMatches(d: Doc, x: Id, f: Filter) {
    match f
    case HasChild(space, tag) => TagIs(d, x, space, tag)
    case ChildTextIs(space, tag, text) => TagIs(d, x, space, tag) && text == Text(d, d[x].kind.child)
    case _ => false
  }

  function CountChildren(d: Doc, toks: seq<Id>, f: Filter): nat {
    if toks == [] then 0
    else CountChildren(d, toks[..|toks| - 1], f) + if ChildMatches(d, toks[|toks| - 1], f) then 1 else 0
  }

  /** How often a filter other than a position keeps a candidate: a child filter keeps it once per matching child. */
  function Copies(d: Doc, f: Filter, c: Id): nat
    requires IsElement(d, c)
  {
    match f
    case HasAttr(_, _) => if exists a :: a in d[c].kind.attrs && AttrMatches(a, f) then 1 else 0
    case AttrIs(_, _, _) => if exists a :: a in d[c].kind.attrs && AttrMatches(a, f) then 1 else 0
    case Func(fn) => if fn(c) != "" then 1 else 0
    case FuncIs(fn, val) => if fn(c) == val then 1 else 0
    case HasChild(_, _) => CountChildren(d, Children(d, c), f)
    case ChildTextIs(_, _, _) => CountChildren(d, Children(d, c), f)
    case Pos(_) => 0
  }

  function Repeat(x: Id, n: nat): seq<Id> {
    seq(n, _ => x)
  }

  function Keep(d: Doc, f: Filter, cs: seq<Id>): seq<Id>
    requires AllElements(d, cs)
  {
    if cs == [] then [] else Keep(d, f, cs[..|cs| - 1]) + Repeat(cs[|cs| - 1], Copies(d, f, cs[|cs| - 1]))
  }

  /** A filter applied to the candidate list; a negative position counts from the end. */
  function Narrow(d: Doc, f: Filter, cs: seq<Id>): seq<Id>
    requires AllElements(d, cs)
  {
    match f
    case Pos(p) =>
      if 0 <= p < |cs| then [cs[p]] else if p < 0 && -p <= |cs| then [cs[|cs| + p]] else []
    case _ => Keep(d, f, cs)
  }

  lemma {:induction false} KeepElements(d: Doc, f: Filter, cs: seq<Id>)
    requires AllElements(d, cs)
    ensures AllElements(d, Keep(d, f, cs))
    decreases |cs|
  {
    if cs != [] {
      KeepElements(d, f, cs[..|cs| - 1]);
    }
  }

  /** The candidates a filter is satisfied by, each once: what the documentation of the filters promises. */
  function Chosen(d: Doc, f: Filter, cs: seq<Id>): seq<Id>
    requires AllElements(d, cs)
  {
    if cs == [] then []
    else Chosen(d, f, cs[..|cs| - 1]) + if Copies(d, f, cs[|cs| - 1]) > 0 then [cs[|cs| - 1]] else []
  }

  /** The list a filter leaves is the satisfying candidates exactly when none of them satisfies it twice. */
  lemma {:induction false} KeepIsChosen(d: Doc, f: Filter, cs: seq<Id>)
    requires AllElements(d, cs)
    ensures |Chosen(d, f, cs)| <= |Keep(d, f, cs)|
    ensures |Chosen(d, f, cs)| == |Keep(d, f, cs)| ==> Chosen(d, f, cs) == Keep(d, f, cs)
    ensures Keep(d, f, cs) == Chosen(d, f, cs) <==> forall i :: 0 <= i < |cs| ==> Copies(d, f, cs[i]) <= 1
    decreases |cs|
  {
    hide Copies;
    if cs != [] {
      var init := cs[..|cs| - 1];
      KeepIsChosen(d, f, init);
      assert forall i :: 0 <= i < |init| ==> init[i] == cs[i];
    }
  }

  /** `a[t][2]` finds the only `a` when that `a` has two `t` children. */
  lemma ChildFilterRepeats(d: Doc)
    requires d == map[0 := Token(Element("", "", [], [1]), None, -1),
                      1 := Token(Element("", "a", [], [2, 3]), Some(0), 0),
                      2 := Token(Element("", "t", [], []), Some(1), 0),
                      3 := Token(Element("", "t", [], []), Some(1), 1)]
    ensures AllElements(d, [1]) && NarrowAll(d, [HasChild("", "t"), Pos(1)], [1]) == [1]
    ensures Chosen(d, HasChild("", "t"), [1]) == [1]
  {
    var f := HasChild("", "t");
    assert [2, 3][..1] == [2] && [2][..0] == [] && [1][..0] == [];
    assert CountChildren(d, [2], f) == 1;
    assert CountChildren(d, [2, 3], f) == 2;
    assert Keep(d, f, [1]) == Keep(d, f, []) + Repeat(1, 2);
    assert Keep(d, f, [1]) == [1, 1];
    assert [f, Pos(1)][1..] == [Pos(1)] && [Pos(1)][1..] == [];
    assert NarrowAll(d, [Pos(1)], [1, 1]) == NarrowAll(d, [], [1]);
  }

  function NarrowAll(d: Doc, fs: seq<Filter>, cs: seq<Id>): seq<Id>
    requires AllElements(d, cs)
  {
    if fs == [] then cs
    else
      var r := Narrow(d, fs[0], cs);
      assert AllElements(d, r) by { KeepElements(d, fs[0], cs); }
      NarrowAll(d, fs[1..], r)
  }

  lemma {:induction false} NarrowAllElements(d: Doc, fs: seq<Filter>, cs: seq<Id>)
    requires AllElements(d, cs)
    ensures AllElements(d, NarrowAll(d, fs, cs))
    decreases |fs|
  {
    if fs != [] {
      KeepElements(d, fs[0], cs);
      NarrowAllElements(d, fs[1..], Narrow(d, fs[0], cs));
    }
  }

  lemma {:induction false} TaggedElements(d: Doc, toks: seq<Id>, space: string, tag: string)
    ensures AllElements(d, Tagged(d, toks, space, tag))
    decreases |toks|
  {
    if toks != [] {
      TaggedElements(d, toks[..|toks| - 1], space, tag);
    }
  }

  lemma {:induction false} LevelsElements(d: Doc, e: Id, n: nat)
    requires IsElement(d, e)
    ensures AllElements(d, Levels(d, e, n))
    decreases n
  {
    if n > 0 {
      LevelsElements(d, e, n - 1);
    }
  }

  lemma SelectElements(d: Doc, s: Shape, sel: Selector, e: Id)
    requires WellFormed(d, s) && IsElement(d, e)
    ensures AllElements(d, Select(d, s, sel, e))
  {
    assert Rooted(d, s, e);
    match sel
    case AllChildren => KidsElements(d, e);
    case Descendants => LevelsElements(d, e, s.bound);
    case ByTag(space, tag) => TaggedElements(d, Children(d, e), space, tag);
    case _ =>
  }

  /** One segment applied to one element: the selector, then the filters in order. */
  ghost function Apply(d: Doc, s: Shape, g: Segment, e: Id): (r: seq<Id>)
    requires WellFormed(d, s) && IsElement(d, e)
    ensures AllElements(d, r)
  {
    SelectElements(d, s, g.sel, e);
    NarrowAllElements(d, g.filters, Select(d, s, g.sel, e));
    NarrowAll(d, g.filters, Select(d, s, g.sel, e))
  }

  /** What a path denotes from one element, duplicates included: each segment flat-mapped over the rest. */
  ghost function Denote(d: Doc, s: Shape, path: seq<Segment>, e: Id): seq<Id>
    requires WellFormed(d, s) && IsElement(d, e)
    decreases |path|, 0, 0
  {
    if path == [] then [e] else DenoteAll(d, s, path[1..], Apply(d, s, path[0], e))
  }

  ghost function DenoteAll(d: Doc, s: Shape, path: seq<Segment>, xs: seq<Id>): seq<Id>
    requires WellFormed(d, s) && AllElements(d, xs)
    decreases |path|, 1, |xs|
  {
    if xs == [] then [] else DenoteAll(d, s, path, xs[..|xs| - 1]) + Denote(d, s, path, xs[|xs| - 1])
  }

  /** The first occurrences, in order. */
  function Dedup(xs: seq<Id>): seq<Id> {
    if xs == [] then []
    else
      var r := Dedup(xs[..|xs| - 1]);
      if xs[|xs| - 1] in r then r else r + [xs[|xs| - 1]]
  }

  lemma {:induction false} DedupIs(xs: seq<Id>, x: Id)
    ensures Distinct(Dedup(xs)) && (x in Dedup(xs) <==> x in xs)
    decreases |xs|
  {
    if xs != [] {
      var n := |xs| - 1;
      DedupIs(xs[..n], x);
      assert xs == xs[..n] + [xs[n]];
      if xs[n] !in Dedup(xs[..n]) {
        DistinctConcat(Dedup(xs[..n]), [xs[n]]);
      }
    }
  }

  lemma {:induction false} DenoteAllConcat(d: Doc, s: Shape, path: seq<Segment>, a: seq<Id>, b: seq<Id>)
    requires WellFormed(d, s) && AllElements(d, a) && AllElements(d, b)
    ensures DenoteAll(d, s, path, a + b) == DenoteAll(d, s, path, a) + DenoteAll(d, s, path, b)
    decreases |b|
  {
    hide WellFormed, Denote;
    if b == [] {
      assert a + b == a;
    } else {
      var n := |b| - 1;
      assert (a + b)[..|a + b| - 1] == a + b[..n];
      DenoteAllConcat(d, s, path, a, b[..n]);
    }
  }

  lemma DenoteAllOne(d: Doc, s: Shape, path: seq<Segment>, x: Id)
    requires WellFormed(d, s) && IsElement(d, x)
    ensures DenoteAll(d, s, path, [x]) == Denote(d, s, path, x)
  {
    assert [x][..0] == [];
  }

  lemma {:induction false} DenoteAllDone(d: Doc, s: Shape, xs: seq<Id>)
    requires WellFormed(d, s) && AllElements(d, xs)
    ensures DenoteAll(d, s, [], xs) == xs
    decreases |xs|
  {
    if xs != [] {
      DenoteAllDone(d, s, xs[..|xs| - 1]);
      assert xs == xs[..|xs| - 1] + [xs[|xs| - 1]];
    }
  }

  // ---- facts about levels the breadth-first loop uses ----

  lemma LevelNext(d: Doc, e: Id, k: nat)
    requires IsElement(d, e)
    ensures Level(d, e, k + 1) == AllKids(d, Level(d, e, k)) && Levels(d, e, k + 1) == Levels(d, e, k) + Level(d, e, k)
  {
  }

  lemma {:induction false} LevelsUpTo(d: Doc, e: Id, k: nat, n: nat)
    requires IsElement(d, e) && k <= n
    ensures |Levels(d, e, k)| <= |Levels(d, e, n)|
    ensures Level(d, e, k) == [] ==> Levels(d, e, n) == Levels(d, e, k) && Level(d, e, n) == []
    decreases n
  {
    if k < n {
      LevelsUpTo(d, e, k, n - 1);
      LevelNext(d, e, n - 1);
    }
  }

  /** Where the loop stands: `i` elements of level `k` are done, the rest of it and their children wait. */
  ghost predicate Frontier(d: Doc, e: Id, k: nat, i: nat, found: seq<Id>, waiting: seq<Id>)
    requires IsElement(d, e)
  {
    && Level(d, e, k) != [] && i <= |Level(d, e, k)|
    && found == Levels(d, e, k) + Level(d, e, k)[..i]
    && waiting == Level(d, e, k)[i..] + AllKids(d, Level(d, e, k)[..i])
  }

  lemma FrontierStart(d: Doc, e: Id)
    requires IsElement(d, e)
    ensures Frontier(d, e, 0, 0, [], [e])
  {
    assert [e][..0] == [] && [e][0..] == [e];
  }

  /** A finished level gives way to the next one. */
  lemma FrontierDown(d: Doc, e: Id, k: nat, found: seq<Id>, waiting: seq<Id>)
    requires IsElement(d, e) && Frontier(d, e, k, |Level(d, e, k)|, found, waiting) && waiting != []
    ensures Frontier(d, e, k + 1, 0, found, waiting)
  {
    LevelNext(d, e, k);
    var l := Level(d, e, k);
    assert l[..|l|] == l && l[|l|..] == [];
    assert waiting == Level(d, e, k + 1);
    assert Level(d, e, k + 1)[..0] == [] && Level(d, e, k + 1)[0..] == Level(d, e, k + 1);
    assert AllKids(d, []) == [];
  }

  lemma FrontierOne(d: Doc, e: Id, k: nat, i: nat, found: seq<Id>, waiting: seq<Id>)
    requires IsElement(d, e) && Frontier(d, e, k, i, found, waiting) && i < |Level(d, e, k)|
    ensures waiting != [] && IsElement(d, waiting[0])
    ensures Frontier(d, e, k, i + 1, found + [waiting[0]], waiting[1..] + Kids(d, waiting[0]))
  {
    hide Level, Levels, Kids, AllKids;
    var l := Level(d, e, k);
    AllKidsNext(d, l, i);
    assert found + [waiting[0]] == Levels(d, e, k) + l[..i + 1];
    assert waiting[1..] + Kids(d, waiting[0]) == l[i + 1..] + (AllKids(d, l[..i]) + Kids(d, l[i]));
  }

  lemma AllKidsNext(d: Doc, l: seq<Id>, i: nat)
    requires AllElements(d, l) && i < |l|
    ensures AllKids(d, l[..i + 1]) == AllKids(d, l[..i]) + Kids(d, l[i])
  {
    assert l[..i + 1][..i] == l[..i];
  }

  lemma FrontierBound(d: Doc, s: Shape, e: Id, k: nat, i: nat, found: seq<Id>, waiting: seq<Id>)
    requires WellFormed(d, s) && IsElement(d, e) && Frontier(d, e, k, i, found, waiting)
    ensures i < |Level(d, e, k)| ==> |found| < |Levels(d, e, s.bound)|
    ensures waiting == [] ==> found == Levels(d, e, s.bound)
  {
    hide WellFormed, Level;
    if k >= s.bound {
      NoLevel(d, s, e, k);
    }
    LevelNext(d, e, k);
    LevelsUpTo(d, e, k + 1, s.bound);
    if waiting == [] {
      var l := Level(d, e, k);
      assert l[..i] == l;
    }
  }

  // ---- the evaluator ----

  /** An element with the path segments still to be applied to it. */
  datatype Task = Task(e: Id, rest: seq<Segment>)

  class Pather {
    const d: Doc
    ghost const s: Shape
    var queue: Fifo<Task>
    var results: seq<Id>
    var inResults: set<Id>
    var candidates: seq<Id>
    var scratch: seq<Id>
    ghost var seen: seq<Id>                     // every match so far, duplicates included

    /** The results are the first occurrences of the matches, and the set agrees with the list. */
    ghost predicate Ready()
      reads this, queue, queue.data
    {
      queue.Valid() && scratch == [] && results == Dedup(seen) && forall x :: x in inResults <==> x in results
    }

    constructor (d: Doc, ghost s: Shape)
      requires WellFormed(d, s)
      ensures this.d == d && this.s == s && Ready() && seen == [] && queue.queue == []
      ensures fresh(queue) && fresh(queue.data)
    {
      this.d, this.s := d, s;
      queue := new Fifo<Task>();
      results, inResults, candidates, scratch, seen := [], {}, [], [], [];
    }

    method EnqueueKids(q: Fifo<Id>, e: Id)
      requires q.Valid() && IsElement(d, e)
      modifies q, q.data
      ensures q.Valid() && q.queue == old(q.queue) + Kids(d, e) && (q.data == old(q.data) || fresh(q.data))
    {
      var child := Children(d, e);
      assert old(q.queue) + [] == old(q.queue) && child[..0] == [];
      for j := 0 to |child|
        invariant q.Valid() && (q.data == old(q.data) || fresh(q.data))
        invariant q.queue == old(q.queue) + Elements(d, child[..j])
      {
        assert child[..j + 1][..j] == child[..j];
        var c := child[j];
        if IsElement(d, c) {
          q.Add(c);
        }
      }
      assert child[..|child|] == child;
    }

    /** `selectDescendants`: every descendant once, level by level, from a queue of its own. */
    method SelectDescendants(e: Id)
      requires WellFormed(d, s) && IsElement(d, e)
      modifies `candidates
      ensures candidates == old(candidates) + Levels(d, e, s.bound)
    {
      hide WellFormed, Scanning, Levels, Kids;
      var q := new Fifo<Id>();
      q.Add(e);
      ghost var found := [];
      ScanStart(d, e);
      var n := q.Len();
      while n > 0
        invariant q.Valid() && fresh(q) && fresh(q.data) && n == |q.queue|
        invariant candidates == old(candidates) + found && Scanning(d, e, found, q.queue)
        decreases |Levels(d, e, s.bound)| - |found|
      {
        ScanStep(d, s, e, found, q.queue);
        ghost var waiting := q.queue;
        var x := q.Remove();
        assert waiting[0] == x && waiting[1..] == q.queue;
        candidates := candidates + [x];
        EnqueueKids(q, x);
        found := found + [x];
        n := q.Len();
      }
      ScanEnd(d, s, e, found);
    }

    method SelectRoot(e: Id)
      requires WellFormed(d, s) && IsElement(d, e)
      modifies `candidates
      ensures candidates == old(candidates) + [RootOf(d, s, e)]
    {
      var root := e;
      assert Rooted(d, s, e);
      while d[root].parent.Some?
        invariant IsElement(d, root) && Rooted(d, s, root) && RootOf(d, s, root) == RootOf(d, s, e)
        decreases s.depth[root]
      {
        root := d[root].parent.value;
        assert Rooted(d, s, root);
      }
      candidates := candidates + [root];
    }

    method SelectChildren(e: Id)
      requires IsElement(d, e)
      modifies `candidates
      ensures candidates == old(candidates) + Kids(d, e)
    {
      var child := Children(d, e);
      for j := 0 to |child|
        invariant candidates == old(candidates) + Elements(d, child[..j])
      {
        assert child[..j + 1][..j] == child[..j];
        if IsElement(d, child[j]) {
          candidates := candidates + [child[j]];
        }
      }
      assert child[..|child|] == child;
    }

    method SelectByTag(e: Id, space: string, tag: string)
      requires IsElement(d, e)
      modifies `candidates
      ensures candidates == old(candidates) + Tagged(d, Children(d, e), space, tag)
    {
      var child := Children(d, e);
      for j := 0 to |child|
        invariant candidates == old(candidates) + Tagged(d, child[..j], space, tag)
      {
        assert child[..j + 1][..j] == child[..j];
        if TagIs(d, child[j], space, tag) {
          candidates := candidates + [child[j]];
        }
      }
      assert child[..|child|] == child;
    }

    method SelectBy(sel: Selector, e: Id)
      requires WellFormed(d, s) && IsElement(d, e) && candidates == []
      modifies `candidates
      ensures candidates == Select(d, s, sel, e)
    {
      hide WellFormed, RootOf, Levels, Tagged, Kids;
      match sel {
        case Self => candidates := candidates + [e];
        case Root => SelectRoot(e);
        case Parent =>
          if d[e].parent.Some? {
            candidates := candidates + [d[e].parent.value];
          }
        case AllChildren => SelectChildren(e);
        case Descendants => SelectDescendants(e);
        case ByTag(space, tag) => SelectByTag(e, space, tag);
      }
    }

    /** The inner loops of the filters: how often they append one candidate to the scratch list. */
    method KeepOne(f: Filter, c: Id)
      requires !f.Pos? && IsElement(d, c)
      modifies `scratch
      ensures scratch == old(scratch) + Repeat(c, Copies(d, f, c))
    {
      if f.HasAttr? || f.AttrIs? {
        var attrs := d[c].kind.attrs;
        for j := 0 to |attrs|
          invariant scratch == old(scratch) && forall k :: 0 <= k < j ==> !AttrMatches(attrs[k], f)
        {
          if AttrMatches(attrs[j], f) {
            scratch := scratch + [c];
            break;
          }
        }
      } else if f.HasChild? || f.ChildTextIs? {
        var child := Children(d, c);
        for j := 0 to |child|
          invariant scratch == old(scratch) + Repeat(c, CountChildren(d, child[..j], f))
        {
          assert child[..j + 1][..j] == child[..j];
          if ChildMatches(d, child[j], f) {
            scratch := scratch + [c];
          }
        }
        assert child[..|child|] == child;
      } else if (if f.Func? then f.fn(c) != "" else f.fn(c) == f.val) {
        scratch := scratch + [c];
      }
    }

    method FilterBy(f: Filter)
      requires scratch == [] && AllElements(d, candidates)
      modifies `candidates, `scratch
      ensures scratch == [] && candidates == Narrow(d, f, old(candidates)) && AllElements(d, candidates)
    {
      if f.Pos? {
        if f.pos >= 0 {
          if f.pos < |candidates| {
            scratch := scratch + [candidates[f.pos]];
          }
        } else if -f.pos <= |candidates| {
          scratch := scratch + [candidates[|candidates| + f.pos]];
        }
      } else {
        for i := 0 to |candidates|
          invariant candidates == old(candidates) && scratch == Keep(d, f, candidates[..i])
        {
          assert candidates[..i + 1][..i] == candidates[..i];
          KeepOne(f, candidates[i]);
        }
        assert candidates[..|candidates|] == candidates;
        KeepElements(d, f, candidates);
      }
      candidates, scratch := scratch, [];
    }

    method ApplySegment(g: Segment, e: Id)
      requires WellFormed(d, s) && IsElement(d, e) && candidates == [] && scratch == []
      modifies `candidates, `scratch
      ensures scratch == [] && candidates == Apply(d, s, g, e) && AllElements(d, candidates)
    {
      hide WellFormed, Select, Narrow, AllElements;
      SelectBy(g.sel, e);
      SelectElements(d, s, g.sel, e);
      ghost var picked := candidates;
      var fs := g.filters;
      assert fs[0..] == fs;
      for i := 0 to |fs|
        invariant scratch == [] && AllElements(d, candidates) && AllElements(d, picked)
        invariant NarrowAll(d, fs[i..], candidates) == NarrowAll(d, fs, picked)
      {
        assert fs[i..][0] == fs[i] && fs[i..][1..] == fs[i + 1..];
        FilterBy(fs[i]);
      }
    }

    method Collect()
      requires Ready()
      modifies `results, `inResults, `seen
      ensures Ready() && seen == old(seen) + candidates
    {
      assert candidates[..0] == [];
      for i := 0 to |candidates|
        invariant Ready() && seen == old(seen) + candidates[..i]
      {
        var c := candidates[i];
        if c !in inResults {
          inResults := inResults + {c};
          results := results + [c];
        }
        assert (seen + [c])[..|seen|] == seen;
        seen := seen + [c];
      }
      assert candidates[..|candidates|] == candidates;
    }

    method Enqueue(rest: seq<Segment>)
      requires Ready()
      modifies queue, queue.data
      ensures Ready() && queue.queue == old(queue.queue) + Tasks(candidates, rest)
      ensures queue.data == old(queue.data) || fresh(queue.data)
    {
      assert candidates[..0] == [];
      for i := 0 to |candidates|
        invariant Ready() && queue.queue == old(queue.queue) + Tasks(candidates[..i], rest)
        invariant queue.data == old(queue.data) || fresh(queue.data)
      {
        queue.Add(Task(candidates[i], rest));
        assert Tasks(candidates[..i + 1], rest) == Tasks(candidates[..i], rest) + [Task(candidates[i], rest)];
      }
      assert candidates[..|candidates|] == candidates;
    }

    method Eval(t: Task)
      requires Ready() && WellFormed(d, s) && IsElement(d, t.e) && t.rest != []
      modifies this, queue, queue.data
      ensures Ready() && queue == old(queue) && (queue.data == old(queue.data) || fresh(queue.data))
      ensures |t.rest| == 1 ==> queue.queue == old(queue.queue) && seen == old(seen) + Apply(d, s, t.rest[0], t.e)
      ensures |t.rest| > 1 ==>
        seen == old(seen) && queue.queue == old(queue.queue) + Tasks(Apply(d, s, t.rest[0], t.e), t.rest[1..])
    {
      hide WellFormed, Apply, Tasks, Dedup;
      candidates := [];
      var remain := t.rest[1..];
      ApplySegment(t.rest[0], t.e);
      if |remain| == 0 {
        Collect();
      } else {
        Enqueue(remain);
      }
    }

    /** `traverse`: the queue yields exactly what the path denotes, in that order, without repetitions. */
    method Traverse(e: Id, path: seq<Segment>) returns (found: seq<Id>)
      requires Ready() && seen == [] && queue.queue == []
      requires WellFormed(d, s) && IsElement(d, e) && path != []
      modifies this, queue, queue.data
      ensures found == Dedup(Denote(d, s, path, e))
    {
      hide WellFormed, Pending, Apply, Tasks, Denote, Dedup;
      queue.Add(Task(e, path));
      ghost var k, a, b := 0, [e], [];
      PendingStart(d, s, path, e);
      var n := queue.Len();
      while n > 0
        invariant Ready() && n == |queue.queue|
        invariant queue == old(queue) && (queue.data == old(queue.data) || fresh(queue.data))
        invariant Pending(d, s, path, e, k, a, b, seen, queue.queue)
        decreases |path| - k, |a|
      {
        if a == [] {
          PendingDown(d, s, path, e, k, b, seen, queue.queue);
          k, a, b := k + 1, b, [];
        }
        PendingHead(d, s, path, e, k, a, b, seen, queue.queue);
        ghost var waiting, out := queue.queue, Apply(d, s, path[k], a[0]);
        if k + 1 == |path| {
          PendingLast(d, s, path, e, k, a, b, seen, waiting, out);
        } else {
          PendingMore(d, s, path, e, k, a, b, seen, waiting, out);
          b := b + out;
        }
        var t := queue.Remove();
        assert waiting[0] == t && waiting[1..] == queue.queue;
        Eval(t);
        a := a[1..];
        n := queue.Len();
      }
      PendingEnd(d, s, path, e, k, a, b, seen);
      found := results;
    }
  }

  function Tasks(xs: seq<Id>, rest: seq<Segment>): seq<Task> {
    seq(|xs|, i requires 0 <= i < |xs| => Task(xs[i], rest))
  }

  /** Where the traversal stands: `a` waits for segment `k`, `b` for the next one, and `seen` is already matched. */
  ghost predicate Pending(d: Doc, s: Shape, path: seq<Segment>, e: Id, k: nat, a: seq<Id>, b: seq<Id>,
                          seen: seq<Id>, waiting: seq<Task>)
    requires WellFormed(d, s) && IsElement(d, e)
  {
    && k < |path| && AllElements(d, a) && AllElements(d, b)
    && (k + 1 == |path| ==> b == [])
    && waiting == Tasks(a, path[k..]) + Tasks(b, path[k + 1..])
    && Denote(d, s, path, e) == seen + DenoteAll(d, s, path[k + 1..], b) + DenoteAll(d, s, path[k..], a)
  }

  lemma PendingStart(d: Doc, s: Shape, path: seq<Segment>, e: Id)
    requires WellFormed(d, s) && IsElement(d, e) && path != []
    ensures Pending(d, s, path, e, 0, [e], [], [], [] + [Task(e, path)])
  {
    DenoteAllOne(d, s, path, e);
    hide WellFormed, Denote;
    assert path[0..] == path;
    assert Tasks([e], path) + Tasks([], path[1..]) == [] + [Task(e, path)];
  }

  /** When segment `k` has been applied everywhere, what waits for the next one moves up. */
  lemma PendingDown(d: Doc, s: Shape, path: seq<Segment>, e: Id, k: nat, b: seq<Id>, seen: seq<Id>, waiting: seq<Task>)
    requires WellFormed(d, s) && IsElement(d, e) && Pending(d, s, path, e, k, [], b, seen, waiting) && waiting != []
    ensures b != [] && Pending(d, s, path, e, k + 1, b, [], seen, waiting)
  {
    hide WellFormed, Denote;
    assert b != [];
    assert Tasks(b, path[k + 1..]) + Tasks([], path[k + 2..]) == Tasks([], path[k..]) + Tasks(b, path[k + 1..]);
    assert DenoteAll(d, s, path[k + 2..], []) == [] && DenoteAll(d, s, path[k..], []) == [];
  }

  lemma PendingHead(d: Doc, s: Shape, path: seq<Segment>, e: Id, k: nat, a: seq<Id>, b: seq<Id>,
                    seen: seq<Id>, waiting: seq<Task>)
    requires WellFormed(d, s) && IsElement(d, e) && Pending(d, s, path, e, k, a, b, seen, waiting) && a != []
    ensures k < |path| && waiting != [] && IsElement(d, a[0]) && waiting[0] == Task(a[0], path[k..])
    ensures path[k..][0] == path[k] && path[k..][1..] == path[k + 1..]
  {
    hide WellFormed, Denote, DenoteAll;
    TasksHead(a, path[k..], Tasks(b, path[k + 1..]));
  }

  lemma PendingLast(d: Doc, s: Shape, path: seq<Segment>, e: Id, k: nat, a: seq<Id>, b: seq<Id>,
                    seen: seq<Id>, waiting: seq<Task>, out: seq<Id>)
    requires WellFormed(d, s) && IsElement(d, e) && Pending(d, s, path, e, k, a, b, seen, waiting)
    requires k + 1 == |path| && a != [] && IsElement(d, a[0]) && out == Apply(d, s, path[k], a[0])
    ensures waiting != [] && Pending(d, s, path, e, k, a[1..], b, seen + out, waiting[1..])
  {
    hide WellFormed, Denote, Apply, DenoteAll;
    TasksHead(a, path[k..], Tasks(b, path[k + 1..]));
    DenoteHead(d, s, path, k, a);
    assert path[k + 1..] == [] && b == [];
    DenoteAllDone(d, s, out);
    DenoteAllDone(d, s, b);
    hide Tasks;
    var tail := DenoteAll(d, s, path[k..], a[1..]);
    assert seen + [] + (out + tail) == seen + out + [] + tail;
  }

  lemma PendingMore(d: Doc, s: Shape, path: seq<Segment>, e: Id, k: nat, a: seq<Id>, b: seq<Id>,
                    seen: seq<Id>, waiting: seq<Task>, out: seq<Id>)
    requires WellFormed(d, s) && IsElement(d, e) && Pending(d, s, path, e, k, a, b, seen, waiting)
    requires k + 1 < |path| && a != [] && IsElement(d, a[0]) && out == Apply(d, s, path[k], a[0])
    ensures waiting != []
    ensures Pending(d, s, path, e, k, a[1..], b + out, seen, waiting[1..] + Tasks(out, path[k + 1..]))
  {
    hide WellFormed, Denote, Apply, DenoteAll;
    var rest := path[k + 1..];
    TasksHead(a, path[k..], Tasks(b, rest));
    TasksConcat(a[1..], path[k..], b, out, rest);
    hide Tasks;
    DenoteHead(d, s, path, k, a);
    DenoteAllConcat(d, s, rest, b, out);
    var x, y, z := DenoteAll(d, s, rest, b), DenoteAll(d, s, rest, out), DenoteAll(d, s, path[k..], a[1..]);
    Assoc(seen + x, y, z);
    Assoc(seen, x, y);
  }

  lemma TasksHead(a: seq<Id>, rest: seq<Segment>, more: seq<Task>)
    requires a != []
    ensures var w := Tasks(a, rest) + more; w != [] && w[0] == Task(a[0], rest) && w[1..] == Tasks(a[1..], rest) + more
  {
  }

  lemma TasksConcat(a: seq<Id>, ra: seq<Segment>, b: seq<Id>, c: seq<Id>, rest: seq<Segment>)
    ensures Tasks(a, ra) + Tasks(b, rest) + Tasks(c, rest) == Tasks(a, ra) + Tasks(b + c, rest)
  {
  }

  lemma DenoteHead(d: Doc, s: Shape, path: seq<Segment>, k: nat, a: seq<Id>)
    requires WellFormed(d, s) && k < |path| && AllElements(d, a) && a != []
    ensures DenoteAll(d, s, path[k..], a)
         == DenoteAll(d, s, path[k + 1..], Apply(d, s, path[k], a[0])) + DenoteAll(d, s, path[k..], a[1..])
  {
    assert a == [a[0]] + a[1..];
    DenoteAllConcat(d, s, path[k..], [a[0]], a[1..]);
    DenoteAllOne(d, s, path[k..], a[0]);
    assert path[k..][0] == path[k] && path[k..][1..] == path[k + 1..];
  }

  lemma PendingEnd(d: Doc, s: Shape, path: seq<Segment>, e: Id, k: nat, a: seq<Id>, b: seq<Id>, seen: seq<Id>)
    requires WellFormed(d, s) && IsElement(d, e) && Pending(d, s, path, e, k, a, b, seen, [])
    ensures seen == Denote(d, s, path, e)
  {
    hide WellFormed, Denote;
    assert |a| == |Tasks(a, path[k..])| && |b| == |Tasks(b, path[k + 1..])|;
  }

  /** A path is walked piece by piece: its tail starts from everything its head matches. */
  lemma {:induction false} DenoteConcat(d: Doc, s: Shape, p: seq<Segment>, q: seq<Segment>, xs: seq<Id>)
    requires WellFormed(d, s) && AllElements(d, xs)
    ensures AllElements(d, DenoteAll(d, s, p, xs))
    ensures DenoteAll(d, s, p + q, xs) == DenoteAll(d, s, q, DenoteAll(d, s, p, xs))
    decreases |p|, |xs|
  {
    hide WellFormed;
    if p == [] {
      DenoteAllDone(d, s, xs);
      assert p + q == q;
    } else if xs != [] {
      var init, x := xs[..|xs| - 1], xs[|xs| - 1];
      DenoteConcat(d, s, p, q, init);
      DenoteConcat(d, s, p[1..], q, Apply(d, s, p[0], x));
      DenoteSplit(d, s, p, q, x);
      hide Apply, Denote;
      DenoteAllConcat(d, s, q, DenoteAll(d, s, p, init), Denote(d, s, p, x));
    }
  }

  lemma DenoteSplit(d: Doc, s: Shape, p: seq<Segment>, q: seq<Segment>, x: Id)
    requires WellFormed(d, s) && IsElement(d, x) && p != []
    ensures Denote(d, s, p, x) == DenoteAll(d, s, p[1..], Apply(d, s, p[0], x))
    ensures Denote(d, s, p + q, x) == DenoteAll(d, s, p[1..] + q, Apply(d, s, p[0], x))
  {
    hide WellFormed, DenoteAll, Apply;
    assert (p + q)[0] == p[0] && (p + q)[1..] == p[1..] + q;
  }

  ghost predicate Scanning(d: Doc, e: Id, found: seq<Id>, waiting: seq<Id>)
    requires IsElement(d, e)
  {
    exists k: nat, i: nat :: Frontier(d, e, k, i, found, waiting)
  }

  lemma ScanStart(d: Doc, e: Id)
    requires IsElement(d, e)
    ensures Scanning(d, e, [], [] + [e])
  {
    FrontierStart(d, e);
    assert [] + [e] == [e];
  }

  lemma ScanStep(d: Doc, s: Shape, e: Id, found: seq<Id>, waiting: seq<Id>)
    requires WellFormed(d, s) && IsElement(d, e) && Scanning(d, e, found, waiting) && waiting != []
    ensures IsElement(d, waiting[0]) && |found| < |Levels(d, e, s.bound)|
    ensures Scanning(d, e, found + [waiting[0]], waiting[1..] + Kids(d, waiting[0]))
  {
    hide WellFormed, Level, Levels, Kids, AllKids;
    var k: nat, i: nat :| Frontier(d, e, k, i, found, waiting);
    if i == |Level(d, e, k)| {
      FrontierDown(d, e, k, found, waiting);
      k, i := k + 1, 0;
    }
    hide Frontier;
    assert i < |Level(d, e, k)| by { FrontierRoom(d, e, k, i, found, waiting); }
    FrontierBound(d, s, e, k, i, found, waiting);
    FrontierOne(d, e, k, i, found, waiting);
  }

  lemma FrontierRoom(d: Doc, e: Id, k: nat, i: nat, found: seq<Id>, waiting: seq<Id>)
    requires IsElement(d, e) && Frontier(d, e, k, i, found, waiting) && (i != |Level(d, e, k)| || i == 0)
    ensures i < |Level(d, e, k)|
  {
  }

  lemma ScanEnd(d: Doc, s: Shape, e: Id, found: seq<Id>)
    requires WellFormed(d, s) && IsElement(d, e) && Scanning(d, e, found, [])
    ensures found == Levels(d, e, s.bound)
  {
    hide WellFormed, Frontier, Level, Levels;
    var k: nat, i: nat :| Frontier(d, e, k, i, found, []);
    FrontierBound(d, s, e, k, i, found, []);
  }
}
