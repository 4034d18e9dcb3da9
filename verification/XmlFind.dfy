/** What a path finds, said element by element: every selector and filter with its test written out. */
module XmlFind {
  import opened Basics
  import opened XmlTree
  import opened XmlPath

  // ---- filters ----

  predicate NamedChild(d: Doc, x: Id, c: Id, space: string, tag: string) {
    && x in d && d[x].kind.Element? && c in d[x].kind.child && c in d && d[c].kind.Element?
    && (space == "" || space == d[c].kind.space) && tag == d[c].kind.tag
  }

  /** An element has what a filter other than a position asks for. */
  ghost predicate Has(d: Doc, f: Filter, x: Id) {
    match f
    case Pos(_) => false
    case HasAttr(space, key) =>
      IsElement(d, x) && exists a :: a in d[x].kind.attrs && (space == "" || space == a.space) && key == a.key
    case AttrIs(space, key, val) =>
      IsElement(d, x) && exists a :: a in d[x].kind.attrs && (space == "" || space == a.space) && key == a.key && val == a.value
    case Func(fn) => fn(x) != ""
    case FuncIs(fn, val) => fn(x) == val
    case HasChild(space, tag) => exists c :: NamedChild(d, x, c, space, tag)
    case ChildTextIs(space, tag, text) =>
      exists c :: NamedChild(d, x, c, space, tag) && LeadingText(d, d[c].kind.child, text)
  }

  /** The data of a run of text tokens. */
  function Data(d: Doc, toks: seq<Id>): string {
    if toks == [] then ""
    else
      var x := toks[|toks| - 1];
      Data(d, toks[..|toks| - 1]) + if x in d && d[x].kind.CharData? then d[x].kind.data else ""
  }

  predicate TextUpTo(d: Doc, toks: seq<Id>, n: nat) {
    && n <= |toks| && (forall i :: 0 <= i < n ==> toks[i] in d && d[toks[i]].kind.CharData?)
    && (n < |toks| ==> !(toks[n] in d && d[toks[n]].kind.CharData?))
  }

  /** The text tokens a list begins with, up to the first token of another kind, hold the text. */
  ghost predicate LeadingText(d: Doc, toks: seq<Id>, text: string) {
    exists n: nat :: TextUpTo(d, toks, n) && text == Data(d, toks[..n])
  }

  lemma {:induction false} DataFirst(d: Doc, toks: seq<Id>)
    requires toks != [] && toks[0] in d && d[toks[0]].kind.CharData?
    ensures Data(d, toks) == d[toks[0]].kind.data + Data(d, toks[1..])
    decreases |toks|
  {
    var n := |toks| - 1;
    if n == 0 {
      assert toks[..0] == [] && toks[1..] == [];
    } else {
      var first, last := d[toks[0]].kind.data, if toks[n] in d && d[toks[n]].kind.CharData? then d[toks[n]].kind.data else "";
      DataFirst(d, toks[..n]);
      assert toks[..n][1..] == toks[1..][..n - 1] && toks[1..][n - 1] == toks[n];
      assert Data(d, toks) == Data(d, toks[..n]) + last;
      assert Data(d, toks[1..]) == Data(d, toks[1..][..n - 1]) + last;
      hide Data;
      Assoc(first, Data(d, toks[1..][..n - 1]), last);
    }
  }

  lemma {:induction false} TextIs(d: Doc, toks: seq<Id>, n: nat)
    requires TextUpTo(d, toks, n)
    ensures Text(d, toks) == Data(d, toks[..n])
    decreases n
  {
    if n > 0 {
      assert TextUpTo(d, toks[1..], n - 1) by {
        assert forall i :: 0 <= i < |toks| - 1 ==> toks[1..][i] == toks[i + 1];
      }
      TextIs(d, toks[1..], n - 1);
      DataFirst(d, toks[..n]);
      assert toks[..n][1..] == toks[1..][..n - 1];
    }
  }

  lemma {:induction false} TextEnds(d: Doc, toks: seq<Id>) returns (n: nat)
    ensures TextUpTo(d, toks, n)
    decreases |toks|
  {
    if toks == [] || !(toks[0] in d && d[toks[0]].kind.CharData?) {
      n := 0;
    } else {
      n := TextEnds(d, toks[1..]);
      n := n + 1;
    }
  }

  /** An element's text, as filters compare it. */
  lemma TextLeads(d: Doc, toks: seq<Id>, text: string)
    ensures text == Text(d, toks) <==> LeadingText(d, toks, text)
  {
    var n := TextEnds(d, toks);
    TextIs(d, toks, n);
    if LeadingText(d, toks, text) {
      var m: nat :| TextUpTo(d, toks, m) && text == Data(d, toks[..m]);
      TextIs(d, toks, m);
    }
  }

  lemma {:induction false} CountIs(d: Doc, toks: seq<Id>, f: Filter)
    ensures CountChildren(d, toks, f) > 0 <==> exists c :: c in toks && ChildMatches(d, c, f)
    decreases |toks|
  {
    hide ChildMatches;
    if toks != [] {
      var n := |toks| - 1;
      CountIs(d, toks[..n], f);
      assert toks == toks[..n] + [toks[n]];
    }
  }

  lemma ChildIs(d: Doc, x: Id, c: Id, f: Filter)
    requires IsElement(d, x) && (f.HasChild? || f.ChildTextIs?)
    ensures c in Children(d, x) && ChildMatches(d, c, f) <==>
      NamedChild(d, x, c, f.space, f.tag) && (f.ChildTextIs? ==> LeadingText(d, d[c].kind.child, f.text))
  {
    hide Text, LeadingText;
    if IsElement(d, c) && f.ChildTextIs? {
      TextLeads(d, d[c].kind.child, f.text);
    }
  }

  lemma CopiesHas(d: Doc, f: Filter, x: Id)
    requires IsElement(d, x) && !f.Pos?
    ensures Copies(d, f, x) > 0 <==> Has(d, f, x)
  {
    if f.HasChild? || f.ChildTextIs? {
      hide Text, LeadingText, ChildMatches, NamedChild, CountChildren;
      CountIs(d, Children(d, x), f);
      forall c
        ensures c in Children(d, x) && ChildMatches(d, c, f) <==>
          NamedChild(d, x, c, f.space, f.tag) && (f.ChildTextIs? ==> LeadingText(d, d[c].kind.child, f.text))
      {
        ChildIs(d, x, c, f);
      }
    }
  }

  /** A filter keeps exactly the candidates that have what it asks for. */
  lemma {:induction false} FilterKeeps(d: Doc, f: Filter, cs: seq<Id>, x: Id)
    requires AllElements(d, cs) && !f.Pos?
    ensures x in Narrow(d, f, cs) <==> x in cs && Has(d, f, x)
    decreases |cs|
  {
    hide Copies, Has;
    if cs != [] {
      var n := |cs| - 1;
      FilterKeeps(d, f, cs[..n], x);
      CopiesHas(d, f, cs[n]);
      assert cs == cs[..n] + [cs[n]];
      RepeatIn(cs[n], Copies(d, f, cs[n]), x);
    }
  }

  lemma RepeatIn(c: Id, n: nat, x: Id)
    ensures x in Repeat(c, n) <==> n > 0 && x == c
  {
    if n > 0 {
      assert Repeat(c, n)[0] == c;
    }
  }

  lemma KeepStep(d: Doc, f: Filter, cs: seq<Id>)
    requires AllElements(d, cs) && cs != []
    ensures AllElements(d, cs[..|cs| - 1])
    ensures Keep(d, f, cs) == Keep(d, f, cs[..|cs| - 1]) + Repeat(cs[|cs| - 1], Copies(d, f, cs[|cs| - 1]))
  {
    hide Copies;
  }

  lemma {:induction false} KeepParts(d: Doc, f: Filter, a: seq<Id>, b: seq<Id>)
    requires AllElements(d, a) && AllElements(d, b) && AllElements(d, a + b)
    ensures Keep(d, f, a + b) == Keep(d, f, a) + Keep(d, f, b)
    decreases |b|
  {
    if b == [] {
      assert a + b == a;
    } else {
      hide Copies, Keep, Repeat;
      var n := |b| - 1;
      assert (a + b)[..|a| + n] == a + b[..n] && (a + b)[|a| + n] == b[n];
      KeepStep(d, f, a + b);
      KeepStep(d, f, b);
      KeepParts(d, f, a, b[..n]);
      Assoc(Keep(d, f, a), Keep(d, f, b[..n]), Repeat(b[n], Copies(d, f, b[n])));
    }
  }

  /** It keeps them in order: a list is filtered part by part. */
  lemma FilterParts(d: Doc, f: Filter, a: seq<Id>, b: seq<Id>)
    requires AllElements(d, a) && AllElements(d, b) && !f.Pos?
    ensures AllElements(d, a + b) && Narrow(d, f, a + b) == Narrow(d, f, a) + Narrow(d, f, b)
  {
    hide Keep;
    KeepParts(d, f, a, b);
  }

  /** A position counts from the front, starting at 0, or from the end, starting at -1. */
  lemma PositionPicks(d: Doc, a: seq<Id>, x: Id, b: seq<Id>)
    requires AllElements(d, a + [x] + b)
    ensures Narrow(d, Pos(|a|), a + [x] + b) == [x] && Narrow(d, Pos(-1 - |b|), a + [x] + b) == [x]
    ensures forall p :: p >= |a + [x] + b| || -p > |a + [x] + b| ==> Narrow(d, Pos(p), a + [x] + b) == []
  {
  }

  predicate Unnumbered(fs: seq<Filter>) {
    forall i :: 0 <= i < |fs| ==> !fs[i].Pos?
  }

  ghost predicate HasAll(d: Doc, fs: seq<Filter>, x: Id) {
    forall i :: 0 <= i < |fs| ==> Has(d, fs[i], x)
  }

  lemma {:induction false} FiltersKeep(d: Doc, fs: seq<Filter>, cs: seq<Id>, x: Id)
    requires AllElements(d, cs) && Unnumbered(fs)
    ensures x in NarrowAll(d, fs, cs) <==> x in cs && HasAll(d, fs, x)
    decreases |fs|
  {
    hide Narrow, Has;
    if fs != [] {
      NarrowOne(d, fs[0], cs);
      FiltersKeep(d, fs[1..], Narrow(d, fs[0], cs), x);
      FilterKeeps(d, fs[0], cs, x);
      assert forall i :: 0 < i < |fs| ==> fs[i] == fs[1..][i - 1];
    }
  }

  lemma NarrowOne(d: Doc, f: Filter, cs: seq<Id>)
    requires AllElements(d, cs)
    ensures AllElements(d, Narrow(d, f, cs))
  {
    KeepElements(d, f, cs);
  }

  // ---- selectors ----

  /** What a selector leads to from one element. */
  ghost predicate Leads(d: Doc, sel: Selector, e: Id, x: Id) {
    e in d && x in d && d[x].kind.Element? &&
    match sel
    case Self => x == e
    case Root => d[x].parent == None && exists k: nat :: Below(d, x, e, k)
    case Parent => d[e].parent == Some(x)
    case AllChildren => d[x].parent == Some(e)
    case Descendants => exists k: nat :: Below(d, e, x, k)
    case ByTag(space, tag) => d[x].parent == Some(e) && (space == "" || space == d[x].kind.space) && tag == d[x].kind.tag
  }

  lemma {:induction false} TaggedIn(d: Doc, toks: seq<Id>, space: string, tag: string, x: Id)
    ensures x in Tagged(d, toks, space, tag) <==>
      x in toks && x in d && d[x].kind.Element? && (space == "" || space == d[x].kind.space) && tag == d[x].kind.tag
    decreases |toks|
  {
    if toks != [] {
      var n := |toks| - 1;
      TaggedIn(d, toks[..n], space, tag, x);
      assert toks == toks[..n] + [toks[n]];
    }
  }

  /** Children are selected by tag in document order. */
  lemma {:induction false} TaggedParts(d: Doc, a: seq<Id>, b: seq<Id>, space: string, tag: string)
    ensures Tagged(d, a + b, space, tag) == Tagged(d, a, space, tag) + Tagged(d, b, space, tag)
    decreases |b|
  {
    if b == [] {
      assert a + b == a;
    } else {
      var n := |b| - 1;
      assert (a + b)[..|a| + n] == a + b[..n];
      TaggedParts(d, a, b[..n], space, tag);
    }
  }

  lemma ChildOf(d: Doc, s: Shape, e: Id, x: Id)
    requires WellFormed(d, s) && IsElement(d, e) && IsElement(d, x)
    ensures x in Children(d, e) <==> d[x].parent == Some(e)
  {
    assert Rooted(d, s, x);
    if x in Children(d, e) {
      var i :| 0 <= i < |Children(d, e)| && Children(d, e)[i] == x;
      assert LinkedAt(d, e, i);
    }
  }

  lemma {:induction false} RootIs(d: Doc, s: Shape, e: Id)
    requires WellFormed(d, s) && IsElement(d, e)
    ensures d[RootOf(d, s, e)].parent == None && exists k: nat :: Below(d, RootOf(d, s, e), e, k)
    decreases s.depth[(assert Rooted(d, s, e); e)]
  {
    assert Rooted(d, s, e);
    if d[e].parent.None? {
      assert Below(d, e, e, 0);
    } else {
      RootIs(d, s, d[e].parent.value);
      var k: nat :| Below(d, RootOf(d, s, d[e].parent.value), d[e].parent.value, k);
      assert Below(d, RootOf(d, s, e), e, k + 1);
    }
  }

  lemma {:induction false} OneRoot(d: Doc, e: Id, x: Id, y: Id, i: nat, k: nat)
    requires x in d && y in d && Below(d, x, e, i) && Below(d, y, e, k) && d[x].parent == None && d[y].parent == None
    ensures x == y
    decreases i
  {
    if i > 0 && k > 0 {
      OneRoot(d, d[e].parent.value, x, y, i - 1, k - 1);
    }
  }

  lemma RootLeads(d: Doc, s: Shape, e: Id, x: Id)
    requires WellFormed(d, s) && IsElement(d, e)
    ensures x == RootOf(d, s, e) <==> Leads(d, Root, e, x)
  {
    hide WellFormed;
    RootIs(d, s, e);
    if Leads(d, Root, e, x) {
      var i: nat :| Below(d, x, e, i);
      var k: nat :| Below(d, RootOf(d, s, e), e, k);
      OneRoot(d, e, x, RootOf(d, s, e), i, k);
    }
  }

  lemma SelectLeads(d: Doc, s: Shape, sel: Selector, e: Id, x: Id)
    requires WellFormed(d, s) && IsElement(d, e)
    ensures x in Select(d, s, sel, e) <==> Leads(d, sel, e, x)
  {
    assert Rooted(d, s, e);
    if IsElement(d, x) {
      ChildOf(d, s, e, x);
    }
    match sel
    case Root => RootLeads(d, s, e, x);
    case AllChildren => ElementsIn(d, Children(d, e), x);
    case Descendants => DescendantsAre(d, s, e, x);
    case ByTag(space, tag) => TaggedIn(d, Children(d, e), space, tag, x);
    case _ =>
  }

  // ---- whole paths ----

  predicate NoPositions(path: seq<Segment>) {
    forall i :: 0 <= i < |path| ==> Unnumbered(path[i].filters)
  }

  /** A path without positions leads from one element to another: segment by segment, past all its filters. */
  ghost predicate Reaches(d: Doc, path: seq<Segment>, e: Id, x: Id)
    decreases |path|
  {
    if path == [] then x == e
    else exists y :: Passes(d, path[0], e, y) && Reaches(d, path[1..], y, x)
  }

  ghost predicate Passes(d: Doc, g: Segment, e: Id, y: Id) {
    Leads(d, g.sel, e, y) && HasAll(d, g.filters, y)
  }

  lemma ApplyPasses(d: Doc, s: Shape, g: Segment, e: Id, y: Id)
    requires WellFormed(d, s) && IsElement(d, e) && Unnumbered(g.filters)
    ensures y in Apply(d, s, g, e) <==> Passes(d, g, e, y)
  {
    hide WellFormed, Select, NarrowAll, Leads, HasAll;
    SelectElements(d, s, g.sel, e);
    SelectLeads(d, s, g.sel, e, y);
    FiltersKeep(d, g.filters, Select(d, s, g.sel, e), y);
  }

  lemma {:induction false} DenoteAllIn(d: Doc, s: Shape, path: seq<Segment>, xs: seq<Id>, x: Id)
    requires WellFormed(d, s) && AllElements(d, xs)
    ensures x in DenoteAll(d, s, path, xs) <==> exists i :: 0 <= i < |xs| && x in Denote(d, s, path, xs[i])
    decreases |xs|
  {
    hide WellFormed, Denote;
    if xs != [] {
      var n := |xs| - 1;
      DenoteAllIn(d, s, path, xs[..n], x);
      assert forall i :: 0 <= i < n ==> xs[..n][i] == xs[i];
      if i :| 0 <= i < |xs| && x in Denote(d, s, path, xs[i]) {
        assert i < n ==> x in Denote(d, s, path, xs[..n][i]);
      }
    }
  }

  /** What a path without positions denotes is exactly what it leads to. */
  lemma {:induction false} DenoteReaches(d: Doc, s: Shape, path: seq<Segment>, e: Id, x: Id)
    requires WellFormed(d, s) && IsElement(d, e) && NoPositions(path)
    ensures x in Denote(d, s, path, e) <==> Reaches(d, path, e, x)
    decreases |path|
  {
    hide WellFormed, Apply, Passes;
    if path != [] {
      var ys := Apply(d, s, path[0], e);
      assert NoPositions(path[1..]) && Unnumbered(path[0].filters);
      DenoteAllIn(d, s, path[1..], ys, x);
      if i :| 0 <= i < |ys| && x in Denote(d, s, path[1..], ys[i]) {
        ApplyPasses(d, s, path[0], e, ys[i]);
        DenoteReaches(d, s, path[1..], ys[i], x);
      }
      if y :| Passes(d, path[0], e, y) && Reaches(d, path[1..], y, x) {
        ApplyPasses(d, s, path[0], e, y);
        var i :| 0 <= i < |ys| && ys[i] == y;
        DenoteReaches(d, s, path[1..], y, x);
      }
    }
  }

  /** Searching with a path without positions finds exactly the elements it leads to, each once. */
  method Find(d: Doc, ghost s: Shape, e: Id, path: seq<Segment>) returns (found: seq<Id>)
    requires WellFormed(d, s) && IsElement(d, e) && path != [] && NoPositions(path)
    ensures Distinct(found) && forall x :: x in found <==> Reaches(d, path, e, x)
  {
    hide WellFormed, Denote, Reaches, NoPositions;
    var p := new Pather(d, s);
    found := p.Traverse(e, path);
    DedupIs(Denote(d, s, path, e), e);
    forall x ensures x in found <==> Reaches(d, path, e, x) {
      DedupIs(Denote(d, s, path, e), x);
      DenoteReaches(d, s, path, e, x);
    }
  }
}
