/** `indent` and `stripIndent` (`goxml/goxml.go`), in place over the whole tree below an element. */
module XmlIndent {
  import opened Basics
  import opened XmlTree
  import opened XmlEdit

  // ---- what a child list looks like when the identity of indentation is forgotten ----

  datatype Item = Keep(id: Id, text: bool) | Space(data: string)

  predicate IsSpace(d: Doc, c: Id) {
    c in d && d[c].kind.CharData? && d[c].kind.whitespace
  }

  function ItemOf(d: Doc, c: Id): Item {
    if IsSpace(d, c) then Space(d[c].kind.data) else Keep(c, c in d && d[c].kind.CharData?)
  }

  function Items(d: Doc, c: seq<Id>): seq<Item> {
    seq(|c|, i requires 0 <= i < |c| => ItemOf(d, c[i]))
  }

  function View(d: Doc, e: Id): seq<Item>
    requires IsElement(d, e)
  {
    Items(d, Children(d, e))
  }

  function Strip(v: seq<Item>): (r: seq<Item>)
    ensures forall i :: 0 <= i < |r| ==> r[i].Keep?
  {
    if v == [] then [] else Strip(v[..|v| - 1]) + if v[|v| - 1].Keep? then [v[|v| - 1]] else []
  }

  function Gap(s: string): seq<Item> {
    if s == "" then [] else [Space(s)]
  }

  predicate AnyTag(v: seq<Item>) {
    exists i :: 0 <= i < |v| && v[i].Keep? && !v[i].text
  }

  function Break(init: seq<Item>, last: Item, depth: int, ind: int -> string): seq<Item> {
    if last.Keep? && !last.text && (AnyTag(init) || depth > 0) then Gap(ind(depth)) else []
  }

  /** Every child that is not text starts a new line, except the very first at root depth. */
  function Lines(v: seq<Item>, depth: int, ind: int -> string): seq<Item> {
    if v == [] then []
    else
      var init, last := v[..|v| - 1], v[|v| - 1];
      Lines(init, depth, ind) + Break(init, last, depth, ind) + [last]
  }

  /** The last child that is not text is followed by the line of the end tag. */
  function Layout(v: seq<Item>, depth: int, ind: int -> string): seq<Item> {
    Lines(v, depth, ind) + if v != [] && v[|v| - 1].Keep? && !v[|v| - 1].text then Gap(ind(depth - 1)) else []
  }

  lemma {:induction false} StripConcat(a: seq<Item>, b: seq<Item>)
    ensures Strip(a + b) == Strip(a) + Strip(b)
    decreases |b|
  {
    if b == [] {
      assert a + b == a;
    } else {
      var n := |b| - 1;
      assert (a + b)[..|a + b| - 1] == a + b[..n];
      StripConcat(a, b[..n]);
      assert Strip(a + b) == Strip(a + b[..n]) + if b[n].Keep? then [b[n]] else [];
    }
  }

  lemma StripGap(s: string)
    ensures Strip(Gap(s)) == []
  {
    assert s != "" ==> Gap(s)[..0] == [];
  }

  lemma StripOne(x: Item)
    requires x.Keep?
    ensures Strip([x]) == [x]
  {
    assert [x][..0] == [];
  }

  lemma {:induction false} StripLines(v: seq<Item>, depth: int, ind: int -> string)
    requires forall i :: 0 <= i < |v| ==> v[i].Keep?
    ensures Strip(Lines(v, depth, ind)) == v
    decreases |v|
  {
    if v != [] {
      hide Strip, Lines, Break;
      var init, last := v[..|v| - 1], v[|v| - 1];
      StripLines(init, depth, ind);
      LinesStep(v, depth, ind);
      StripBreak(init, last, depth, ind);
      StripSnoc(Lines(init, depth, ind), Break(init, last, depth, ind), last);
    }
  }

  lemma StripSnoc(lines: seq<Item>, gap: seq<Item>, last: Item)
    requires Strip(gap) == [] && last.Keep?
    ensures Strip(lines + gap + [last]) == Strip(lines) + [last]
  {
    hide Strip;
    StripConcat(lines, gap);
    StripConcat(lines + gap, [last]);
    StripOne(last);
    assert Strip(lines) + [] == Strip(lines);
  }

  lemma LinesStep(v: seq<Item>, depth: int, ind: int -> string)
    requires v != []
    ensures var init, last := v[..|v| - 1], v[|v| - 1];
      Lines(v, depth, ind) == Lines(init, depth, ind) + Break(init, last, depth, ind) + [last]
  {
  }

  lemma StripBreak(init: seq<Item>, last: Item, depth: int, ind: int -> string)
    ensures Strip(Break(init, last, depth, ind)) == []
  {
    StripGap(ind(depth));
    hide AnyTag, Gap;
  }

  /** Laying out adds only indentation: stripping it gives the list back. */
  lemma StripLayout(v: seq<Item>, depth: int, ind: int -> string)
    requires forall i :: 0 <= i < |v| ==> v[i].Keep?
    ensures Strip(Layout(v, depth, ind)) == v
  {
    var end := if v != [] && v[|v| - 1].Keep? && !v[|v| - 1].text then Gap(ind(depth - 1)) else [];
    StripLines(v, depth, ind);
    StripGap(ind(depth - 1));
    assert Strip([]) == [];
    hide Strip, Lines, Gap;
    StripConcat(Lines(v, depth, ind), end);
    assert v + [] == v;
  }

  /** A child that is not text. */
  predicate IsTag(v: seq<Item>, i: int) {
    0 <= i < |v| && v[i].Keep? && !v[i].text
  }

  /** Item `i` is a child that is not text, and starts a line: any but the first at the root. */
  ghost predicate StartsLine(v: seq<Item>, i: int, depth: int) {
    IsTag(v, i) && (depth > 0 || exists j :: 0 <= j < i && IsTag(v, j))
  }

  /**
    How an indented list looks. The item in front of a child that starts a line is the indentation of the depth; behind
    the last child, if that is not text, is the indentation of the parent; and there is no other indentation.
  */
  ghost predicate Looks(v: seq<Item>, depth: int, ind: int -> string) {
    && (forall i :: 0 <= i < |v| && StartsLine(v, i, depth) && ind(depth) != "" ==> i > 0 && v[i - 1] == Space(ind(depth)))
    && (forall i :: IsTag(v, i) && !StartsLine(v, i, depth) && i > 0 ==> v[i - 1].Keep?)
    && (forall i :: 0 <= i < |v| && v[i].Space? ==> v[i].data != "")
    && (forall i :: 0 <= i < |v| - 1 && v[i].Space? ==> v[i] == Space(ind(depth)) && StartsLine(v, i + 1, depth))
    && (v != [] && v[|v| - 1].Space? ==> v[|v| - 1] == Space(ind(depth - 1)) && IsTag(v, |v| - 2))
    && (v != [] && IsTag(v, |v| - 1) ==> ind(depth - 1) == "")
  }

  /** The same up to the end tag. */
  ghost predicate LooksSoFar(v: seq<Item>, depth: int, ind: int -> string) {
    && (forall i :: 0 <= i < |v| && StartsLine(v, i, depth) && ind(depth) != "" ==> i > 0 && v[i - 1] == Space(ind(depth)))
    && (forall i :: IsTag(v, i) && !StartsLine(v, i, depth) && i > 0 ==> v[i - 1].Keep?)
    && (forall i :: 0 <= i < |v| && v[i].Space? ==>
          i < |v| - 1 && v[i] == Space(ind(depth)) && v[i].data != "" && StartsLine(v, i + 1, depth))
  }

  lemma TagMore(v: seq<Item>, w: seq<Item>, i: int)
    requires 0 <= i < |v|
    ensures IsTag(v + w, i) <==> IsTag(v, i)
  {
  }

  lemma StartMore(v: seq<Item>, w: seq<Item>, i: int, depth: int)
    requires 0 <= i < |v|
    ensures StartsLine(v + w, i, depth) <==> StartsLine(v, i, depth)
  {
    hide IsTag;
    forall j | 0 <= j <= i ensures IsTag(v + w, j) <==> IsTag(v, j) {
      TagMore(v, w, j);
    }
  }

  lemma AnyTagIs(v: seq<Item>)
    ensures AnyTag(v) <==> exists j :: 0 <= j < |v| && IsTag(v, j)
  {
    if AnyTag(v) {
      var i :| 0 <= i < |v| && v[i].Keep? && !v[i].text;
      assert IsTag(v, i);
    }
  }

  /** Laying out the lines loses no child and adds none. */
  lemma {:induction false} LinesTags(v: seq<Item>, depth: int, ind: int -> string)
    ensures AnyTag(Lines(v, depth, ind)) <==> AnyTag(v)
    decreases |v|
  {
    hide Break;
    if v != [] {
      var init, last := v[..|v| - 1], v[|v| - 1];
      LinesTags(init, depth, ind);
      assert v == init + [last];
      BreakNoTag(init, last, depth, ind);
      AnyTagConcat(init, [last]);
      AnyTagConcat(Lines(init, depth, ind) + Break(init, last, depth, ind), [last]);
      AnyTagConcat(Lines(init, depth, ind), Break(init, last, depth, ind));
    }
  }

  lemma BreakNoTag(init: seq<Item>, last: Item, depth: int, ind: int -> string)
    ensures !AnyTag(Break(init, last, depth, ind))
  {
  }

  lemma AnyTagConcat(a: seq<Item>, b: seq<Item>)
    ensures AnyTag(a + b) <==> AnyTag(a) || AnyTag(b)
  {
    if AnyTag(a) {
      var i :| 0 <= i < |a| && a[i].Keep? && !a[i].text;
      assert (a + b)[i] == a[i];
    }
    if AnyTag(b) {
      var i :| 0 <= i < |b| && b[i].Keep? && !b[i].text;
      assert (a + b)[|a| + i] == b[i];
    }
  }

  /** One more child, with the line break it asks for. */
  lemma LooksOneMore(v: seq<Item>, last: Item, depth: int, ind: int -> string, gap: seq<Item>)
    requires LooksSoFar(v, depth, ind) && last.Keep?
    requires gap == if !last.text && (AnyTag(v) || depth > 0) && ind(depth) != "" then [Space(ind(depth))] else []
    ensures LooksSoFar(v + gap + [last], depth, ind)
  {
    var w, n := v + gap + [last], |v + gap|;
    AnyTagIs(v);
    hide AnyTag, StartsLine;
    assert w == v + (gap + [last]) && w[n] == last;
    LastStarts(v, gap, last, depth, ind);
    forall i | 0 <= i < |w| && StartsLine(w, i, depth) && ind(depth) != "" ensures i > 0 && w[i - 1] == Space(ind(depth)) {
      LineInside(w, i, depth);
      if i < |v| {
        StartMore(v, gap + [last], i, depth);
      }
    }
    forall i | IsTag(w, i) && !StartsLine(w, i, depth) && i > 0 ensures w[i - 1].Keep? {
      if i < |v| {
        StartMore(v, gap + [last], i, depth);
      } else if |v| > 0 && gap == [] {
        assert w[i - 1] == v[|v| - 1];
      }
    }
    forall i | 0 <= i < |w| && w[i].Space?
      ensures i < |w| - 1 && w[i] == Space(ind(depth)) && w[i].data != "" && StartsLine(w, i + 1, depth)
    {
      if i < |v| {
        assert v[i] == w[i];
        StartMore(v, gap + [last], i + 1, depth);
      }
    }
  }

  lemma LineInside(v: seq<Item>, i: int, depth: int)
    requires StartsLine(v, i, depth)
    ensures 0 <= i < |v| && IsTag(v, i)
  {
  }

  lemma LastStarts(v: seq<Item>, gap: seq<Item>, last: Item, depth: int, ind: int -> string)
    requires last.Keep? && forall i :: 0 <= i < |gap| ==> gap[i].Space?
    ensures var w := v + gap + [last];
      StartsLine(w, |v + gap|, depth) <==> !last.text && (depth > 0 || exists j :: 0 <= j < |v| && IsTag(v, j))
  {
    var w := v + gap + [last];
    assert w == v + (gap + [last]) && w[|v + gap|] == last;
    forall j | 0 <= j < |v + gap| ensures IsTag(w, j) <==> j < |v| && IsTag(v, j) {
      if j >= |v| {
        assert w[j] == gap[j - |v|];
      }
    }
  }

  lemma {:induction false} LinesLook(v: seq<Item>, depth: int, ind: int -> string)
    requires forall i :: 0 <= i < |v| ==> v[i].Keep?
    ensures LooksSoFar(Lines(v, depth, ind), depth, ind)
    decreases |v|
  {
    if v != [] {
      var init, last := v[..|v| - 1], v[|v| - 1];
      LinesLook(init, depth, ind);
      LinesTags(init, depth, ind);
      hide AnyTag, LooksSoFar;
      LooksOneMore(Lines(init, depth, ind), last, depth, ind, Break(init, last, depth, ind));
    }
  }

  /** Laid out, a list looks as an indented list should. */
  lemma LayoutLooks(v: seq<Item>, depth: int, ind: int -> string)
    requires forall i :: 0 <= i < |v| ==> v[i].Keep?
    ensures Looks(Layout(v, depth, ind), depth, ind)
  {
    LinesLook(v, depth, ind);
    var lines := Lines(v, depth, ind);
    LastLine(v, depth, ind);
    var end := if v != [] && !v[|v| - 1].text then Gap(ind(depth - 1)) else [];
    hide Lines, Gap;
    LooksAtEnd(lines, depth, ind, end);
  }

  lemma LastLine(v: seq<Item>, depth: int, ind: int -> string)
    ensures var l := Lines(v, depth, ind); if v == [] then l == [] else l != [] && l[|l| - 1] == v[|v| - 1]
  {
  }

  lemma LooksAtEnd(v: seq<Item>, depth: int, ind: int -> string, end: seq<Item>)
    requires LooksSoFar(v, depth, ind)
    requires end == if v != [] && IsTag(v, |v| - 1) && ind(depth - 1) != "" then [Space(ind(depth - 1))] else []
    ensures Looks(v + end, depth, ind)
  {
    var w := v + end;
    hide StartsLine;
    forall i | 0 <= i < |w| && StartsLine(w, i, depth) && ind(depth) != "" ensures i > 0 && w[i - 1] == Space(ind(depth)) {
      LineInside(w, i, depth);
      StartMore(v, end, i, depth);
    }
    forall i | IsTag(w, i) && !StartsLine(w, i, depth) && i > 0 ensures w[i - 1].Keep? {
      StartMore(v, end, i, depth);
    }
    forall i | 0 <= i < |w| - 1 && w[i].Space? ensures w[i] == Space(ind(depth)) && StartsLine(w, i + 1, depth) {
      StartMore(v, end, i + 1, depth);
    }
  }

  // ---- the tree below an element ----

  /** `x` is `k` levels below `e`, through child lists. */
  ghost predicate At(d: Doc, e: Id, x: Id, k: nat)
    decreases k
  {
    if k == 0 then x == e
    else x in d && d[x].parent.Some? && var p := d[x].parent.value;
         IsElement(d, p) && x in Children(d, p) && At(d, e, p, k - 1)
  }

  /** Among elements that are where they say they are, this is the ancestry that parents tell. */
  lemma {:induction false} AtIsBelow(d: Doc, e: Id, x: Id, k: nat)
    requires ElementsPlaced(d) && IsElement(d, x)
    ensures At(d, e, x, k) <==> Below(d, e, x, k)
    decreases k
  {
    assert Placed(d, x);
    if k > 0 && d[x].parent.Some? {
      AtIsBelow(d, e, d[x].parent.value, k - 1);
    }
  }

  /** Among elements that are where they say they are, only one that is its own ancestor leads back to itself. */
  lemma OpenIs(d: Doc, e: Id)
    requires ElementsPlaced(d) && IsElement(d, e)
    ensures Open(d, e) <==> forall k: nat :: k > 0 ==> !Below(d, e, e, k)
  {
    hide At, Below;
    if Open(d, e) {
      forall k: nat | k > 0 ensures !Below(d, e, e, k) {
        AtIsBelow(d, e, e, k);
      }
    } else {
      var k: nat :| k > 0 && At(d, e, e, k);
      AtIsBelow(d, e, e, k);
    }
  }

  ghost predicate Under(d: Doc, e: Id, x: Id) {
    exists k: nat :: At(d, e, x, k)
  }

  /** No cycle of child lists leads back to the element. */
  ghost predicate Open(d: Doc, e: Id) {
    forall k: nat :: k > 0 ==> !At(d, e, e, k)
  }

  /** None of the first `j` children leads back to itself. */
  ghost predicate Free(d: Doc, oc: seq<Id>, j: nat) {
    j <= |oc| && forall i :: 0 <= i < j ==> Open(d, oc[i])
  }

  lemma {:induction false} AtAdd(d: Doc, e: Id, c: Id, x: Id, k: nat)
    requires Linked(d) && IsElement(d, e) && c in Children(d, e) && At(d, c, x, k)
    ensures At(d, e, x, k + 1)
    decreases k
  {
    if k == 0 {
      InSlot(d, e, c);
      assert At(d, e, e, 0);
    } else {
      AtAdd(d, e, c, d[x].parent.value, k - 1);
    }
  }

  /** Whatever lies strictly below an element lies below one of its children. */
  lemma {:induction false} AtSplit(d: Doc, e: Id, x: Id, k: nat) returns (c: Id)
    requires At(d, e, x, k + 1) && IsElement(d, x)
    ensures IsElement(d, e) && IsElement(d, c) && c in Children(d, e) && At(d, c, x, k)
    decreases k
  {
    if k == 0 {
      assert At(d, e, d[x].parent.value, 0);
      c := x;
    } else {
      c := AtSplit(d, e, d[x].parent.value, k - 1);
    }
  }

  /** The subtrees of two children of one element have nothing in common. */
  lemma {:induction false} AtDisjoint(d: Doc, e: Id, a: Id, b: Id, x: Id, j: nat, k: nat)
    requires Linked(d) && IsElement(d, e) && a in Children(d, e) && b in Children(d, e) && Open(d, a) && Open(d, b)
    requires IsElement(d, x) && At(d, a, x, j) && At(d, b, x, k)
    ensures a == b
    decreases j + k
  {
    if j > 0 && k > 0 {
      AtDisjoint(d, e, a, b, d[x].parent.value, j - 1, k - 1);
    } else if j > 0 {
      NotUnderChild(d, e, b, a, j);
    } else if k > 0 {
      NotUnderChild(d, e, a, b, k);
    }
  }

  lemma NotUnderChild(d: Doc, e: Id, x: Id, a: Id, j: nat)
    requires Linked(d) && IsElement(d, e) && x in Children(d, e) && a in Children(d, e) && Open(d, a)
    ensures j > 0 ==> !At(d, a, x, j)
  {
    if j > 0 && At(d, a, x, j) {
      InSlot(d, e, x);
      AboveChild(d, e, a, j - 1);
    }
  }

  lemma AboveChild(d: Doc, e: Id, a: Id, k: nat)
    requires Linked(d) && IsElement(d, e) && a in Children(d, e) && Open(d, a)
    ensures !At(d, a, e, k)
  {
    if At(d, a, e, k) {
      InSlot(d, e, a);
      assert At(d, a, a, k + 1);
    }
  }

  /** Where the child lists below `c` agree, the same elements lie below it. */
  lemma {:induction false} AtSame(d: Doc, f: Doc, c: Id, x: Id, k: nat)
    requires Linked(d) && Linked(f) && IsElement(d, c) && IsElement(f, c)
    requires forall y :: y in d ==> IsElement(d, y) == IsElement(f, y)
    requires forall y :: IsElement(d, y) && Under(d, c, y) ==> IsElement(f, y) && Children(f, y) == Children(d, y)
    ensures At(d, c, x, k) <==> At(f, c, x, k)
    decreases k
  {
    if k > 0 {
      if At(d, c, x, k) {
        var p := d[x].parent.value;
        AtSame(d, f, c, p, k - 1);
        assert Under(d, c, p);
        InSlot(f, p, x);
      }
      if At(f, c, x, k) {
        var p := f[x].parent.value;
        AtSame(d, f, c, p, k - 1);
        assert p in d;
        assert Under(d, c, p);
        InSlot(d, p, x);
      }
    }
  }

  // ---- stripping one child list ----

  function Solid(d: Doc, c: seq<Id>): seq<Id> {
    if c == [] then [] else Solid(d, c[..|c| - 1]) + if IsSpace(d, c[|c| - 1]) then [] else [c[|c| - 1]]
  }

  lemma {:induction false} SolidIn(d: Doc, c: seq<Id>, x: Id)
    ensures x in Solid(d, c) <==> x in c && !IsSpace(d, x)
    ensures |Solid(d, c)| <= |c| && (|Solid(d, c)| == |c| ==> Solid(d, c) == c)
    decreases |c|
  {
    if c != [] {
      var n := |c| - 1;
      SolidIn(d, c[..n], x);
      assert c == c[..n] + [c[n]];
    }
  }

  lemma {:induction false} SolidDistinct(d: Doc, c: seq<Id>)
    requires Distinct(c)
    ensures Distinct(Solid(d, c))
    decreases |c|
  {
    if c != [] {
      var n := |c| - 1;
      SolidDistinct(d, c[..n]);
      SolidIn(d, c[..n], c[n]);
    }
  }

  lemma {:induction false} SolidItems(d: Doc, c: seq<Id>)
    ensures Strip(Items(d, c)) == Items(d, Solid(d, c))
    decreases |c|
  {
    if c != [] {
      var n := |c| - 1;
      SolidItems(d, c[..n]);
      assert Items(d, c)[..n] == Items(d, c[..n]) && Items(d, c)[n] == ItemOf(d, c[n]);
    }
  }

  /** `f` is `d` with the child list of `e` being `c`; positions may differ. */
  ghost predicate Relisted(d: Doc, f: Doc, e: Id, c: seq<Id>) {
    f.Keys == d.Keys && forall x :: x in d ==>
      f[x].parent == d[x].parent && f[x].kind == if x == e then Rekind(d[x].kind, c) else d[x].kind
  }

  lemma SublistSlot(d: Doc, f: Doc, e: Id, c: seq<Id>, p: Id, j: nat)
    requires Sound(d) && IsElement(d, e) && Distinct(c) && (forall i :: 0 <= i < |c| ==> c[i] in d && c[i] in Children(d, e))
    requires Renumbered(d, f, c, 0, |c|, 0)
    requires var g := f[e := WithChild(f[e], c)]; IsElement(g, p) && j < |Children(g, p)|
    ensures LinkedAt(f[e := WithChild(f[e], c)], p, j)
  {
    var g := f[e := WithChild(f[e], c)];
    var x := Children(g, p)[j];
    assert c[0..] == c;
    if p == e {
      assert c[j] == x;
      InSlot(d, e, x);
      assert f[c[j]] == d[c[j]].(index := j + 0);
    } else {
      assert f[p].kind == d[p].kind;
      assert LinkedAt(d, p, j);
      if x in c {
        InSlot(d, e, x);
      }
    }
  }

  lemma SublistLinked(d: Doc, f: Doc, e: Id, c: seq<Id>)
    requires Sound(d) && IsElement(d, e) && Distinct(c) && (forall i :: 0 <= i < |c| ==> c[i] in d && c[i] in Children(d, e))
    requires Renumbered(d, f, c, 0, |c|, 0) && e in f
    ensures Linked(f[e := WithChild(f[e], c)])
  {
    hide Renumbered, Distinct, Sound, LinkedAt;
    var g := f[e := WithChild(f[e], c)];
    forall p, j | IsElement(g, p) && 0 <= j < |Children(g, p)| ensures LinkedAt(g, p, j) {
      SublistSlot(d, f, e, c, p, j);
    }
  }

  /** A shorter list of the same children, renumbered, keeps everything linked. */
  lemma SublistSound(d: Doc, f: Doc, e: Id, c: seq<Id>)
    requires Sound(d) && IsElement(d, e) && Distinct(c) && (forall i :: 0 <= i < |c| ==> c[i] in d && c[i] in Children(d, e))
    requires Renumbered(d, f, c, 0, |c|, 0) && e in f
    ensures Sound(f[e := WithChild(f[e], c)]) && Relisted(d, f[e := WithChild(f[e], c)], e, c)
  {
    hide Renumbered, Distinct, Linked;
    var g := f[e := WithChild(f[e], c)];
    RenumberedKeys(d, f, c, 0, |c|, 0);
    SublistLinked(d, f, e, c);
    forall x | x in d ensures SameSpot(d[x], f[x]) {
      RenumberedSpot(d, f, c, x);
    }
    forall x | x in g ensures Anchored(g, x) {
      assert Anchored(d, x) && SameSpot(d[x], f[x]);
    }
  }

  /** Only the position may differ, and is one if it does. */
  ghost predicate SameSpot(a: Token, b: Token) {
    b.parent == a.parent && b.kind == a.kind && (b.index == a.index || b.index >= 0)
  }

  lemma RenumberedSpot(d: Doc, f: Doc, c: seq<Id>, x: Id)
    requires (forall i :: 0 <= i < |c| ==> c[i] in d) && Renumbered(d, f, c, 0, |c|, 0) && x in d
    ensures x in f && SameSpot(d[x], f[x])
  {
    assert c[0..] == c;
    if x in c {
      var i :| 0 <= i < |c| && c[i] == x;
      assert f[c[i]] == d[c[i]].(index := i + 0);
    }
  }

  method StripIndent(f: Forest, e: Id)
    requires Sound(f.doc) && IsElement(f.doc, e)
    modifies f
    ensures Sound(f.doc) && Relisted(old(f.doc), f.doc, e, Solid(old(f.doc), Children(old(f.doc), e)))
  {
    hide Sound, Relisted, Renumbered;
    ghost var d := f.doc;
    var child := Children(f.doc, e);
    var n := |child|;
    for i := 0 to |child|
      invariant n == |child| - i + |Solid(d, child[..i])|
    {
      assert child[..i + 1][..i] == child[..i];
      if IsSpace(f.doc, child[i]) {
        n := n - 1;
      }
    }
    assert child[..|child|] == child;
    SolidIn(d, child, 0);
    if n == |child| {
      SameRelisted(d, e);
      return;
    }
    var newChild := Compact(f, e, child);
    SoundLinked(d);
    ChildrenDistinct(d, e);
    SolidDistinct(d, child);
    SolidChildren(d, e);
    RenumberedKeys(d, f.doc, newChild, 0, |newChild|, 0);
    SublistSound(d, f.doc, e, newChild);
    f.doc := f.doc[e := WithChild(f.doc[e], newChild)];
  }

  lemma SameRelisted(d: Doc, e: Id)
    requires IsElement(d, e)
    ensures Relisted(d, d, e, Children(d, e))
  {
  }

  lemma SolidChildren(d: Doc, e: Id)
    requires Linked(d) && IsElement(d, e)
    ensures var c := Solid(d, Children(d, e)); forall i :: 0 <= i < |c| ==> c[i] in d && c[i] in Children(d, e)
  {
    var c := Solid(d, Children(d, e));
    forall i | 0 <= i < |c| ensures c[i] in d && c[i] in Children(d, e) {
      SolidIn(d, Children(d, e), c[i]);
      InSlot(d, e, c[i]);
    }
  }

  /** The second loop: collect the other children and number them as they come. */
  method Compact(f: Forest, e: Id, child: seq<Id>) returns (newChild: seq<Id>)
    requires Sound(f.doc) && IsElement(f.doc, e) && child == Children(f.doc, e)
    modifies f
    ensures newChild == Solid(old(f.doc), child)
    ensures (forall i :: 0 <= i < |newChild| ==> newChild[i] in old(f.doc))
    ensures Renumbered(old(f.doc), f.doc, newChild, 0, |newChild|, 0)
  {
    ghost var d := f.doc;
    CompactStart(d, e);
    hide Sound, Compacting, Solid;
    newChild := [];
    var j := 0;
    for i := 0 to |child|
      invariant j == |newChild| && Compacting(d, f.doc, child, i, newChild)
    {
      CompactStep(d, f.doc, newChild, child, i);
      var c := child[i];
      if !IsSpace(f.doc, c) {
        newChild := newChild + [c];
        f.doc := f.doc[c := f.doc[c].(index := j)];
        j := j + 1;
      }
    }
    CompactEnd(d, f.doc, child, newChild);
  }

  /** The first `i` children are collected and numbered. */
  ghost predicate Compacting(d: Doc, m: Doc, child: seq<Id>, i: nat, newChild: seq<Id>) {
    && i <= |child| && Distinct(child) && (forall j :: 0 <= j < |child| ==> child[j] in d)
    && newChild == Solid(d, child[..i]) && (forall j :: 0 <= j < |newChild| ==> newChild[j] in d)
    && (forall x :: x in d ==> x in m && m[x].kind == d[x].kind)
    && Renumbered(d, m, newChild, 0, |newChild|, 0)
  }

  lemma CompactStart(d: Doc, e: Id)
    requires Sound(d) && IsElement(d, e)
    ensures Compacting(d, d, Children(d, e), 0, [])
  {
    ChildrenDistinct(d, e);
    ChildrenIn(d, e);
  }

  lemma CompactEnd(d: Doc, m: Doc, child: seq<Id>, newChild: seq<Id>)
    requires Compacting(d, m, child, |child|, newChild)
    ensures newChild == Solid(d, child) && (forall j :: 0 <= j < |newChild| ==> newChild[j] in d)
    ensures Renumbered(d, m, newChild, 0, |newChild|, 0)
  {
    assert child[..|child|] == child;
  }

  lemma CompactStep(d: Doc, m: Doc, newChild: seq<Id>, child: seq<Id>, i: nat)
    requires i < |child| && Compacting(d, m, child, i, newChild)
    ensures child[i] in m
    ensures IsSpace(m, child[i]) ==> Compacting(d, m, child, i + 1, newChild)
    ensures !IsSpace(m, child[i]) ==>
      var c := child[i]; Compacting(d, m[c := m[c].(index := |newChild|)], child, i + 1, newChild + [c])
  {
    hide Solid, Renumbered;
    SolidNext(d, child, i);
    var c := child[i];
    assert c in d && IsSpace(m, c) == IsSpace(d, c);
    if !IsSpace(m, c) {
      SolidIn(d, child[..i], c);
      assert c !in child[..i];
      CompactOne(d, m, newChild, c);
    }
  }

  lemma SolidNext(d: Doc, child: seq<Id>, i: nat)
    requires i < |child|
    ensures Solid(d, child[..i + 1]) == Solid(d, child[..i]) + if IsSpace(d, child[i]) then [] else [child[i]]
  {
    assert child[..i + 1][..i] == child[..i];
  }

  lemma CompactOne(d: Doc, m: Doc, newChild: seq<Id>, c: Id)
    requires c in d && c !in newChild && (forall j :: 0 <= j < |newChild| ==> newChild[j] in d)
    requires Renumbered(d, m, newChild, 0, |newChild|, 0)
    ensures c in m && Renumbered(d, m[c := m[c].(index := |newChild|)], newChild + [c], 0, |newChild| + 1, 0)
  {
    var g := m[c := m[c].(index := |newChild|)];
    var more := newChild + [c];
    assert newChild[0..|newChild|] == newChild && more[0..|newChild| + 1] == more;
    assert m[c] == d[c];
    forall j | 0 <= j < |more| ensures g[more[j]] == d[more[j]].(index := j + 0) {
      if j < |newChild| {
        assert m[newChild[j]] == d[newChild[j]].(index := j + 0);
      }
    }
  }

  // ---- indenting the tree ----

  ghost predicate SameButChild(a: Token, b: Token) {
    b.parent == a.parent && if a.kind.Element? then b.kind.Element? && b.kind == a.kind.(child := b.kind.child) else b.kind == a.kind
  }

  /** Old tokens keep everything but their position and, for elements, their list; new tokens are indentation. */
  ghost predicate Steady(d: Doc, f: Doc) {
    && (forall x :: x in d ==> x in f && SameButChild(d[x], f[x]))
    && (forall x :: x in f && x !in d ==> IsSpace(f, x))
  }

  lemma SteadyTrans(d: Doc, m: Doc, f: Doc)
    requires Steady(d, m) && Steady(m, f)
    ensures Steady(d, f)
  {
    forall x | x in d ensures x in f && SameButChild(d[x], f[x]) {
      assert SameButChild(d[x], m[x]) && SameButChild(m[x], f[x]);
    }
    forall x | x in f && x !in d ensures IsSpace(f, x) {
      if x in m {
        assert SameButChild(m[x], f[x]);
      }
    }
  }

  lemma SteadyItems(d: Doc, f: Doc, c: seq<Id>)
    requires Steady(d, f) && forall i :: 0 <= i < |c| ==> c[i] in d
    ensures Items(f, c) == Items(d, c)
  {
    forall i | 0 <= i < |c| ensures ItemOf(f, c[i]) == ItemOf(d, c[i]) {
      var x := c[i];
      assert x in d;
      assert x in f && SameButChild(d[x], f[x]);
    }
  }

  lemma SteadyElements(d: Doc, f: Doc)
    requires Steady(d, f)
    ensures forall x :: x in d ==> IsElement(d, x) == IsElement(f, x)
    ensures forall x :: IsElement(f, x) ==> IsElement(d, x)
  {
    forall x | x in d ensures IsElement(d, x) == IsElement(f, x) {
      assert SameButChild(d[x], f[x]);
    }
  }

  /** The list of `x` in `f` is the laid-out list it has in `d`. */
  ghost predicate Laid(d: Doc, f: Doc, x: Id, depth: int, ind: int -> string) {
    IsElement(d, x) && IsElement(f, x) && View(f, x) == Layout(Strip(View(d, x)), depth, ind)
  }

  ghost predicate IndentedBelow(d: Doc, f: Doc, e: Id, depth: int, ind: int -> string) {
    forall x, k: nat :: IsElement(d, x) && At(d, e, x, k) ==> Laid(d, f, x, depth + k, ind)
  }

  ghost predicate SameList(d: Doc, f: Doc, x: Id) {
    IsElement(d, x) && IsElement(f, x) && Children(f, x) == Children(d, x)
  }

  ghost predicate Elsewhere(d: Doc, f: Doc, e: Id) {
    forall x :: IsElement(d, x) && !Under(d, e, x) ==> SameList(d, f, x)
  }

  ghost predicate Untouched(d: Doc, cs: seq<Id>, x: Id) {
    forall i :: 0 <= i < |cs| ==> !Under(d, cs[i], x)
  }

  /** The subtrees of the first `j` children are indented, the others and the rest of the document are as before. */
  ghost predicate Partial(d: Doc, m: Doc, e: Id, oc: seq<Id>, j: nat, depth: int, ind: int -> string) {
    && j <= |oc| && Steady(d, m)
    && (forall i :: 0 <= i < j ==> IndentedBelow(d, m, oc[i], depth + 1, ind))
    && (forall x :: IsElement(d, x) && x != e && Untouched(d, oc[..j], x) ==> SameList(d, m, x))
  }

  ghost predicate ChildrenOf(d: Doc, e: Id, oc: seq<Id>) {
    IsElement(d, e) && Distinct(oc) && forall i :: 0 <= i < |oc| ==> oc[i] in d && oc[i] in Children(d, e)
  }

  lemma SameListLaid(d: Doc, m: Doc, g: Doc, x: Id, depth: int, ind: int -> string)
    requires Linked(m) && Steady(m, g) && Laid(d, m, x, depth, ind) && SameList(m, g, x)
    ensures Laid(d, g, x, depth, ind)
  {
    ChildrenIn(m, x);
    SteadyItems(m, g, Children(m, x));
  }

  lemma LaidFromSame(d: Doc, m: Doc, g: Doc, x: Id, depth: int, ind: int -> string)
    requires Linked(d) && Steady(d, m) && SameList(d, m, x) && Laid(m, g, x, depth, ind)
    ensures Laid(d, g, x, depth, ind)
  {
    ChildrenIn(d, x);
    SteadyItems(d, m, Children(d, x));
  }

  /** The subtree of a child whose turn has not come is as it was. */
  lemma NotYet(d: Doc, m: Doc, e: Id, oc: seq<Id>, j: nat, depth: int, ind: int -> string, y: Id)
    requires Linked(d) && Free(d, oc, j + 1) && ChildrenOf(d, e, oc) && Partial(d, m, e, oc, j, depth, ind)
    requires j < |oc| && IsElement(d, y) && Under(d, oc[j], y)
    ensures y != e && Untouched(d, oc[..j], y) && SameList(d, m, y)
  {
    var k: nat :| At(d, oc[j], y, k);
    AboveChild(d, e, oc[j], k);
    forall i | 0 <= i < j ensures !Under(d, oc[i], y) {
      if Under(d, oc[i], y) {
        var l: nat :| At(d, oc[i], y, l);
        AtDisjoint(d, e, oc[i], oc[j], y, l, k);
      }
    }
  }

  lemma SameBelow(d: Doc, m: Doc, e: Id, oc: seq<Id>, j: nat, depth: int, ind: int -> string, x: Id, k: nat)
    requires Linked(d) && Linked(m) && Free(d, oc, j + 1) && ChildrenOf(d, e, oc) && Partial(d, m, e, oc, j, depth, ind)
    requires j < |oc| && IsElement(d, oc[j])
    ensures At(d, oc[j], x, k) <==> At(m, oc[j], x, k)
  {
    SteadyElements(d, m);
    forall y | IsElement(d, y) && Under(d, oc[j], y) ensures IsElement(m, y) && Children(m, y) == Children(d, y) {
      NotYet(d, m, e, oc, j, depth, ind, y);
    }
    hide Partial, Free;
    AtSame(d, m, oc[j], x, k);
  }

  lemma SameUnder(d: Doc, m: Doc, e: Id, oc: seq<Id>, j: nat, depth: int, ind: int -> string, x: Id)
    requires Linked(d) && Linked(m) && Free(d, oc, j + 1) && ChildrenOf(d, e, oc) && Partial(d, m, e, oc, j, depth, ind)
    requires j < |oc| && IsElement(d, oc[j]) && !Under(d, oc[j], x)
    ensures !Under(m, oc[j], x)
  {
    hide Partial, Free, ChildrenOf, Linked, At;
    if Under(m, oc[j], x) {
      var k: nat :| At(m, oc[j], x, k);
      SameBelow(d, m, e, oc, j, depth, ind, x, k);
    }
  }

  /** Indenting the subtree of child `j` moves the loop one child on. */
  lemma ElementStep(d: Doc, m: Doc, g: Doc, e: Id, oc: seq<Id>, j: nat, depth: int, ind: int -> string)
    requires Linked(d) && Linked(m) && Free(d, oc, j + 1) && ChildrenOf(d, e, oc) && Partial(d, m, e, oc, j, depth, ind)
    requires j < |oc| && IsElement(d, oc[j])
    requires Steady(m, g) && IndentedBelow(m, g, oc[j], depth + 1, ind) && Elsewhere(m, g, oc[j])
    ensures Partial(d, g, e, oc, j + 1, depth, ind) && SameList(m, g, e)
  {
    hide Free, Linked, At, Laid, Steady, SameList, IndentedBelow, Elsewhere, ChildrenOf, Untouched, Under;
    SteadyTrans(d, m, g);
    forall i | 0 <= i < j + 1 ensures IndentedBelow(d, g, oc[i], depth + 1, ind) {
      if i < j {
        DoneStays(d, m, g, e, oc, i, j, depth, ind);
      } else {
        DoneNow(d, m, g, e, oc, j, depth, ind);
      }
    }
    forall x | IsElement(d, x) && x != e && Untouched(d, oc[..j + 1], x) ensures SameList(d, g, x) {
      RestStays(d, m, g, e, oc, j, depth, ind, x);
    }
    ListStays(d, m, g, e, oc, j, depth, ind);
  }

  lemma RestStays(d: Doc, m: Doc, g: Doc, e: Id, oc: seq<Id>, j: nat, depth: int, ind: int -> string, x: Id)
    requires Linked(d) && Linked(m) && Free(d, oc, j + 1) && ChildrenOf(d, e, oc) && Partial(d, m, e, oc, j, depth, ind)
    requires j < |oc| && IsElement(d, oc[j]) && Elsewhere(m, g, oc[j])
    requires IsElement(d, x) && x != e && Untouched(d, oc[..j + 1], x)
    ensures SameList(d, g, x)
  {
    hide Free, Linked, At, Steady, IndentedBelow, ChildrenOf;
    assert oc[..j + 1][j] == oc[j];
    assert forall i :: 0 <= i < j ==> oc[..j + 1][i] == oc[..j][i];
    assert SameList(d, m, x);
    SameUnder(d, m, e, oc, j, depth, ind, x);
  }

  lemma ListStays(d: Doc, m: Doc, g: Doc, e: Id, oc: seq<Id>, j: nat, depth: int, ind: int -> string)
    requires Linked(d) && Linked(m) && Free(d, oc, j + 1) && ChildrenOf(d, e, oc) && Partial(d, m, e, oc, j, depth, ind)
    requires j < |oc| && IsElement(d, oc[j]) && Elsewhere(m, g, oc[j])
    ensures SameList(m, g, e)
  {
    assert Steady(d, m) && IsElement(d, e);
    SteadyElements(d, m);
    hide Free, Linked, At, Steady, IndentedBelow, ChildrenOf, Partial;
    NotOver(d, e, oc, j);
    SameUnder(d, m, e, oc, j, depth, ind, e);
  }

  lemma NotOver(d: Doc, e: Id, oc: seq<Id>, j: nat)
    requires Linked(d) && Free(d, oc, j + 1) && ChildrenOf(d, e, oc) && j < |oc|
    ensures !Under(d, oc[j], e)
  {
    if Under(d, oc[j], e) {
      var k: nat :| At(d, oc[j], e, k);
      AboveChild(d, e, oc[j], k);
    }
  }

  lemma DoneStays(d: Doc, m: Doc, g: Doc, e: Id, oc: seq<Id>, i: nat, j: nat, depth: int, ind: int -> string)
    requires Linked(d) && Linked(m) && Free(d, oc, j + 1) && ChildrenOf(d, e, oc) && Partial(d, m, e, oc, j, depth, ind)
    requires i < j < |oc| && IsElement(d, oc[j]) && Steady(m, g) && Elsewhere(m, g, oc[j])
    ensures IndentedBelow(d, g, oc[i], depth + 1, ind)
  {
    hide Linked, Free, ChildrenOf, Laid, Steady, Elsewhere, At;
    forall x, k: nat | IsElement(d, x) && At(d, oc[i], x, k) ensures Laid(d, g, x, depth + 1 + k, ind) {
      LaidAt(d, m, oc[i], depth + 1, ind, x, k);
      NotUnderOther(d, e, oc, i, j, x, k);
      StillLaid(d, m, g, e, oc, j, depth, ind, x, depth + 1 + k);
    }
  }

  lemma NotUnderOther(d: Doc, e: Id, oc: seq<Id>, i: nat, j: nat, x: Id, k: nat)
    requires Linked(d) && Free(d, oc, j + 1) && ChildrenOf(d, e, oc) && i < j < |oc| && IsElement(d, x) && At(d, oc[i], x, k)
    ensures !Under(d, oc[j], x)
  {
    if Under(d, oc[j], x) {
      var l: nat :| At(d, oc[j], x, l);
      AtDisjoint(d, e, oc[i], oc[j], x, k, l);
    }
  }

  lemma StillLaid(d: Doc, m: Doc, g: Doc, e: Id, oc: seq<Id>, j: nat, depth: int, ind: int -> string,
                  x: Id, at: int)
    requires Linked(d) && Linked(m) && Free(d, oc, j + 1) && ChildrenOf(d, e, oc) && Partial(d, m, e, oc, j, depth, ind)
    requires j < |oc| && IsElement(d, oc[j]) && Steady(m, g) && Elsewhere(m, g, oc[j])
    requires Laid(d, m, x, at, ind) && !Under(d, oc[j], x)
    ensures Laid(d, g, x, at, ind)
  {
    hide Linked, Free, ChildrenOf, Partial, Steady, Under, Layout, Strip, View;
    assert IsElement(m, x);
    SameUnder(d, m, e, oc, j, depth, ind, x);
    assert SameList(m, g, x);
    SameListLaid(d, m, g, x, at, ind);
  }

  lemma DoneNow(d: Doc, m: Doc, g: Doc, e: Id, oc: seq<Id>, j: nat, depth: int, ind: int -> string)
    requires Linked(d) && Linked(m) && Free(d, oc, j + 1) && ChildrenOf(d, e, oc) && Partial(d, m, e, oc, j, depth, ind)
    requires j < |oc| && IsElement(d, oc[j]) && IndentedBelow(m, g, oc[j], depth + 1, ind)
    ensures IndentedBelow(d, g, oc[j], depth + 1, ind)
  {
    forall x, k: nat | IsElement(d, x) && At(d, oc[j], x, k) ensures Laid(d, g, x, depth + 1 + k, ind) {
      hide Linked, Free, ChildrenOf, Partial, Laid, At;
      DoneNowAt(d, m, g, e, oc, j, depth, ind, x, k);
    }
  }

  lemma DoneNowAt(d: Doc, m: Doc, g: Doc, e: Id, oc: seq<Id>, j: nat, depth: int, ind: int -> string,
                  x: Id, k: nat)
    requires Linked(d) && Linked(m) && Free(d, oc, j + 1) && ChildrenOf(d, e, oc) && Partial(d, m, e, oc, j, depth, ind)
    requires j < |oc| && IsElement(d, oc[j]) && IndentedBelow(m, g, oc[j], depth + 1, ind)
    requires IsElement(d, x) && At(d, oc[j], x, k)
    ensures Laid(d, g, x, depth + 1 + k, ind)
  {
    hide Linked, Free, ChildrenOf, Partial, Laid, Steady, At, Under, IndentedBelow, SameList;
    PartialSteady(d, m, e, oc, j, depth, ind);
    SameBelow(d, m, e, oc, j, depth, ind, x, k);
    AtUnder(d, oc[j], x, k);
    NotYetSame(d, m, e, oc, j, depth, ind, x);
    LaidAt(m, g, oc[j], depth + 1, ind, x, k);
    LaidFromSame(d, m, g, x, depth + 1 + k, ind);
  }

  lemma NotYetSame(d: Doc, m: Doc, e: Id, oc: seq<Id>, j: nat, depth: int, ind: int -> string, y: Id)
    requires Linked(d) && Free(d, oc, j + 1) && ChildrenOf(d, e, oc) && Partial(d, m, e, oc, j, depth, ind)
    requires j < |oc| && IsElement(d, y) && Under(d, oc[j], y)
    ensures SameList(d, m, y) && IsElement(m, y)
  {
    hide Linked, Free, ChildrenOf, Partial, Under, Untouched;
    NotYet(d, m, e, oc, j, depth, ind, y);
  }

  lemma PartialSteady(d: Doc, m: Doc, e: Id, oc: seq<Id>, j: nat, depth: int, ind: int -> string)
    requires Partial(d, m, e, oc, j, depth, ind)
    ensures Steady(d, m)
  {
  }

  lemma AtUnder(d: Doc, e: Id, x: Id, k: nat)
    requires At(d, e, x, k)
    ensures Under(d, e, x)
  {
  }

  lemma LaidAt(m: Doc, g: Doc, e: Id, depth: int, ind: int -> string, x: Id, k: nat)
    requires IndentedBelow(m, g, e, depth, ind) && IsElement(m, x) && At(m, e, x, k)
    ensures Laid(m, g, x, depth + k, ind)
  {
  }

  /** `g` is `m` with `t`, possibly a new token, as the last child of `e`. */
  ghost predicate Grown(m: Doc, g: Doc, e: Id, t: Id) {
    && IsElement(m, e) && g.Keys == m.Keys + {t} && g[t].parent == Some(e)
    && (forall x :: x in m ==> g[x].kind == if x == e then Rekind(m[x].kind, Children(m, e) + [t]) else m[x].kind)
    && (forall x :: x in m && x != t ==> g[x].parent == m[x].parent)
  }

  lemma AppendedGrown(m: Doc, g: Doc, e: Id, t: Id)
    requires IsElement(m, e) && t in m && InsertedAt(m, g, e, t, |Children(m, e)|)
    ensures Grown(m, g, e, t)
  {
    var c := Children(m, e);
    assert c[..|c|] + [t] + c[|c|..] == c + [t];
    forall x | x in m
      ensures g[x].kind == if x == e then Rekind(m[x].kind, c + [t]) else m[x].kind
      ensures x != t ==> g[x].parent == m[x].parent
    {
      assert g[x] == InsertedToken(m, e, t, |c|, x);
    }
  }

  lemma GrownView(m: Doc, g: Doc, e: Id, t: Id)
    requires Linked(m) && Grown(m, g, e, t)
    ensures IsElement(g, e) && Children(g, e) == Children(m, e) + [t]
    ensures View(g, e) == View(m, e) + [ItemOf(g, t)]
  {
    ChildrenIn(m, e);
    var c := Children(m, e);
    forall i | 0 <= i < |c| ensures ItemOf(g, c[i]) == ItemOf(m, c[i]) {
      var x := c[i];
      assert x in m;
      assert g[x].kind == if x == e then Rekind(m[x].kind, c + [t]) else m[x].kind;
    }
  }

  lemma GrownSteady(d: Doc, m: Doc, g: Doc, e: Id, t: Id)
    requires Steady(d, m) && Grown(m, g, e, t)
    requires if t in m then t in d && m[t].parent == Some(e) else IsSpace(g, t)
    ensures Steady(d, g) && forall x :: IsElement(m, x) && x != e ==> SameList(m, g, x)
  {
    forall x | x in d ensures x in g && SameButChild(d[x], g[x]) {
      assert x in m && SameButChild(d[x], m[x]);
      assert g[x].kind == if x == e then Rekind(m[x].kind, Children(m, e) + [t]) else m[x].kind;
    }
    forall x | x in g && x !in d ensures IsSpace(g, x) {
      if x in m {
        assert IsSpace(m, x) && g[x].kind == m[x].kind;
      }
    }
  }

  /** Adding to the list of `e` itself does not disturb the subtrees of its children. */
  lemma GrownPartial(d: Doc, m: Doc, g: Doc, e: Id, t: Id, oc: seq<Id>, j: nat, depth: int, ind: int -> string)
    requires Linked(d) && Linked(m) && Free(d, oc, j) && ChildrenOf(d, e, oc) && Partial(d, m, e, oc, j, depth, ind)
    requires Grown(m, g, e, t) && if t in m then t in d && m[t].parent == Some(e) else IsSpace(g, t)
    ensures Partial(d, g, e, oc, j, depth, ind)
  {
    hide Grown, Linked, Open, ChildrenOf, Laid, Steady, At, OnlyGrown, Under, IsSpace;
    GrownSteady(d, m, g, e, t);
    GrownOnly(m, g, e, t);
    SteadyElements(d, m);
    forall i | 0 <= i < j ensures IndentedBelow(d, g, oc[i], depth + 1, ind) {
      forall x, k: nat | IsElement(d, x) && At(d, oc[i], x, k) ensures Laid(d, g, x, depth + 1 + k, ind) {
        LaidAt(d, m, oc[i], depth + 1, ind, x, k);
        NotParent(d, e, oc, i, x, k);
        LaidGrown(d, m, g, x, depth + 1 + k, ind);
      }
    }
    forall x | IsElement(d, x) && x != e && Untouched(d, oc[..j], x) ensures SameList(d, g, x) {
      assert SameList(d, m, x) && SameList(m, g, x);
    }
  }

  lemma NotParent(d: Doc, e: Id, oc: seq<Id>, i: nat, x: Id, k: nat)
    requires Linked(d) && ChildrenOf(d, e, oc) && i < |oc| && Open(d, oc[i]) && At(d, oc[i], x, k)
    ensures x != e
  {
    AboveChild(d, e, oc[i], k);
  }

  ghost predicate OnlyGrown(m: Doc, g: Doc) {
    forall x :: x in m ==> x in g && ItemOf(m, x) == ItemOf(g, x)
  }

  lemma GrownOnly(m: Doc, g: Doc, e: Id, t: Id)
    requires Grown(m, g, e, t)
    ensures OnlyGrown(m, g)
  {
  }

  lemma LaidGrown(d: Doc, m: Doc, g: Doc, x: Id, depth: int, ind: int -> string)
    requires Linked(m) && OnlyGrown(m, g) && Laid(d, m, x, depth, ind) && SameList(m, g, x)
    ensures Laid(d, g, x, depth, ind)
  {
    ChildrenIn(m, x);
    var c := Children(m, x);
    assert Items(g, c) == Items(m, c) by {
      forall i | 0 <= i < |c| ensures ItemOf(g, c[i]) == ItemOf(m, c[i]) {
        var y := c[i];
        assert y in m;
      }
    }
  }

  /** `newCharData` with the whitespace flag, unless the indentation is empty. */
  method NewSpace(f: Forest, e: Id, s: string, next: Id) returns (nxt: Id)
    requires Sound(f.doc) && IsElement(f.doc, e) && forall x :: x in f.doc ==> x < next
    modifies f
    ensures Sound(f.doc) && next <= nxt && forall x :: x in f.doc ==> x < nxt
    ensures s == "" ==> f.doc == old(f.doc)
    ensures s != "" ==> Grown(old(f.doc), f.doc, e, next) && ItemOf(f.doc, next) == Space(s)
  {
    nxt := next;
    if s == "" {
      return;
    }
    nxt := next + 1;
    ghost var m := f.doc;
    FreshSound(m, next, s, true);
    FreshNoSlot(m, next, Token(CharData(s, true), None, -1));
    f.doc := f.doc[next := Token(CharData(s, true), None, -1)];
    ghost var mid := f.doc;
    hide Sound, KeepsPlaces, NoSlot, InsertedAt;
    f.Append(e, next);
    AppendedGrown(mid, f.doc, e, next);
    hide Grown;
    FreshGrown(m, mid, f.doc, e, next, s);
  }

  lemma FreshGrown(m: Doc, mid: Doc, g: Doc, e: Id, t: Id, s: string)
    requires IsElement(m, e) && t !in m && mid == m[t := Token(CharData(s, true), None, -1)] && Grown(mid, g, e, t)
    requires forall x :: x in m ==> x < t
    ensures Grown(m, g, e, t) && ItemOf(g, t) == Space(s) && forall x :: x in g ==> x < t + 1
  {
    forall x | x in m
      ensures g[x].kind == (if x == e then Rekind(m[x].kind, Children(m, e) + [t]) else m[x].kind) && g[x].parent == m[x].parent
    {
      assert x in mid;
    }
  }

  lemma FreshNoSlot(m: Doc, t: Id, tok: Token)
    requires Sound(m) && t !in m && !tok.kind.Element?
    ensures NoSlot(m[t := tok], t)
  {
    var f := m[t := tok];
    forall q | IsElement(f, q) ensures t !in Children(f, q) {
      ChildrenIn(m, q);
      assert Children(f, q) == Children(m, q);
    }
  }

  // ---- the loop over the children ----

  /** Where the loop over the stripped children `oc` of `e` stands after `j` of them. */
  ghost predicate Indenting(d: Doc, m: Doc, e: Id, oc: seq<Id>, j: nat, depth: int, ind: int -> string) {
    && Linked(d) && Free(d, oc, j) && ChildrenOf(d, e, oc) && Sound(m)
    && Partial(d, m, e, oc, j, depth, ind) && IsElement(m, e)
    && (forall i :: 0 <= i < |Children(m, e)| ==> Children(m, e)[i] in oc[..j] || Children(m, e)[i] !in d)
  }

  lemma NextHasNoSlot(d: Doc, m: Doc, e: Id, oc: seq<Id>, j: nat, depth: int, ind: int -> string)
    requires Indenting(d, m, e, oc, j, depth, ind) && j < |oc|
    ensures oc[j] in d && oc[j] in m && m[oc[j]].parent == Some(e) && NoSlot(m, oc[j])
    ensures SameButChild(d[oc[j]], m[oc[j]])
  {
    var c := oc[j];
    assert c in d;
    assert c in m && SameButChild(d[c], m[c]);
    InSlot(d, e, c);
    forall q | IsElement(m, q) ensures c !in Children(m, q) {
      if c in Children(m, q) {
        InSlot(m, q, c);
      }
    }
  }

  lemma SpaceAdded(d: Doc, m: Doc, g: Doc, e: Id, t: Id, s: string, oc: seq<Id>, j: nat,
                   depth: int, ind: int -> string)
    requires Indenting(d, m, e, oc, j, depth, ind) && Sound(g)
    requires Grown(m, g, e, t) && t !in m && ItemOf(g, t) == Space(s)
    ensures Indenting(d, g, e, oc, j, depth, ind) && View(g, e) == View(m, e) + [Space(s)]
  {
    GrownView(m, g, e, t);
    assert IsSpace(g, t);
    assert t !in d by {
      assert Steady(d, m);
    }
    GrownPartial(d, m, g, e, t, oc, j, depth, ind);
  }

  lemma ChildAdded(d: Doc, m: Doc, g: Doc, e: Id, oc: seq<Id>, j: nat, depth: int, ind: int -> string)
    requires Indenting(d, m, e, oc, j, depth, ind) && Sound(g) && j < |oc|
    requires oc[j] in m && Grown(m, g, e, oc[j])
    ensures IsElement(g, e) && Partial(d, g, e, oc, j, depth, ind) && Linked(g)
    ensures oc[j] in d && View(g, e) == View(m, e) + [ItemOf(d, oc[j])]
    ensures forall i :: 0 <= i < |Children(g, e)| ==> Children(g, e)[i] in oc[..j + 1] || Children(g, e)[i] !in d
  {
    NextHasNoSlot(d, m, e, oc, j, depth, ind);
    GrownView(m, g, e, oc[j]);
    GrownPartial(d, m, g, e, oc[j], oc, j, depth, ind);
    SteadyItems(d, g, [oc[j]]);
    assert Items(g, [oc[j]])[0] == ItemOf(g, oc[j]) && Items(d, [oc[j]])[0] == ItemOf(d, oc[j]);
    assert oc[..j + 1] == oc[..j] + [oc[j]];
  }

  /** A child that is no element has no subtree to indent. */
  lemma LeafStep(d: Doc, g: Doc, e: Id, oc: seq<Id>, j: nat, depth: int, ind: int -> string)
    requires Partial(d, g, e, oc, j, depth, ind) && j < |oc| && !IsElement(d, oc[j])
    ensures Partial(d, g, e, oc, j + 1, depth, ind)
  {
    var c := oc[j];
    forall x, k: nat | IsElement(d, x) ensures !At(d, c, x, k) {
      NoneBelowLeaf(d, c, x, k);
    }
    forall x | IsElement(d, x) && x != e && Untouched(d, oc[..j + 1], x) ensures SameList(d, g, x) {
      assert forall i :: 0 <= i < j ==> oc[..j + 1][i] == oc[..j][i];
    }
  }

  lemma {:induction false} NoneBelowLeaf(d: Doc, c: Id, x: Id, k: nat)
    requires !IsElement(d, c) && IsElement(d, x)
    ensures !At(d, c, x, k)
    decreases k
  {
    if k > 0 && At(d, c, x, k) {
      NoneBelowLeaf(d, c, d[x].parent.value, k - 1);
    }
  }

  /** Emptying the list of `e` leaves a steady document in which nothing else has changed. */
  lemma EmptiedSteady(d: Doc, m: Doc, e: Id, oc: seq<Id>)
    requires IsElement(d, e) && Relisted(d, m, e, oc)
    ensures IsElement(m, e) && Children(m, e) == oc
    ensures var g := m[e := WithChild(m[e], [])];
      Steady(d, g) && IsElement(g, e) && Children(g, e) == [] && forall x :: IsElement(d, x) && x != e ==> SameList(d, g, x)
  {
    assert m[e].kind == Rekind(d[e].kind, oc);
    var g := m[e := WithChild(m[e], [])];
    forall x | x in d ensures x in g && SameButChild(d[x], g[x]) {
      assert m[x].kind == if x == e then Rekind(d[x].kind, oc) else d[x].kind;
    }
    forall x | IsElement(d, x) && x != e ensures SameList(d, g, x) {
      assert m[x].kind == d[x].kind;
    }
  }

  lemma EmptiedSound(m: Doc, e: Id)
    requires Sound(m) && IsElement(m, e)
    ensures Sound(m[e := WithChild(m[e], [])])
  {
    assert Renumbered(m, m, [], 0, 0, 0);
    SublistSound(m, m, e, []);
  }

  lemma SolidOf(d: Doc, e: Id)
    requires Sound(d) && IsElement(d, e)
    ensures ChildrenOf(d, e, Solid(d, Children(d, e)))
  {
    ChildrenDistinct(d, e);
    SolidDistinct(d, Children(d, e));
    SolidChildren(d, e);
  }

  /** The list is emptied before the loop; nothing else changes. */
  lemma LoopStart(d: Doc, m: Doc, e: Id, depth: int, ind: int -> string)
    requires Sound(d) && IsElement(d, e) && Sound(m)
    requires Relisted(d, m, e, Solid(d, Children(d, e)))
    ensures IsElement(m, e) && Children(m, e) == Solid(d, Children(d, e))
    ensures Indenting(d, m[e := WithChild(m[e], [])], e, Solid(d, Children(d, e)), 0, depth, ind)
    ensures View(m[e := WithChild(m[e], [])], e) == []
  {
    hide Sound, Relisted, Solid, ChildrenOf, Steady, SameList, WithChild, IsElement, Linked;
    SoundLinked(d);
    SolidOf(d, e);
    EmptiedSteady(d, m, e, Solid(d, Children(d, e)));
    EmptiedSound(m, e);
  }

  lemma NothingLeft(d: Doc, m: Doc, e: Id, depth: int, ind: int -> string)
    requires Sound(d) && IsElement(d, e) && Sound(m)
    requires Relisted(d, m, e, []) && Solid(d, Children(d, e)) == []
    ensures Indenting(d, m, e, [], 0, depth, ind) && View(m, e) == Layout(Items(d, []), depth, ind)
  {
    LoopStart(d, m, e, depth, ind);
    assert m[e := WithChild(m[e], [])] == m;
  }

  lemma ItemsNext(d: Doc, oc: seq<Id>, j: nat)
    requires j < |oc|
    ensures Items(d, oc[..j + 1]) == Items(d, oc[..j]) + [ItemOf(d, oc[j])]
  {
  }

  lemma LinesNext(v: seq<Item>, x: Item, depth: int, ind: int -> string)
    ensures Lines(v + [x], depth, ind) == Lines(v, depth, ind) + Break(v, x, depth, ind) + [x]
    ensures AnyTag(v + [x]) <==> AnyTag(v) || (x.Keep? && !x.text)
  {
    assert (v + [x])[..|v|] == v;
    if AnyTag(v) {
      var i :| 0 <= i < |v| && v[i].Keep? && !v[i].text;
      assert (v + [x])[i] == v[i];
    }
    assert (v + [x])[|v|] == x;
  }

  lemma AllLaid(d: Doc, m: Doc, e: Id, oc: seq<Id>, depth: int, ind: int -> string, x: Id, k: nat)
    requires Indenting(d, m, e, oc, |oc|, depth, ind) && oc == Solid(d, Children(d, e))
    requires View(m, e) == Layout(Items(d, oc), depth, ind) && IsElement(d, x) && At(d, e, x, k)
    ensures Laid(d, m, x, depth + k, ind)
  {
    hide Layout, Items, Strip, Solid;
    if k == 0 {
      SolidItems(d, Children(d, e));
    } else {
      var c := AtSplit(d, e, x, k - 1);
      SolidIn(d, Children(d, e), c);
      var i :| 0 <= i < |oc| && oc[i] == c;
      assert IndentedBelow(d, m, oc[i], depth + 1, ind);
      assert Laid(d, m, x, depth + 1 + (k - 1), ind);
    }
  }

  lemma RestSame(d: Doc, m: Doc, e: Id, oc: seq<Id>, depth: int, ind: int -> string, x: Id)
    requires Indenting(d, m, e, oc, |oc|, depth, ind) && IsElement(d, x) && !Under(d, e, x)
    ensures SameList(d, m, x)
  {
    hide IndentedBelow;
    assert At(d, e, e, 0);
    assert oc[..|oc|] == oc;
    forall i | 0 <= i < |oc| ensures !Under(d, oc[i], x) {
      if Under(d, oc[i], x) {
        var k: nat :| At(d, oc[i], x, k);
        AtAdd(d, e, oc[i], x, k);
      }
    }
  }

  /** What the loop leaves is what the property asks for. */
  lemma LoopEnd(d: Doc, m: Doc, e: Id, oc: seq<Id>, depth: int, ind: int -> string)
    requires Indenting(d, m, e, oc, |oc|, depth, ind) && oc == Solid(d, Children(d, e))
    requires View(m, e) == Layout(Items(d, oc), depth, ind)
    ensures IndentedBelow(d, m, e, depth, ind) && Elsewhere(d, m, e) && Steady(d, m) && Sound(m) && Open(d, e)
  {
    assert Steady(d, m) && Sound(m);
    ChildrenOpen(d, e);
    hide Indenting, At, Laid, SameList, Steady, Solid, Layout;
    forall x, k: nat | IsElement(d, x) && At(d, e, x, k) ensures Laid(d, m, x, depth + k, ind) {
      AllLaid(d, m, e, oc, depth, ind, x, k);
    }
    forall x | IsElement(d, x) && !Under(d, e, x) ensures SameList(d, m, x) {
      RestSame(d, m, e, oc, depth, ind, x);
    }
  }

  ghost predicate Beyond(d: Doc, next: Id) {
    forall x :: x in d ==> x < next
  }

  /** A line break at the end of the list, unless the indentation is empty. */
  method NewLine(f: Forest, e: Id, s: string, next: Id, ghost d: Doc, ghost oc: seq<Id>, ghost j: nat,
                 depth: int, ind: int -> string) returns (nxt: Id)
    requires Indenting(d, f.doc, e, oc, j, depth, ind) && Beyond(f.doc, next)
    modifies f
    ensures Indenting(d, f.doc, e, oc, j, depth, ind) && Beyond(f.doc, nxt)
    ensures IsElement(f.doc, e) && View(f.doc, e) == old(View(f.doc, e)) + Gap(s)
  {
    ghost var m := f.doc;
    nxt := NewSpace(f, e, s, next);
    hide Indenting, Grown;
    if s != "" {
      SpaceAdded(d, m, f.doc, e, next, s, oc, j, depth, ind);
    } else {
      assert View(m, e) + [] == View(m, e);
    }
  }

  /** Child `j` is in the list again, its subtree not yet indented. */
  ghost predicate Appended(d: Doc, m: Doc, e: Id, oc: seq<Id>, j: nat, depth: int, ind: int -> string) {
    && Linked(d) && Free(d, oc, j) && ChildrenOf(d, e, oc) && Sound(m) && j < |oc|
    && Partial(d, m, e, oc, j, depth, ind) && IsElement(m, e)
    && (forall i :: 0 <= i < |Children(m, e)| ==> Children(m, e)[i] in oc[..j + 1] || Children(m, e)[i] !in d)
    && View(m, e) == Lines(Items(d, oc[..j + 1]), depth, ind)
  }

  lemma ToAppended(d: Doc, m: Doc, g: Doc, e: Id, oc: seq<Id>, j: nat, depth: int, ind: int -> string, next: Id)
    requires Indenting(d, m, e, oc, j, depth, ind) && Sound(g) && j < |oc| && Beyond(m, next)
    requires oc[j] in m && InsertedAt(m, g, e, oc[j], |Children(m, e)|)
    requires View(m, e) == Lines(Items(d, oc[..j]), depth, ind) + Break(Items(d, oc[..j]), ItemOf(d, oc[j]), depth, ind)
    ensures Appended(d, g, e, oc, j, depth, ind) && Beyond(g, next)
  {
    AppendedGrown(m, g, e, oc[j]);
    ChildAdded(d, m, g, e, oc, j, depth, ind);
    hide Partial, InsertedAt, Lines, Break, Items;
    ItemsNext(d, oc, j);
    LinesNext(Items(d, oc[..j]), ItemOf(d, oc[j]), depth, ind);
  }

  lemma NextChild(d: Doc, m: Doc, e: Id, oc: seq<Id>, j: nat, depth: int, ind: int -> string)
    requires Indenting(d, m, e, oc, j, depth, ind) && j < |oc| && !IsSpace(d, oc[j])
    ensures var c := oc[j]; c in d && c in m && NoSlot(m, c) && ItemOf(d, c) == Keep(c, m[c].kind.CharData?)
    ensures IsElement(d, oc[j]) == IsElement(m, oc[j]) && Sound(m) && IsElement(m, e)
  {
    NextHasNoSlot(d, m, e, oc, j, depth, ind);
  }

  /** The first half of a turn: the line break and the child itself. */
  method AppendNext(f: Forest, e: Id, c: Id, first: bool, next: Id, ghost d: Doc,
                    ghost oc: seq<Id>, ghost j: nat, depth: int, ind: int -> string)
    returns (nxt: Id, isCharData: bool, firstNonCharData: bool)
    requires Indenting(d, f.doc, e, oc, j, depth, ind) && Beyond(f.doc, next)
    requires j < |oc| && c == oc[j] && !IsSpace(d, c) && first == !AnyTag(Items(d, oc[..j]))
    requires View(f.doc, e) == Lines(Items(d, oc[..j]), depth, ind)
    modifies f
    ensures Appended(d, f.doc, e, oc, j, depth, ind) && Beyond(f.doc, nxt) && c in f.doc
    ensures ItemOf(d, c) == Keep(c, isCharData) && firstNonCharData == !AnyTag(Items(d, oc[..j + 1]))
    ensures IsElement(d, c) == IsElement(f.doc, c)
  {
    hide Indenting, Lines, Items, AnyTag, Beyond, Appended, InsertedAt, Sound, View, NoSlot, ItemOf;
    ghost var v, item := Items(d, oc[..j]), ItemOf(d, c);
    NextChild(d, f.doc, e, oc, j, depth, ind);
    nxt, firstNonCharData := next, first;
    isCharData := f.doc[c].kind.CharData?;
    if !isCharData {
      if !first || depth > 0 {
        nxt := NewLine(f, e, ind(depth), next, d, oc, j, depth, ind);
      }
      firstNonCharData := false;
    }
    assert View(f.doc, e) == Lines(v, depth, ind) + Break(v, item, depth, ind);
    NextChild(d, f.doc, e, oc, j, depth, ind);
    ItemsNext(d, oc, j);
    LinesNext(v, item, depth, ind);
    ghost var m := f.doc;
    f.Append(e, c);
    ToAppended(d, m, f.doc, e, oc, j, depth, ind, nxt);
    AppendedElement(d, f.doc, e, oc, j, depth, ind);
  }

  lemma AppendedElement(d: Doc, m: Doc, e: Id, oc: seq<Id>, j: nat, depth: int, ind: int -> string)
    requires Appended(d, m, e, oc, j, depth, ind)
    ensures oc[j] in d && oc[j] in m && IsElement(d, oc[j]) == IsElement(m, oc[j])
    ensures Sound(m) && Free(d, oc, j)
  {
    SteadyElements(d, m);
    assert oc[j] in d;
  }

  lemma TurnElement(d: Doc, m: Doc, g: Doc, e: Id, oc: seq<Id>, j: nat, depth: int, ind: int -> string)
    requires Appended(d, m, e, oc, j, depth, ind) && IsElement(d, oc[j]) && Open(d, oc[j]) && Sound(g)
    requires Steady(m, g) && IndentedBelow(m, g, oc[j], depth + 1, ind) && Elsewhere(m, g, oc[j])
    ensures Indenting(d, g, e, oc, j + 1, depth, ind)
    ensures View(g, e) == Lines(Items(d, oc[..j + 1]), depth, ind)
  {
    ElementStep(d, m, g, e, oc, j, depth, ind);
    ChildrenIn(m, e);
    SteadyItems(m, g, Children(m, e));
  }

  lemma TurnLeaf(d: Doc, m: Doc, e: Id, oc: seq<Id>, j: nat, depth: int, ind: int -> string)
    requires Appended(d, m, e, oc, j, depth, ind) && !IsElement(d, oc[j])
    ensures Indenting(d, m, e, oc, j + 1, depth, ind)
    ensures View(m, e) == Lines(Items(d, oc[..j + 1]), depth, ind)
  {
    LeafStep(d, m, e, oc, j, depth, ind);
    LeafOpen(d, oc[j]);
  }

  lemma LeafOpen(d: Doc, c: Id)
    requires !IsElement(d, c)
    ensures Open(d, c)
  {
    forall k: nat | k > 0 ensures !At(d, c, c, k) {
      if At(d, c, c, k) {
        NoneBelowLeaf(d, c, d[c].parent.value, k - 1);
      }
    }
  }

  lemma StripBeyond(d: Doc, m: Doc, e: Id, c: seq<Id>, next: Id)
    requires Relisted(d, m, e, c) && Beyond(d, next) && e in m
    ensures Beyond(m, next) && Beyond(m[e := WithChild(m[e], [])], next)
  {
  }

  lemma LastItem(d: Doc, oc: seq<Id>, depth: int, ind: int -> string, isCharData: bool)
    requires oc != [] && ItemOf(d, oc[|oc| - 1]) == Keep(oc[|oc| - 1], isCharData)
    ensures oc[..|oc|] == oc
    ensures Layout(Items(d, oc), depth, ind) == Lines(Items(d, oc), depth, ind) + if isCharData then [] else Gap(ind(depth - 1))
    ensures !isCharData ==> AnyTag(Items(d, oc))
  {
    hide Lines;
    assert Items(d, oc)[|oc| - 1] == Keep(oc[|oc| - 1], isCharData);
  }

  lemma AllSolid(d: Doc, c: seq<Id>)
    ensures forall i :: 0 <= i < |Solid(d, c)| ==> !IsSpace(d, Solid(d, c)[i])
  {
    forall i | 0 <= i < |Solid(d, c)| ensures !IsSpace(d, Solid(d, c)[i]) {
      SolidIn(d, c, Solid(d, c)[i]);
    }
  }

  lemma NoLines(d: Doc, oc: seq<Id>, depth: int, ind: int -> string)
    ensures Lines(Items(d, oc[..0]), depth, ind) == [] && !AnyTag(Items(d, oc[..0]))
  {
  }

  // ---- when indentation ends ----

  /** No element lies `limit` levels below `e`, or deeper. */
  ghost predicate Shallow(d: Doc, e: Id, limit: nat) {
    forall x, k: nat :: IsElement(d, x) && At(d, e, x, k) ==> k < limit
  }

  lemma {:induction false} DepthOnce(d: Doc, e: Id, x: Id, i: nat, k: nat)
    requires Open(d, e) && At(d, e, x, i) && At(d, e, x, k)
    ensures i == k
    decreases i
  {
    if i > 0 && k > 0 {
      DepthOnce(d, e, d[x].parent.value, i - 1, k - 1);
    }
  }

  ghost predicate Within(d: Doc, e: Id, x: Id, k: nat) {
    exists i: nat :: i <= k && At(d, e, x, i)
  }

  /** The elements on the way up from `x`, as many as there are levels. */
  lemma {:induction false} WayUp(d: Doc, e: Id, x: Id, k: nat) returns (s: set<Id>)
    requires Open(d, e) && IsElement(d, x) && At(d, e, x, k)
    ensures |s| == k + 1 && s <= d.Keys && forall y :: y in s ==> Within(d, e, y, k)
    decreases k
  {
    if k == 0 {
      s := {x};
    } else {
      var s' := WayUp(d, e, d[x].parent.value, k - 1);
      if x in s' {
        assert Within(d, e, x, k - 1);
        var i: nat :| i <= k - 1 && At(d, e, x, i);
        DepthOnce(d, e, x, i, k);
      }
      s := s' + {x};
      assert forall y :: y in s' ==> Within(d, e, y, k - 1);
    }
  }

  lemma SubsetSize<T>(s: set<T>, t: set<T>)
    requires s <= t
    ensures |s| <= |t|
  {
    assert t == s + (t - s);
  }

  /** Off the cycles, an element has no more levels below it than there are tokens. */
  lemma OpenShallow(d: Doc, e: Id)
    requires Open(d, e)
    ensures Shallow(d, e, |d|)
  {
    forall x, k: nat | IsElement(d, x) && At(d, e, x, k) ensures k < |d| {
      var s := WayUp(d, e, x, k);
      SubsetSize(s, d.Keys);
    }
  }

  /** An element is open exactly if all its children are. */
  lemma OpenChild(d: Doc, e: Id, c: Id)
    requires Linked(d) && IsElement(d, e) && c in Children(d, e) && Open(d, e)
    ensures Open(d, c)
  {
    InSlot(d, e, c);
    forall k: nat | k > 0 ensures !At(d, c, c, k) {
      if At(d, c, c, k) {
        AtAdd(d, e, c, e, k - 1);
      }
    }
  }

  lemma ChildrenOpen(d: Doc, e: Id)
    requires Linked(d) && IsElement(d, e) && Free(d, Solid(d, Children(d, e)), |Solid(d, Children(d, e))|)
    ensures Open(d, e)
  {
    var oc := Solid(d, Children(d, e));
    forall k: nat | k > 0 ensures !At(d, e, e, k) {
      if At(d, e, e, k) {
        var c := AtSplit(d, e, e, k - 1);
        SolidIn(d, Children(d, e), c);
        var i :| 0 <= i < |oc| && oc[i] == c;
        AboveChild(d, e, c, k - 1);
      }
    }
  }

  lemma {:induction false} LeastAt(d: Doc, c: Id, x: Id, k: nat) returns (b: nat)
    requires At(d, c, x, k)
    ensures At(d, c, x, b) && forall i: nat :: i < b ==> !At(d, c, x, i)
    decreases k
  {
    b := k;
    if i: nat :| i < k && At(d, c, x, i) {
      b := LeastAt(d, c, x, i);
    }
  }

  /** The loop over the children of `e` takes no element out of any other list. */
  lemma ChildKept(d: Doc, m: Doc, e: Id, oc: seq<Id>, j: nat, depth: int, ind: int -> string, p: Id, x: Id)
    requires Partial(d, m, e, oc, j, depth, ind) && IsElement(d, p) && p != e && IsElement(d, x) && x in Children(d, p)
    ensures IsElement(m, p) && x in Children(m, p)
  {
    hide Steady, Laid, At;
    if Untouched(d, oc[..j], p) {
      assert SameList(d, m, p);
    } else {
      var i :| 0 <= i < j && Under(d, oc[..j][i], p);
      var k: nat :| At(d, oc[i], p, k);
      LaidAt(d, m, oc[i], depth + 1, ind, p, k);
      LaidHas(d, m, p, x, depth + 1 + k, ind);
    }
  }

  lemma LaidHas(d: Doc, m: Doc, p: Id, x: Id, depth: int, ind: int -> string)
    requires Laid(d, m, p, depth, ind) && IsElement(d, x) && x in Children(d, p)
    ensures IsElement(m, p) && x in Children(m, p)
  {
    LaidKeepsChild(d, m, p, x, depth, ind);
  }

  /** A way up that does not come through `e` is still there. */
  lemma {:induction false} WayKept(d: Doc, m: Doc, e: Id, oc: seq<Id>, j: nat, depth: int, ind: int -> string, c: Id, x: Id, k: nat)
    requires Partial(d, m, e, oc, j, depth, ind) && IsElement(d, x) && At(d, c, x, k)
    requires forall i: nat :: i < k ==> !At(d, c, e, i)
    ensures At(m, c, x, k)
    decreases k
  {
    if k > 0 {
      var p := d[x].parent.value;
      WayKept(d, m, e, oc, j, depth, ind, c, p, k - 1);
      ChildKept(d, m, e, oc, j, depth, ind, p, x);
      SameParent(d, m, e, oc, j, depth, ind, x);
    }
  }

  lemma SameParent(d: Doc, m: Doc, e: Id, oc: seq<Id>, j: nat, depth: int, ind: int -> string, x: Id)
    requires Partial(d, m, e, oc, j, depth, ind) && x in d
    ensures x in m && m[x].parent == d[x].parent
  {
    assert Steady(d, m);
    assert SameButChild(d[x], m[x]);
  }

  lemma LastIsChild(d: Doc, m: Doc, e: Id, oc: seq<Id>, j: nat, depth: int, ind: int -> string)
    requires Appended(d, m, e, oc, j, depth, ind) && IsElement(d, oc[j])
    ensures oc[j] in Children(m, e)
  {
    hide Partial, Lines, Break;
    ItemsNext(d, oc, j);
    LinesNext(Items(d, oc[..j]), ItemOf(d, oc[j]), depth, ind);
    var v := View(m, e);
    assert v[|v| - 1] == Keep(oc[j], false);
    assert ItemOf(m, Children(m, e)[|v| - 1]) == Keep(oc[j], false);
  }

  /** A child that leads back to itself still does when its turn comes. */
  lemma StillLoops(d: Doc, m: Doc, e: Id, oc: seq<Id>, j: nat, depth: int, ind: int -> string)
    requires Appended(d, m, e, oc, j, depth, ind) && IsElement(d, oc[j]) && !Open(d, oc[j])
    ensures !Open(m, oc[j])
  {
    var c := oc[j];
    LastIsChild(d, m, e, oc, j, depth, ind);
    ChildOfList(d, m, e, oc, j, depth, ind);
    hide Appended, Partial;
    var k: nat :| k > 0 && At(d, c, c, k);
    var b := LeastAt(d, c, e, k - 1);
    WayKept(d, m, e, oc, j, depth, ind, c, e, b);
    assert At(m, c, c, b + 1);
  }

  lemma ChildOfList(d: Doc, m: Doc, e: Id, oc: seq<Id>, j: nat, depth: int, ind: int -> string)
    requires Appended(d, m, e, oc, j, depth, ind)
    ensures Linked(d) && IsElement(d, e) && IsElement(m, e) && Partial(d, m, e, oc, j, depth, ind)
    ensures oc[j] in d && oc[j] in m && d[oc[j]].parent == Some(e) && m[oc[j]].parent == Some(e)
  {
    assert oc[j] in d;
    InSlot(d, e, oc[j]);
    SameParent(d, m, e, oc, j, depth, ind, oc[j]);
  }

  /** Where the element can be indented within the limit, so can its child, one level less, when its turn comes. */
  lemma ChildCall(d: Doc, m: Doc, e: Id, oc: seq<Id>, j: nat, depth: int, ind: int -> string, limit: nat)
    requires Appended(d, m, e, oc, j, depth, ind) && IsElement(d, oc[j]) && Open(d, e) && Shallow(d, e, limit + 1)
    ensures Open(m, oc[j]) && Shallow(m, oc[j], limit)
  {
    var c := oc[j];
    assert c in Children(d, e);
    OpenChild(d, e, c);
    SteadyElements(d, m);
    forall k: nat | k > 0 ensures !At(m, c, c, k) {
      SameBelow(d, m, e, oc, j, depth, ind, c, k);
    }
    forall x, k: nat | IsElement(m, x) && At(m, c, x, k) ensures k < limit {
      SameBelow(d, m, e, oc, j, depth, ind, x, k);
      AtAdd(d, e, c, x, k);
    }
  }

  // ---- the recursion ----

  /**
    `indent`, given up after `limit` nested calls. The code has no limit: on a cycle every limit is too small, that
    is, the calls nest for ever, and elsewhere every limit beyond the depth of the subtree is enough.
  */
  method IndentWithin(f: Forest, e: Id, depth: int, ind: int -> string, next: Id, limit: nat) returns (nxt: Id, ended: bool)
    requires Sound(f.doc) && IsElement(f.doc, e) && Beyond(f.doc, next)
    modifies f
    ensures ended ==> Open(old(f.doc), e)
    ensures Open(old(f.doc), e) && Shallow(old(f.doc), e, limit) ==> ended
    ensures ended ==> Sound(f.doc) && Beyond(f.doc, nxt) && Steady(old(f.doc), f.doc)
    ensures ended ==> IndentedBelow(old(f.doc), f.doc, e, depth, ind) && Elsewhere(old(f.doc), f.doc, e)
    decreases limit, 1
  {
    hide Sound, Open, Shallow, Free, Beyond, Indenting, Relisted, Solid, Lines, Items, AnyTag, Steady, IndentedBelow, Elsewhere;
    ghost var d := f.doc;
    if limit == 0 {
      NotWithinNone(d, e);
      return next, false;
    }
    StripIndent(f, e);
    nxt := next;
    LoopStart(d, f.doc, e, depth, ind);
    StripBeyond(d, f.doc, e, Solid(d, Children(d, e)), nxt);
    var oldChild := Children(f.doc, e);
    if |oldChild| == 0 {
      NothingLeft(d, f.doc, e, depth, ind);
      LoopEnd(d, f.doc, e, [], depth, ind);
      return nxt, true;
    }
    AllSolid(d, Children(d, e));
    f.doc := f.doc[e := WithChild(f.doc[e], [])];
    nxt, ended := IndentChildren(f, e, oldChild, nxt, d, depth, ind, limit - 1);
    if ended {
      LoopEnd(d, f.doc, e, oldChild, depth, ind);
    }
  }

  lemma NotWithinNone(d: Doc, e: Id)
    requires IsElement(d, e)
    ensures !Shallow(d, e, 0)
  {
    assert At(d, e, e, 0);
  }

  method IndentChildren(f: Forest, e: Id, oldChild: seq<Id>, next: Id, ghost d: Doc, depth: int, ind: int -> string, limit: nat)
    returns (nxt: Id, ended: bool)
    requires Indenting(d, f.doc, e, oldChild, 0, depth, ind) && Beyond(f.doc, next)
    requires oldChild != [] && View(f.doc, e) == [] && forall i :: 0 <= i < |oldChild| ==> !IsSpace(d, oldChild[i])
    modifies f
    ensures Open(d, e) && Shallow(d, e, limit + 1) ==> ended
    ensures ended ==> Indenting(d, f.doc, e, oldChild, |oldChild|, depth, ind) && Beyond(f.doc, nxt)
    ensures ended ==> View(f.doc, e) == Layout(Items(d, oldChild), depth, ind)
    decreases limit, 2
  {
    hide Sound, Open, Shallow, Free, Beyond, Indenting, Lines, Items, AnyTag, Steady, IndentedBelow, Elsewhere, Appended, View, ItemOf, Layout;
    nxt, ended := next, true;
    var isCharData, first := false, true;
    NoLines(d, oldChild, depth, ind);
    StillElement(d, f.doc, e, oldChild, 0, depth, ind);
    for j := 0 to |oldChild|
      invariant Indenting(d, f.doc, e, oldChild, j, depth, ind) && Beyond(f.doc, nxt)
      invariant IsElement(f.doc, e) && View(f.doc, e) == Lines(Items(d, oldChild[..j]), depth, ind)
      invariant first == !AnyTag(Items(d, oldChild[..j]))
      invariant j > 0 ==> ItemOf(d, oldChild[j - 1]) == Keep(oldChild[j - 1], isCharData)
    {
      var c := oldChild[j];
      nxt, isCharData, first := AppendNext(f, e, c, first, nxt, d, oldChild, j, depth, ind);
      ghost var m := f.doc;
      AppendedElement(d, m, e, oldChild, j, depth, ind);
      if IsElement(f.doc, c) {
        nxt, ended := IndentWithin(f, c, depth + 1, ind, nxt, limit);
        if !ended {
          if Open(d, e) && Shallow(d, e, limit + 1) {
            ChildCall(d, m, e, oldChild, j, depth, ind, limit);
          }
          return;
        }
        if !Open(d, c) {
          StillLoops(d, m, e, oldChild, j, depth, ind);
        }
        TurnElement(d, m, f.doc, e, oldChild, j, depth, ind);
      } else {
        TurnLeaf(d, m, e, oldChild, j, depth, ind);
      }
      StillElement(d, f.doc, e, oldChild, j + 1, depth, ind);
    }
    LastItem(d, oldChild, depth, ind, isCharData);
    if !isCharData {
      if !first || depth > 0 {
        nxt := NewLine(f, e, ind(depth - 1), nxt, d, oldChild, |oldChild|, depth, ind);
      }
    }
  }

  /**
    `indent`: the call ends exactly if no cycle leads back to `e`, wherever else in the document there are cycles.
    Then every list below `e` is laid out for its depth, and no other list changes.
  */
  method Indent(f: Forest, e: Id, depth: int, ind: int -> string, next: Id) returns (nxt: Id, ended: bool)
    requires Sound(f.doc) && IsElement(f.doc, e) && Beyond(f.doc, next)
    modifies f
    ensures ended <==> Open(old(f.doc), e)
    ensures ended ==> Sound(f.doc) && Beyond(f.doc, nxt) && Steady(old(f.doc), f.doc)
    ensures ended ==> IndentedBelow(old(f.doc), f.doc, e, depth, ind) && Elsewhere(old(f.doc), f.doc, e)
  {
    hide Sound, Open, Shallow, Beyond, Steady, IndentedBelow, Elsewhere;
    if Open(f.doc, e) {
      OpenShallow(f.doc, e);
    }
    nxt, ended := IndentWithin(f, e, depth, ind, next, |f.doc|);
  }

  lemma StillElement(d: Doc, m: Doc, e: Id, oc: seq<Id>, j: nat, depth: int, ind: int -> string)
    requires Indenting(d, m, e, oc, j, depth, ind)
    ensures IsElement(m, e)
  {
  }

  // ---- what indentation keeps ----

  lemma {:induction false} StripIn(v: seq<Item>, y: Item)
    ensures y in Strip(v) <==> y in v && y.Keep?
    decreases |v|
  {
    if v != [] {
      var n := |v| - 1;
      StripIn(v[..n], y);
      assert v == v[..n] + [v[n]];
    }
  }

  /** All tokens but indentation stay where they are in every list, in order. */
  lemma LaidKeepsTokens(d: Doc, f: Doc, x: Id, depth: int, ind: int -> string)
    requires Laid(d, f, x, depth, ind)
    ensures Strip(View(f, x)) == Strip(View(d, x))
  {
    StripLayout(Strip(View(d, x)), depth, ind);
  }

  /**
    What indentation leaves, element by element: a list `k` levels below holds the same other tokens in the same order,
    its children stand behind the indentation of their depth, and its end tag behind that of its own.
  */
  lemma IndentedLooks(d: Doc, f: Doc, e: Id, depth: int, ind: int -> string, x: Id, k: nat)
    requires IndentedBelow(d, f, e, depth, ind) && IsElement(d, x) && At(d, e, x, k)
    ensures IsElement(f, x) && Strip(View(f, x)) == Strip(View(d, x)) && Looks(View(f, x), depth + k, ind)
  {
    hide At, Looks;
    LaidAt(d, f, e, depth, ind, x, k);
    LaidKeepsTokens(d, f, x, depth + k, ind);
    LayoutLooks(Strip(View(d, x)), depth + k, ind);
  }

  lemma LaidKeepsChild(d: Doc, f: Doc, p: Id, x: Id, depth: int, ind: int -> string)
    requires Laid(d, f, p, depth, ind) && IsElement(d, x) && x in Children(d, p)
    ensures x in Children(f, p)
  {
    var i :| 0 <= i < |Children(d, p)| && Children(d, p)[i] == x;
    assert View(d, p)[i] == Keep(x, false);
    LaidKeepsTokens(d, f, p, depth, ind);
    StripIn(View(d, p), Keep(x, false));
    StripIn(View(f, p), Keep(x, false));
    var j :| 0 <= j < |View(f, p)| && View(f, p)[j] == Keep(x, false);
    assert ItemOf(f, Children(f, p)[j]) == Keep(x, false);
  }

  /** The elements below `e` are the same as before, level by level. */
  lemma {:induction false} StillAt(d: Doc, f: Doc, e: Id, x: Id, k: nat, depth: int, ind: int -> string)
    requires Linked(f) && IndentedBelow(d, f, e, depth, ind) && IsElement(d, x) && At(d, e, x, k)
    ensures At(f, e, x, k)
    decreases k
  {
    hide Laid, Linked, Children;
    if k > 0 {
      var p := d[x].parent.value;
      StillAt(d, f, e, p, k - 1, depth, ind);
      LaidAt(d, f, e, depth, ind, p, k - 1);
      LaidHas(d, f, p, x, depth + (k - 1), ind);
      InSlot(f, p, x);
    }
  }

  lemma LaidTwice(d: Doc, f: Doc, g: Doc, x: Id, depth: int, ind: int -> string)
    requires Laid(d, f, x, depth, ind) && Laid(f, g, x, depth, ind)
    ensures View(g, x) == View(f, x)
  {
    LaidKeepsTokens(d, f, x, depth, ind);
  }

  /** The elements below `e` are no others than before. */
  lemma {:induction false} WasAt(d: Doc, f: Doc, e: Id, x: Id, k: nat, depth: int, ind: int -> string)
    requires Linked(d) && Steady(d, f) && IndentedBelow(d, f, e, depth, ind) && IsElement(f, x) && At(f, e, x, k)
    ensures IsElement(d, x) && At(d, e, x, k)
    decreases k
  {
    hide Laid, Steady, IndentedBelow, Linked, Children;
    SteadyElements(d, f);
    if k > 0 {
      var p := f[x].parent.value;
      WasAt(d, f, e, p, k - 1, depth, ind);
      LaidAt(d, f, e, depth, ind, p, k - 1);
      LaidAddsNone(d, f, p, x, depth + (k - 1), ind);
      InSlot(d, p, x);
    }
  }

  lemma LaidAddsNone(d: Doc, f: Doc, p: Id, x: Id, depth: int, ind: int -> string)
    requires Laid(d, f, p, depth, ind) && IsElement(f, x) && x in Children(f, p)
    ensures x in Children(d, p)
  {
    var i :| 0 <= i < |Children(f, p)| && Children(f, p)[i] == x;
    assert View(f, p)[i] == Keep(x, false);
    LaidKeepsTokens(d, f, p, depth, ind);
    StripIn(View(d, p), Keep(x, false));
    StripIn(View(f, p), Keep(x, false));
    var j :| 0 <= j < |View(d, p)| && View(d, p)[j] == Keep(x, false);
    assert ItemOf(d, Children(d, p)[j]) == Keep(x, false);
  }

  lemma StillOpen(d: Doc, f: Doc, e: Id, depth: int, ind: int -> string)
    requires Linked(d) && Steady(d, f) && IndentedBelow(d, f, e, depth, ind) && IsElement(f, e) && Open(d, e)
    ensures Open(f, e)
  {
    forall k: nat | k > 0 ensures !At(f, e, e, k) {
      if At(f, e, e, k) {
        WasAt(d, f, e, e, k, depth, ind);
      }
    }
  }

  /** Indenting twice: the second pass ends too, and lays every list below `e` out as the first one did. */
  method Reindent(f: Forest, e: Id, ind: int -> string, next: Id) returns (nxt: Id, ended: bool, ghost once: Doc)
    requires Sound(f.doc) && IsElement(f.doc, e) && Beyond(f.doc, next)
    modifies f
    ensures ended <==> Open(old(f.doc), e)
    ensures ended ==> Sound(f.doc) && IndentedBelow(old(f.doc), once, e, 0, ind)
    ensures ended ==> forall x :: IsElement(old(f.doc), x) && Under(old(f.doc), e, x) ==>
      IsElement(once, x) && IsElement(f.doc, x) && View(f.doc, x) == View(once, x)
    ensures ended ==> forall x :: IsElement(old(f.doc), x) && Under(old(f.doc), e, x) ==>
      IsElement(f.doc, x) && Strip(View(f.doc, x)) == Strip(View(old(f.doc), x))
  {
    hide Sound, Open, Beyond, IndentedBelow, Elsewhere, View, Strip;
    ghost var d := f.doc;
    SoundLinked(d);
    nxt, ended := Indent(f, e, 0, ind, next);
    once := f.doc;
    if !ended {
      return;
    }
    SteadyElements(d, once);
    StillOpen(d, once, e, 0, ind);
    nxt, ended := Indent(f, e, 0, ind, nxt);
    SoundLinked(once);
    forall x | IsElement(d, x) && Under(d, e, x)
      ensures IsElement(once, x) && IsElement(f.doc, x) && View(f.doc, x) == View(once, x)
      ensures Strip(View(f.doc, x)) == Strip(View(d, x))
    {
      Settled(d, once, f.doc, e, x, ind);
    }
  }

  lemma Settled(d: Doc, once: Doc, twice: Doc, e: Id, x: Id, ind: int -> string)
    requires Linked(once) && IndentedBelow(d, once, e, 0, ind) && IndentedBelow(once, twice, e, 0, ind)
    requires IsElement(d, x) && Under(d, e, x)
    ensures IsElement(once, x) && IsElement(twice, x) && View(twice, x) == View(once, x)
    ensures Strip(View(twice, x)) == Strip(View(d, x))
  {
    var k: nat :| At(d, e, x, k);
    assert Laid(d, once, x, 0 + k, ind);
    StillAt(d, once, e, x, k, 0, ind);
    assert Laid(once, twice, x, 0 + k, ind);
    LaidTwice(d, once, twice, x, 0 + k, ind);
    LaidKeepsTokens(d, once, x, 0 + k, ind);
  }
}
