/** `GetRelativePath` (`goxml/goxml.go`): the path it spells leads from the source back to the element. */
module XmlRelative {
  import opened Basics
  import opened XmlTree
  import opened XmlPath

  // ---- ancestors ----

  /** The `k`-th ancestor of `e`, if there is one. */
  ghost function Anc(d: Doc, e: Id, k: nat): Option<Id> {
    if k == 0 then Some(e)
    else
      match Anc(d, e, k - 1)
      case None => None
      case Some(x) => if x in d then d[x].parent else None
  }

  lemma {:induction false} AncElement(d: Doc, s: Shape, e: Id, k: nat)
    requires WellFormed(d, s) && IsElement(d, e) && Anc(d, e, k).Some?
    ensures IsElement(d, Anc(d, e, k).value) && Anc(d, e, k).value in s.depth && e in s.depth
    ensures s.depth[e] == s.depth[Anc(d, e, k).value] + k
    decreases k
  {
    assert Rooted(d, s, e);
    if k > 0 {
      AncElement(d, s, e, k - 1);
      assert Rooted(d, s, Anc(d, e, k - 1).value);
    }
  }

  lemma {:induction false} AncAdd(d: Doc, e: Id, j: nat, k: nat)
    requires Anc(d, e, j).Some?
    ensures Anc(d, e, j + k) == Anc(d, Anc(d, e, j).value, k)
    decreases k
  {
    if k > 0 {
      AncAdd(d, e, j, k - 1);
      assert Anc(d, e, j + k) == match Anc(d, e, j + k - 1)
                                 case None => None
                                 case Some(x) => if x in d then d[x].parent else None;
    }
  }

  /** The same ancestry as the levels of descendants are told by. */
  lemma {:induction false} AncIsBelow(d: Doc, e: Id, x: Id, k: nat)
    requires x in d && forall y :: y in d && d[y].parent.Some? ==> d[y].parent.value in d
    ensures Anc(d, x, k) == Some(e) <==> Below(d, e, x, k)
    decreases k
  {
    if k > 0 {
      assert Anc(d, x, 1) == d[x].parent;
      if d[x].parent.Some? {
        AncAdd(d, x, 1, k - 1);
        AncIsBelow(d, e, d[x].parent.value, k - 1);
      } else {
        AncGone(d, x, 1, k);
      }
    }
  }

  /** Above a root there is nothing. */
  lemma {:induction false} AncGone(d: Doc, e: Id, j: nat, k: nat)
    requires Anc(d, e, j).None? && j <= k
    ensures Anc(d, e, k).None?
    decreases k
  {
    if j < k {
      AncGone(d, e, j, k - 1);
    }
  }

  /** `up` levels above `a` and `down` levels above `b` they meet, and nowhere lower. */
  ghost predicate Meet(d: Doc, a: Id, b: Id, up: nat, down: nat) {
    && Anc(d, a, up).Some? && Anc(d, a, up) == Anc(d, b, down)
    && forall i: nat, j: nat :: i < up && Anc(d, a, i).Some? ==> Anc(d, a, i) != Anc(d, b, j)
  }

  ghost predicate Apart(d: Doc, a: Id, b: Id) {
    forall i: nat, j: nat :: Anc(d, a, i).Some? ==> Anc(d, a, i) != Anc(d, b, j)
  }

  /** Where two elements first meet is their lowest common ancestor, and `up` is the distance to it. */
  lemma MeetIsLowest(d: Doc, s: Shape, a: Id, b: Id, up: nat, down: nat, i: nat, j: nat)
    requires WellFormed(d, s) && IsElement(d, a) && IsElement(d, b) && Meet(d, a, b, up, down)
    requires Anc(d, a, i).Some? && Anc(d, a, i) == Anc(d, b, j)
    ensures up <= i && down <= j && Anc(d, Anc(d, a, up).value, i - up) == Anc(d, a, i)
    ensures a in s.depth && Anc(d, a, up).value in s.depth && s.depth[a] == s.depth[Anc(d, a, up).value] + up
  {
    assert up <= i;
    AncAdd(d, a, up, i - up);
    AncElement(d, s, a, up);
    AncElement(d, s, b, down);
    AncElement(d, s, a, i);
    AncElement(d, s, b, j);
  }

  // ---- strings ----

  function Join(parts: seq<string>): string {
    if |parts| == 0 then "" else if |parts| == 1 then parts[0] else parts[0] + "/" + Join(parts[1..])
  }

  function Glue(w: string, ps: seq<string>): seq<string>
    requires ps != []
  {
    [w + ps[0]] + ps[1..]
  }

  lemma GlueNothing(ps: seq<string>)
    requires ps != []
    ensures Glue("", ps) == ps
  {
    assert "" + ps[0] == ps[0];
  }

  lemma GlueEmpty(w: string, ps: seq<string>)
    ensures Glue(w, [""] + ps) == [w] + ps
  {
    assert w + "" == w;
  }

  lemma GlueTwice(v: string, w: string, ps: seq<string>)
    requires ps != []
    ensures Glue(v, Glue(w, ps)) == Glue(v + w, ps)
  {
    assert v + (w + ps[0]) == v + w + ps[0];
  }

  /** The pieces of a path between slashes outside single quotes. */
  function Pieces(path: string, quoted: bool): (r: seq<string>)
    ensures r != []
  {
    if path == "" then [""]
    else if path[0] == '/' && !quoted then [""] + Pieces(path[1..], quoted)
    else Glue([path[0]], Pieces(path[1..], if path[0] == '\'' then !quoted else quoted))
  }

  method SplitPath(path: string) returns (pieces: seq<string>)
    ensures pieces == Pieces(path, false)
  {
    hide Glue, Pieces;
    pieces := [];
    var start := 0;
    var inquote := false;
    SplitStart(path);
    for i := 0 to |path|
      invariant 0 <= start <= i
      invariant pieces + Glue(path[start..i], Pieces(path[i..], inquote)) == Pieces(path, false)
    {
      SplitStep(path, pieces, start, i, inquote);
      if path[i] == '\'' {
        inquote := !inquote;
      } else if path[i] == '/' && !inquote {
        pieces := pieces + [path[start..i]];
        start := i + 1;
      }
    }
    SplitEnd(path, start, inquote);
    pieces := pieces + [path[start..]];
  }

  lemma SplitStart(path: string)
    ensures [] + Glue(path[0..0], Pieces(path[0..], false)) == Pieces(path, false)
  {
    assert path[0..] == path && path[0..0] == "";
    GlueNothing(Pieces(path, false));
  }

  lemma SplitEnd(path: string, start: nat, quoted: bool)
    requires start <= |path|
    ensures Glue(path[start..|path|], Pieces(path[|path|..], quoted)) == [path[start..]]
  {
    assert path[|path|..] == "" && path[start..|path|] + "" == path[start..];
  }

  lemma SplitStep(path: string, pieces: seq<string>, start: nat, i: nat, quoted: bool)
    requires start <= i < |path|
    ensures var ps := pieces + Glue(path[start..i], Pieces(path[i..], quoted));
      if path[i] == '/' && !quoted then
        ps == pieces + [path[start..i]] + Glue(path[i + 1..i + 1], Pieces(path[i + 1..], quoted))
      else
        ps == pieces + Glue(path[start..i + 1], Pieces(path[i + 1..], if path[i] == '\'' then !quoted else quoted))
  {
    assert path[i..][0] == path[i] && path[i..][1..] == path[i + 1..] && path[i + 1..i + 1] == "";
    var more := Pieces(path[i + 1..], if path[i] == '\'' then !quoted else quoted);
    if path[i] == '/' && !quoted {
      GlueEmpty(path[start..i], more);
      GlueNothing(more);
    } else {
      GlueTwice(path[start..i], [path[i]], more);
      assert path[start..i] + [path[i]] == path[start..i + 1];
    }
  }

  /** Joining the pieces of a path gives the path back. */
  lemma {:induction false} JoinPieces(path: string, quoted: bool)
    ensures Join(Pieces(path, quoted)) == path
    decreases |path|
  {
    if path != "" {
      var q := if path[0] == '\'' then !quoted else quoted;
      JoinPieces(path[1..], q);
      JoinGlue([path[0]], Pieces(path[1..], q));
      hide Join, Glue;
      assert path == [path[0]] + path[1..];
    }
  }

  lemma JoinGlue(w: string, ps: seq<string>)
    requires ps != []
    ensures Join(Glue(w, ps)) == w + Join(ps) && Join([""] + ps) == "/" + Join(ps)
  {
    var g := Glue(w, ps);
    assert g[1..] == ps[1..] && ([""] + ps)[1..] == ps;
    assert "" + "/" == "/";
    if |ps| > 1 {
      Assoc(w, ps[0], "/");
      Assoc(w, ps[0] + "/", Join(ps[1..]));
    }
  }

  predicate Unsplit(w: string) {
    '/' !in w && '\'' !in w
  }

  lemma {:induction false} PieceBefore(w: string, rest: string)
    requires Unsplit(w)
    ensures Pieces(w + rest, false) == Glue(w, Pieces(rest, false))
    decreases |w|
  {
    var ps := Pieces(rest, false);
    if w == "" {
      assert w + rest == rest;
      GlueNothing(ps);
    } else {
      PieceBefore(w[1..], rest);
      assert (w + rest)[1..] == w[1..] + rest && (w + rest)[0] == w[0];
      GlueTwice([w[0]], w[1..], ps);
      assert [w[0]] + w[1..] == w;
    }
  }

  /** Splitting what was joined gives the parts back, if no part holds a slash or a quote. */
  lemma {:induction false} SplitJoin(parts: seq<string>)
    requires parts != [] && forall i :: 0 <= i < |parts| ==> Unsplit(parts[i])
    ensures Pieces(Join(parts), false) == parts
    decreases |parts|
  {
    if |parts| == 1 {
      PieceBefore(parts[0], "");
      assert parts[0] + "" == parts[0];
    } else {
      var rest := "/" + Join(parts[1..]);
      SplitJoin(parts[1..]);
      assert rest[1..] == Join(parts[1..]);
      PieceBefore(parts[0], rest);
      GlueEmpty(parts[0], parts[1..]);
      assert parts[0] + "/" + Join(parts[1..]) == parts[0] + rest;
    }
  }

  // ---- selectors ----

  function IndexOf(str: string, c: char): (i: int)
    ensures i == -1 ==> c !in str
    ensures i != -1 ==> 0 <= i < |str| && str[i] == c && c !in str[..i]
  {
    if str == "" then -1
    else if str[0] == c then 0
    else
      var i := IndexOf(str[1..], c);
      if i == -1 then -1 else assert str[..i + 1] == [str[0]] + str[1..][..i]; i + 1
  }

  function ParseSelector(path: string): Selector {
    if path == "." then Self
    else if path == ".." then Parent
    else if path == "*" then AllChildren
    else if path == "" then Descendants
    else
      var colon := IndexOf(path, ':');
      if colon == -1 then ByTag("", path) else ByTag(path[..colon], path[colon + 1..])
  }

  function Bare(piece: string): Segment {
    Segment(ParseSelector(piece), [])
  }

  function Bares(pieces: seq<string>): seq<Segment> {
    seq(|pieces|, i requires 0 <= i < |pieces| => Bare(pieces[i]))
  }

  predicate EndsWith(path: string, suffix: string) {
    |suffix| <= |path| && path[|path| - |suffix|..] == suffix
  }

  /** A leading slash starts at the root. */
  function CompiledFrom(p: string): seq<Segment> {
    if p != "" && p[0] == '/' then [Segment(Root, [])] + Bares(Pieces(p[1..], false)) else Bares(Pieces(p, false))
  }

  /** What a path without filters compiles to. */
  function Compiled(path: string): seq<Segment> {
    CompiledFrom(if EndsWith(path, "//") then path + "*" else path)
  }

  method ParsePath(path: string) returns (segments: seq<Segment>)
    requires '[' !in path
    ensures segments == Compiled(path) && segments != []
  {
    hide CompiledFrom;
    var p := path;
    if EndsWith(p, "//") {
      p := p + "*";
    }
    segments := ParseFrom(p);
  }

  method ParseFrom(p: string) returns (segments: seq<Segment>)
    ensures segments == CompiledFrom(p) && segments != []
  {
    hide Pieces, Bares;
    segments := [];
    var rest := p;
    if p != "" && p[0] == '/' {
      segments := segments + [Segment(Root, [])];
      rest := p[1..];
    }
    var pieces := SplitPath(rest);
    BaresSome(pieces);
    segments := ParseSegments(segments, pieces);
  }

  lemma BaresSome(pieces: seq<string>)
    requires pieces != []
    ensures Bares(pieces) != [] && [] + Bares(pieces) == Bares(pieces)
  {
  }

  method ParseSegments(front: seq<Segment>, pieces: seq<string>) returns (segments: seq<Segment>)
    ensures segments == front + Bares(pieces)
  {
    hide Bare;
    segments := front;
    for i := 0 to |pieces|
      invariant segments == front + Bares(pieces[..i])
    {
      segments := segments + [Bare(pieces[i])];
      assert Bares(pieces[..i + 1]) == Bares(pieces[..i]) + [Bare(pieces[i])];
    }
    assert pieces[..|pieces|] == pieces;
  }

  // ---- the relative path ----

  predicate PlainTag(tag: string) {
    && Unsplit(tag) && '[' !in tag && ':' !in tag
    && tag != "" && tag != "." && tag != ".." && tag != "*"
  }

  /** A step of a path as it is written. */
  datatype Written = Dot | DotDot | Star | Nothing | Tag(tag: string) | Prefixed(space: string, tag: string)

  function WrittenText(w: Written): string {
    match w
    case Dot => "."
    case DotDot => ".."
    case Star => "*"
    case Nothing => ""
    case Tag(tag) => tag
    case Prefixed(space, tag) => space + ":" + tag
  }

  predicate WrittenOk(w: Written) {
    match w
    case Tag(tag) => PlainTag(tag)
    case Prefixed(space, tag) => Unsplit(space) && '[' !in space && ':' !in space && Unsplit(tag) && '[' !in tag
    case _ => true
  }

  function Selects(w: Written): Selector {
    match w
    case Dot => Self
    case DotDot => Parent
    case Star => AllChildren
    case Nothing => Descendants
    case Tag(tag) => ByTag("", tag)
    case Prefixed(space, tag) => ByTag(space, tag)
  }

  lemma {:induction false} FirstColon(space: string, tag: string)
    requires ':' !in space
    ensures IndexOf(space + ":" + tag, ':') == |space|
    decreases |space|
  {
    if space != "" {
      FirstColon(space[1..], tag);
      assert (space + ":" + tag)[1..] == space[1..] + ":" + tag;
    }
  }

  lemma NoColon(t: string)
    requires t == "." || t == ".." || t == "*" || t == ""
    ensures forall space, tag :: space + ":" + tag != t
  {
    forall space: string, tag: string ensures space + ":" + tag != t {
      assert (space + ":" + tag)[|space|] == ':';
    }
  }

  lemma StepReads(w: Written)
    requires WrittenOk(w)
    ensures ParseSelector(WrittenText(w)) == Selects(w) && Unsplit(WrittenText(w))
  {
    match w
    case Prefixed(space, tag) =>
      var t := space + ":" + tag;
      assert t[..|space|] == space && t[|space| + 1..] == tag && t[|space|] == ':';
      FirstColon(space, tag);
      NoColon(".");
      NoColon("..");
      NoColon("*");
      NoColon("");
    case _ =>
  }

  function Texts(ws: seq<Written>): seq<string> {
    seq(|ws|, i requires 0 <= i < |ws| => WrittenText(ws[i]))
  }

  function Steps(ws: seq<Written>): seq<Segment> {
    seq(|ws|, i requires 0 <= i < |ws| => Segment(Selects(ws[i]), []))
  }

  /**
    A path is read as it is written: steps between slashes, from the root behind a leading slash. A path cannot end in
    an empty step, and one that does not start at the root cannot begin with one.
  */
  lemma PathReads(ws: seq<Written>, absolute: bool)
    requires ws != [] && (forall i :: 0 <= i < |ws| ==> WrittenOk(ws[i]))
    requires !ws[|ws| - 1].Nothing? && (!absolute ==> !ws[0].Nothing?)
    ensures Compiled((if absolute then "/" else "") + Join(Texts(ws)))
         == (if absolute then [Segment(Root, [])] else []) + Steps(ws)
  {
    hide Join, Pieces, WrittenOk, Texts, Steps, CompiledFrom, EndsWith;
    var t := Join(Texts(ws));
    LastNotSlash(ws);
    StepsRead(ws);
    if absolute {
      FromRoot(t);
    } else {
      FirstNotSlash(ws);
      FromHere(t);
      assert "" + t == t && [] + Steps(ws) == Steps(ws);
    }
  }

  lemma FromRoot(t: string)
    ensures CompiledFrom("/" + t) == [Segment(Root, [])] + Bares(Pieces(t, false))
  {
    assert ("/" + t)[1..] == t;
  }

  lemma FromHere(t: string)
    requires t != "" && t[0] != '/'
    ensures CompiledFrom(t) == Bares(Pieces(t, false))
  {
  }

  lemma StepsRead(ws: seq<Written>)
    requires ws != [] && forall i :: 0 <= i < |ws| ==> WrittenOk(ws[i])
    ensures Bares(Pieces(Join(Texts(ws)), false)) == Steps(ws)
  {
    hide ParseSelector, WrittenText, Selects, Join, Pieces, WrittenOk, Unsplit;
    var parts := Texts(ws);
    forall i | 0 <= i < |ws| ensures ParseSelector(parts[i]) == Selects(ws[i]) && Unsplit(parts[i]) {
      StepReads(ws[i]);
    }
    SplitJoin(parts);
    assert Bares(parts) == Steps(ws);
  }

  lemma {:induction false} JoinEnds(parts: seq<string>)
    requires parts != [] && parts[|parts| - 1] != ""
    ensures Join(parts) != "" && Join(parts)[|Join(parts)| - 1] == parts[|parts| - 1][|parts[|parts| - 1]| - 1]
    decreases |parts|
  {
    if |parts| > 1 {
      JoinEnds(parts[1..]);
    }
  }

  lemma NotEmpty(w: Written)
    requires WrittenOk(w) && !w.Nothing?
    ensures var t := WrittenText(w); t != "" && t[0] != '/' && (t[|t| - 1] != '/')
  {
    match w
    case Prefixed(space, tag) =>
      if tag != "" {
        assert WrittenText(w)[|WrittenText(w)| - 1] == tag[|tag| - 1];
      }
    case _ =>
  }

  lemma LastNotSlash(ws: seq<Written>)
    requires ws != [] && (forall i :: 0 <= i < |ws| ==> WrittenOk(ws[i])) && !ws[|ws| - 1].Nothing?
    ensures !EndsWith(Join(Texts(ws)), "//") && !EndsWith("/" + Join(Texts(ws)), "//")
  {
    hide WrittenText, WrittenOk;
    NotEmpty(ws[|ws| - 1]);
    JoinEnds(Texts(ws));
    var t := Join(Texts(ws));
    assert ("/" + t)[|t|] == t[|t| - 1];
  }

  lemma FirstNotSlash(ws: seq<Written>)
    requires ws != [] && (forall i :: 0 <= i < |ws| ==> WrittenOk(ws[i])) && !ws[0].Nothing?
    ensures var t := Join(Texts(ws)); t != "" && t[0] != '/'
  {
    hide WrittenText, WrittenOk;
    NotEmpty(ws[0]);
    assert Texts(ws)[0] == WrittenText(ws[0]);
  }

  /** A path that ends in two slashes is read as if it ended in a star behind them. */
  lemma TrailingSlashes(path: string)
    ensures Compiled(path + "//") == Compiled(path + "//*")
  {
    var a, b := path + "//", path + "//*";
    assert a[|a| - 2..] == "//" && a + "*" == b;
    assert b[|b| - 2..][1] == '*';
  }

  /** The tags on the way from the child of the `k`-th ancestor down to `e`. */
  ghost function TagsDown(d: Doc, e: Id, k: nat): seq<string> {
    if k == 0 then []
    else
      (match Anc(d, e, k - 1)
       case None => [""]
       case Some(x) => [if IsElement(d, x) then d[x].kind.tag else ""]) + TagsDown(d, e, k - 1)
  }

  function Dots(n: nat): seq<string> {
    seq(n, _ => "..")
  }

  function Spelled(up: nat, tags: seq<string>): string {
    if up > 0 then Join(Dots(up) + tags) else if tags == [] then "." else "./" + Join(tags)
  }

  method FindPathIndex(e: Id, path: seq<Id>) returns (r: int)
    ensures r == -1 ==> e !in path
    ensures r != -1 ==> 0 <= r < |path| && path[r] == e
  {
    for i := 0 to |path|
      invariant e !in path[..i]
    {
      if e == path[i] {
        return i;
      }
    }
    return -1;
  }

  ghost predicate Chain(d: Doc, e: Id, path: seq<Id>) {
    forall i :: 0 <= i < |path| ==> Anc(d, e, i) == Some(path[i]) && IsElement(d, path[i])
  }

  /** The loop that composes the downward part: the tags of the climbed elements in reverse. */
  method AppendTags(d: Doc, ghost e: Id, path: seq<Id>, front: seq<string>) returns (parts: seq<string>)
    requires Chain(d, e, path)
    ensures parts == front + TagsDown(d, e, |path|)
  {
    parts := front;
    var i := |path| - 1;
    while i >= 0
      invariant -1 <= i < |path|
      invariant parts + TagsDown(d, e, i + 1) == front + TagsDown(d, e, |path|)
    {
      assert Anc(d, e, i) == Some(path[i]);
      parts := parts + [d[path[i]].kind.tag];
      i := i - 1;
    }
  }

  /** The first loop: climb from the element until the source or the top. */
  method ClimbFrom(d: Doc, ghost s: Shape, e: Id, source: Id) returns (path: seq<Id>, seg: Option<Id>)
    requires WellFormed(d, s) && IsElement(d, e)
    ensures Chain(d, e, path) && source !in path
    ensures seg == Anc(d, e, |path|) && (seg.None? || seg == Some(source))
  {
    hide WellFormed;
    path, seg := [], Some(e);
    AncElement(d, s, e, 0);
    while seg.Some? && seg != Some(source)
      invariant Chain(d, e, path) && source !in path && seg == Anc(d, e, |path|)
      invariant e in s.depth && (seg.Some? ==> IsElement(d, seg.value) && |path| <= s.depth[e])
      decreases seg.Some?, s.depth[e] - |path|
    {
      var x := seg.value;
      path := path + [x];
      seg := d[x].parent;
      if seg.Some? {
        AncElement(d, s, e, |path|);
      }
    }
  }

  /** The second loop: climb from the source until an element on the path, counting the steps. */
  method ClimbTo(d: Doc, ghost s: Shape, e: Id, source: Id, path: seq<Id>) returns (climb: nat, at: int)
    requires WellFormed(d, s) && IsElement(d, source) && Chain(d, e, path) && Anc(d, e, |path|).None?
    ensures -1 <= at < |path|
    ensures at == -1 ==> Apart(d, source, e)
    ensures at != -1 ==> Meet(d, source, e, climb, at)
  {
    hide WellFormed;
    climb := 0;
    var seg := Some(source);
    AncElement(d, s, source, 0);
    while seg.Some?
      invariant seg == Anc(d, source, climb)
      invariant forall i: nat :: i < climb && Anc(d, source, i).Some? ==> Anc(d, source, i).value !in path
      invariant source in s.depth && (seg.Some? ==> IsElement(d, seg.value) && climb <= s.depth[source])
      decreases seg.Some?, s.depth[source] - climb
    {
      at := FindPathIndex(seg.value, path);
      if at >= 0 {
        OffPath(d, source, e, path, climb);
        return;
      }
      climb := climb + 1;
      seg := d[seg.value].parent;
      if seg.Some? {
        AncElement(d, s, source, climb);
      }
    }
    at := -1;
    OffPath(d, source, e, path, climb);
    forall i: nat, j: nat | Anc(d, source, i).Some? ensures Anc(d, source, i) != Anc(d, e, j) {
      if i >= climb {
        AncGone(d, source, climb, i);
      }
    }
  }

  /** The path holds every ancestor of `e`, so what is off the path is no ancestor. */
  lemma OffPath(d: Doc, source: Id, e: Id, path: seq<Id>, n: nat)
    requires Chain(d, e, path) && Anc(d, e, |path|).None?
    requires forall i: nat :: i < n && Anc(d, source, i).Some? ==> Anc(d, source, i).value !in path
    ensures forall i: nat, j: nat :: i < n && Anc(d, source, i).Some? ==> Anc(d, source, i) != Anc(d, e, j)
  {
    forall i: nat, j: nat | i < n && Anc(d, source, i).Some? ensures Anc(d, source, i) != Anc(d, e, j) {
      if j >= |path| {
        AncGone(d, e, |path|, j);
      } else {
        assert Anc(d, e, j) == Some(path[j]);
      }
    }
  }

  lemma MeetAtSource(d: Doc, source: Id, e: Id, k: nat)
    requires Anc(d, e, k) == Some(source)
    ensures Meet(d, source, e, 0, k) && !Apart(d, source, e)
  {
    assert Anc(d, source, 0) == Some(source);
  }

  lemma MustClimb(d: Doc, source: Id, e: Id, route: seq<Id>, up: nat, down: nat)
    requires Chain(d, e, route) && source !in route && down < |route| && Meet(d, source, e, up, down)
    ensures up > 0 && !Apart(d, source, e)
  {
    assert Anc(d, e, down) == Some(route[down]);
  }

  lemma TagsCount(d: Doc, e: Id, k: nat)
    ensures |TagsDown(d, e, k)| == k
  {
  }

  method GetRelativePath(d: Doc, ghost s: Shape, e: Id, source: Option<Id>)
    returns (path: string, ghost up: nat, ghost down: nat)
    requires WellFormed(d, s) && IsElement(d, e) && (source.Some? ==> IsElement(d, source.value))
    ensures source.None? || Apart(d, source.value, e) ==> path == ""
    ensures source.Some? && !Apart(d, source.value, e) ==>
      Meet(d, source.value, e, up, down) && path == Spelled(up, TagsDown(d, e, down))
  {
    hide WellFormed, Apart, Meet, Anc, TagsDown;
    path, up, down := "", 0, 0;
    if source.None? {
      return;
    }
    var route, seg := ClimbFrom(d, s, e, source.value);
    if seg == source {
      down := |route|;
      MeetAtSource(d, source.value, e, down);
      TagsCount(d, e, down);
      if |route| == 0 {
        path := ".";
        return;
      }
      var parts := AppendTags(d, e, route, []);
      assert [] + TagsDown(d, e, down) == TagsDown(d, e, down);
      path := "./" + Join(parts);
      return;
    }
    var climb, at := ClimbTo(d, s, e, source.value, route);
    if at == -1 {
      return;
    }
    up, down := climb, at;
    MustClimb(d, source.value, e, route, up, down);
    route := route[..at];
    var parts := [];
    for i := 0 to climb
      invariant parts == Dots(i)
    {
      parts := parts + [".."];
    }
    parts := AppendTags(d, e, route, parts);
    path := Join(parts);
  }

  // ---- the path leads back ----

  function Segs(sel: Selector, n: nat): seq<Segment> {
    seq(n, _ => Segment(sel, []))
  }

  function TagSegs(tags: seq<string>): seq<Segment> {
    seq(|tags|, i requires 0 <= i < |tags| => Segment(ByTag("", tags[i]), []))
  }

  lemma DenoteAllIn(d: Doc, s: Shape, path: seq<Segment>, xs: seq<Id>, x: Id, y: Id)
    requires WellFormed(d, s) && AllElements(d, xs) && IsElement(d, x) && x in xs && y in Denote(d, s, path, x)
    ensures y in DenoteAll(d, s, path, xs)
    decreases |xs|
  {
    hide WellFormed, Denote;
    var n := |xs| - 1;
    if x != xs[n] {
      assert xs == xs[..n] + [xs[n]];
      DenoteAllIn(d, s, path, xs[..n], x, y);
    }
  }

  /** One `..` step from an element with a parent. */
  lemma StepUp(d: Doc, s: Shape, x: Id)
    requires WellFormed(d, s) && IsElement(d, x) && d[x].parent.Some?
    ensures IsElement(d, d[x].parent.value)
    ensures DenoteAll(d, s, [Segment(Parent, [])], [x]) == [d[x].parent.value]
  {
    assert Rooted(d, s, x);
    hide WellFormed;
    var g := Segment(Parent, []);
    DenoteAllOne(d, s, [g], x);
    assert [g][1..] == [] && Apply(d, s, g, x) == [d[x].parent.value];
    DenoteAllDone(d, s, [d[x].parent.value]);
  }

  lemma {:induction false} ClimbDenotes(d: Doc, s: Shape, x: Id, n: nat)
    requires WellFormed(d, s) && IsElement(d, x) && Anc(d, x, n).Some?
    ensures IsElement(d, Anc(d, x, n).value)
    ensures DenoteAll(d, s, Segs(Parent, n), [x]) == [Anc(d, x, n).value]
    decreases n
  {
    hide WellFormed, DenoteAll;
    AncElement(d, s, x, n);
    if n == 0 {
      assert Segs(Parent, 0) == [] && Anc(d, x, 0) == Some(x);
      DenoteAllDone(d, s, [x]);
    } else {
      ClimbDenotes(d, s, x, n - 1);
      var y, up := Anc(d, x, n - 1).value, [Segment(Parent, [])];
      assert Anc(d, x, n) == d[y].parent;
      StepUp(d, s, y);
      assert Segs(Parent, n) == Segs(Parent, n - 1) + up;
      DenoteConcat(d, s, Segs(Parent, n - 1), up, [x]);
      assert DenoteAll(d, s, Segs(Parent, n - 1) + up, [x]) == DenoteAll(d, s, up, [y]);
    }
  }

  lemma {:induction false} TaggedIn(d: Doc, toks: seq<Id>, x: Id)
    requires x in toks && IsElement(d, x)
    ensures x in Tagged(d, toks, "", d[x].kind.tag)
    decreases |toks|
  {
    var n := |toks| - 1;
    if x != toks[n] {
      assert toks == toks[..n] + [toks[n]];
      TaggedIn(d, toks[..n], x);
    }
  }

  lemma StepDown(d: Doc, s: Shape, p: Id, x: Id)
    requires WellFormed(d, s) && IsElement(d, x) && d[x].parent == Some(p)
    ensures IsElement(d, p) && x in Apply(d, s, Segment(ByTag("", d[x].kind.tag), []), p)
  {
    assert Rooted(d, s, x);
    assert x in Children(d, p);
    hide WellFormed;
    TaggedIn(d, Children(d, p), x);
  }

  lemma {:induction false} DescentDenotes(d: Doc, s: Shape, e: Id, k: nat)
    requires WellFormed(d, s) && IsElement(d, e) && Anc(d, e, k).Some?
    ensures IsElement(d, Anc(d, e, k).value)
    ensures e in Denote(d, s, TagSegs(TagsDown(d, e, k)), Anc(d, e, k).value)
    decreases k
  {
    hide WellFormed, DenoteAll, Apply;
    AncElement(d, s, e, k);
    if k > 0 {
      var x, p := Anc(d, e, k - 1).value, Anc(d, e, k).value;
      AncElement(d, s, e, k - 1);
      DescentDenotes(d, s, e, k - 1);
      StepDown(d, s, p, x);
      var g, rest := Segment(ByTag("", d[x].kind.tag), []), TagSegs(TagsDown(d, e, k - 1));
      var all := TagSegs(TagsDown(d, e, k));
      assert all[0] == g && all[1..] == rest;
      DenoteAllIn(d, s, rest, Apply(d, s, g, p), x, e);
    }
  }

  predicate AllPlain(tags: seq<string>) {
    forall i :: 0 <= i < |tags| ==> PlainTag(tags[i])
  }

  function Route(up: nat, tags: seq<string>): seq<Segment> {
    (if up == 0 then [Segment(Self, [])] else Segs(Parent, up)) + TagSegs(tags)
  }

  /** The spelled path compiles to the climb followed by the tags. */
  lemma SpelledCompiles(up: nat, tags: seq<string>)
    requires AllPlain(tags)
    ensures Compiled(Spelled(up, tags)) == Route(up, tags) && '[' !in Spelled(up, tags)
  {
    hide Route, Bares, Spelled, Join, Pieces;
    var parts := if up > 0 then Dots(up) + tags else ["."] + tags;
    SpelledJoins(up, tags);
    SplitJoin(parts);
    JoinPlain(parts);
    RouteBares(up, tags);
  }

  lemma RouteBares(up: nat, tags: seq<string>)
    requires AllPlain(tags)
    ensures Bares(if up > 0 then Dots(up) + tags else ["."] + tags) == Route(up, tags)
  {
    assert Bare("..") == Segment(Parent, []) && Bare(".") == Segment(Self, []);
    hide Bare;
    assert Bares(Dots(up)) == Segs(Parent, up) && Bares(["."]) == [Segment(Self, [])];
    TagBares(tags);
    hide Bares;
    BaresConcat(if up > 0 then Dots(up) else ["."], tags);
  }

  lemma BaresConcat(a: seq<string>, b: seq<string>)
    ensures Bares(a + b) == Bares(a) + Bares(b)
  {
    hide Bare;
  }

  lemma TagBares(tags: seq<string>)
    requires AllPlain(tags)
    ensures Bares(tags) == TagSegs(tags)
  {
    hide Bare, PlainTag;
    forall i | 0 <= i < |tags| ensures Bare(tags[i]) == Segment(ByTag("", tags[i]), []) {
      PlainBare(tags[i]);
    }
  }

  lemma PlainBare(tag: string)
    requires PlainTag(tag)
    ensures Bare(tag) == Segment(ByTag("", tag), [])
  {
  }

  lemma SpelledJoins(up: nat, tags: seq<string>)
    ensures Spelled(up, tags) == Join(if up > 0 then Dots(up) + tags else ["."] + tags)
  {
    if up == 0 {
      assert (["."] + tags)[1..] == tags;
    }
  }

  /** A joined path of plain parts is relative, does not end in a double slash and holds no filter. */
  lemma {:induction false} JoinPlain(parts: seq<string>)
    requires parts != []
    requires forall i :: 0 <= i < |parts| ==> parts[i] != "" && Unsplit(parts[i]) && '[' !in parts[i]
    ensures Join(parts) != "" && Join(parts)[0] != '/' && '[' !in Join(parts)
    ensures Join(parts)[|Join(parts)| - 1] != '/'
    decreases |parts|
  {
    if |parts| > 1 {
      JoinPlain(parts[1..]);
    }
    assert parts[0][0] in parts[0];
  }

  /** Evaluated from the source, the relative path of an element finds that element. */
  lemma RouteFinds(d: Doc, s: Shape, source: Id, e: Id, up: nat, down: nat)
    requires WellFormed(d, s) && IsElement(d, source) && IsElement(d, e) && Meet(d, source, e, up, down)
    ensures e in Denote(d, s, Route(up, TagsDown(d, e, down)), source)
  {
    hide WellFormed, DenoteAll, Anc;
    var climb := if up == 0 then [Segment(Self, [])] else Segs(Parent, up);
    var tags := TagSegs(TagsDown(d, e, down));
    var a := Anc(d, source, up).value;
    ClimbDenotes(d, s, source, up);
    if up == 0 {
      StaySelf(d, s, source);
    }
    DenoteConcat(d, s, climb, tags, [source]);
    DenoteAllOne(d, s, climb + tags, source);
    DescentDenotes(d, s, e, down);
    DenoteAllOne(d, s, tags, a);
  }

  lemma StaySelf(d: Doc, s: Shape, x: Id)
    requires WellFormed(d, s) && IsElement(d, x)
    ensures DenoteAll(d, s, [Segment(Self, [])], [x]) == [x] && Anc(d, x, 0) == Some(x)
  {
    hide WellFormed;
    var g := Segment(Self, []);
    DenoteAllOne(d, s, [g], x);
    assert [g][1..] == [] && Apply(d, s, g, x) == [x];
    DenoteAllDone(d, s, [x]);
  }

  /** Spelling the relative path, compiling it and traversing it from the source finds the element again. */
  method FindBack(d: Doc, ghost s: Shape, e: Id, source: Id) returns (found: seq<Id>)
    requires WellFormed(d, s) && IsElement(d, e) && IsElement(d, source) && !Apart(d, source, e)
    requires forall up: nat, down: nat :: Meet(d, source, e, up, down) ==> AllPlain(TagsDown(d, e, down))
    ensures e in found && Distinct(found)
  {
    hide WellFormed, Denote, Meet, Dedup, Compiled, Spelled, Route;
    var path, up, down := GetRelativePath(d, s, e, Some(source));
    SpelledCompiles(up, TagsDown(d, e, down));
    var segments := ParsePath(path);
    RouteFinds(d, s, source, e, up, down);
    var p := new Pather(d, s);
    found := p.Traverse(source, segments);
    DedupIs(Denote(d, s, segments, source), e);
  }
}
