/** `ethernet`: IEEE 802.3 frames with IEEE 802.1Q tags, marshalled into a buffer and parsed back. */
module Ethernet {
  import opened Basics
  import opened Wire

  const SERVICE_VLAN: bv16 := 0x88a8
  const CUSTOMER_VLAN: bv16 := 0x8100
  const MIN_PAYLOAD: nat := 46

  // ---- tags ----

  datatype Vlan = Vlan(priority: bv8, drop: bool, id: bv16)

  predicate ValidTag(v: Vlan) {
    v.priority <= 7 && v.id < 0xfff
  }

  function Pack(v: Vlan): bv16 {
    ((v.priority as bv16) << 13) | ((if v.drop then 1 else 0) << 12) | v.id
  }

  function Unpack(w: bv16): Vlan {
    Vlan((w >> 13) as bv8, w & 0x1000 != 0, w & 0x0fff)
  }

  lemma PrioritySurvives(v: Vlan)
    requires ValidTag(v)
    ensures Unpack(Pack(v)).priority == v.priority
  {
  }

  lemma DropSurvives(v: Vlan)
    requires ValidTag(v)
    ensures Unpack(Pack(v)).drop == v.drop
  {
  }

  lemma IdSurvives(v: Vlan)
    requires ValidTag(v)
    ensures Unpack(Pack(v)).id == v.id
  {
  }

  lemma WordBits(w: bv16)
    ensures w >> 13 <= 7 && ((w >> 13) << 13) | (if w & 0x1000 != 0 then 0x1000 else 0) | (w & 0x0fff) == w
  {
  }

  /** A valid tag survives packing; nothing else does. */
  lemma UnpackPack(v: Vlan)
    requires v.priority <= 7
    ensures v.id < 0xfff ==> Unpack(Pack(v)) == v
    ensures ValidTag(Unpack(Pack(v))) && Unpack(Pack(v)) == v <==> ValidTag(v)
  {
    hide Pack, Unpack;
    if v.id < 0xfff {
      PrioritySurvives(v);
      DropSurvives(v);
      IdSurvives(v);
    }
  }

  lemma PackUnpack(w: bv16)
    ensures Pack(Unpack(w)) == w && (ValidTag(Unpack(w)) <==> w & 0x0fff != 0x0fff)
  {
    WordBits(w);
  }

  method ReadVlan(v: Vlan, b: array<bv8>, at: nat) returns (ok: bool)
    requires at + 2 <= b.Length
    modifies b
    ensures ok <==> ValidTag(v)
    ensures ok ==> b[..] == Splice(old(b[..]), at, U16(Pack(v)))
    ensures !ok ==> b[..] == old(b[..])
  {
    hide Pack, U16, Splice;
    if v.priority > 7 {
      return false;
    }
    if v.id >= 0xfff {
      return false;
    }
    var ub := PackTag(v);
    PutUint16(b, at, ub);
    return true;
  }

  method PackTag(v: Vlan) returns (ub: bv16)
    ensures ub == Pack(v)
  {
    ub := (v.priority as bv16) << 13;
    var drop: bv16 := 0;
    if v.drop {
      drop := 1;
    }
    ub := ub | (drop << 12);
    ub := ub | v.id;
  }

  // ---- frames as values ----

  datatype Fields = Fields(dst: Bytes, src: Bytes, service: Option<Vlan>, vlan: Option<Vlan>, etherType: bv16, payload: Bytes)

  /** A service tag needs a customer tag, and both must be valid. */
  predicate Marshals(f: Fields) {
    && (f.service.Some? ==> f.vlan.Some?)
    && (f.service.Some? ==> ValidTag(f.service.value)) && (f.vlan.Some? ==> ValidTag(f.vlan.value))
  }

  function TagBytes(tpid: bv16, v: Option<Vlan>): Bytes {
    if v.None? then [] else U16(tpid) + U16(Pack(v.value))
  }

  function Tags(f: Fields): Bytes {
    TagBytes(SERVICE_VLAN, f.service) + TagBytes(CUSTOMER_VLAN, f.vlan)
  }

  function Header(f: Fields): Bytes {
    Fit(f.dst, 6) + Fit(f.src, 6) + Tags(f) + U16(f.etherType)
  }

  /** A frame on the wire, before padding. */
  function Sent(f: Fields): Bytes {
    Header(f) + f.payload
  }

  function PadLength(f: Fields): nat {
    if |f.payload| < MIN_PAYLOAD then MIN_PAYLOAD else |f.payload|
  }

  function Padded(f: Fields): Fields {
    f.(payload := Fit(f.payload, PadLength(f)))
  }

  predicate IsTpid(w: bv16) {
    w == SERVICE_VLAN || w == CUSTOMER_VLAN
  }

  // ---- parsing ----

  datatype Outcome = Outcome(err: Option<Error>, frame: Fields)

  /** The customer tag at `n`; the frame so far is `f`. */
  function ParseCustomer(f: Fields, b: Bytes, n: nat): (Outcome, nat)
    requires n + 4 <= |b|
  {
    var v := Unpack(Word(b[n], b[n + 1]));
    if v.id >= 0xfff then (Outcome(Some(InvalidVLAN), f), n)
    else (Outcome(None, f.(vlan := Some(v), etherType := Word(b[n + 2], b[n + 3]))), n + 4)
  }

  function ParseTags(f: Fields, tpid: bv16, b: Bytes): (r: (Outcome, nat))
    ensures r.0.err.None? ==> r.1 <= |b|
  {
    if |b| < 4 then (Outcome(Some(UnexpectedEOF), f), 0)
    else if tpid != SERVICE_VLAN then ParseCustomer(f, b, 0)
    else
      var v := Unpack(Word(b[0], b[1]));
      if v.id >= 0xfff then (Outcome(Some(InvalidVLAN), f), 0)
      else
        var g := f.(service := Some(v));
        if Word(b[2], b[3]) != CUSTOMER_VLAN then (Outcome(Some(InvalidVLAN), g), 0)
        else if |b| < 8 then (Outcome(Some(UnexpectedEOF), g), 0)
        else ParseCustomer(g, b, 4)
  }

  /** What parsing makes of a frame that already holds `f`: tags that are not on the wire stay. */
  function Parse(f: Fields, b: Bytes): Outcome {
    if |b| < 14 then Outcome(Some(UnexpectedEOF), f)
    else
      var et := Word(b[12], b[13]);
      var t := if IsTpid(et) then ParseTags(f, et, b[14..]) else (Outcome(None, f.(etherType := et)), 0);
      if t.0.err.Some? then t.0
      else Outcome(None, t.0.frame.(dst := b[..6], src := b[6..12], payload := b[14 + t.1..]))
  }

  const FRESH := Fields([], [], None, None, 0, [])

  /** Parsing gives back the frame it was sent as. */
  predicate Recoverable(f: Fields) {
    |f.dst| == 6 && |f.src| == 6 && (f.vlan.None? ==> !IsTpid(f.etherType))
  }

  lemma SentParts(f: Fields)
    ensures var b := Sent(f); var t := Tags(f);
      && |b| == 14 + |t| + |f.payload| && b[..6] == Fit(f.dst, 6) && b[6..12] == Fit(f.src, 6)
      && b[12..] == t + U16(f.etherType) + f.payload
  {
    hide Fit, Tags, U16;
    TwoBytes(f.etherType);
    FrontParts(Fit(f.dst, 6), Fit(f.src, 6), Tags(f), U16(f.etherType), f.payload);
  }

  lemma FrontParts(x: Bytes, y: Bytes, t: Bytes, w: Bytes, p: Bytes)
    requires |x| == 6 && |y| == 6
    ensures var b := x + y + t + w + p; b[..6] == x && b[6..12] == y && b[12..] == t + w + p
  {
    Assoc5(x + y, t, w, p, []);
    assert x + y + t + w + p == x + y + (t + w + p);
  }

  lemma UntaggedParses(f: Fields)
    requires Marshals(f) && f.vlan.None?
    ensures !IsTpid(f.etherType) ==> Parse(FRESH, Sent(f)) == Outcome(None, f.(dst := Fit(f.dst, 6), src := Fit(f.src, 6)))
    ensures IsTpid(f.etherType) ==> Parse(FRESH, Sent(f)) != Outcome(None, f)
  {
    SentParts(f);
    var b := Sent(f);
    assert Tags(f) == [];
    assert b[12] == b[12..][0] && b[13] == b[12..][1] && b[14..] == b[12..][2..];
    WordOfU16(f.etherType);
    assert b[14..] == f.payload;
  }

  lemma TagAt(b: Bytes, n: nat, w: bv16, v: Vlan, rest: Bytes)
    requires n <= |b| && b[n..] == U16(Pack(v)) + U16(w) + rest && ValidTag(v)
    ensures n + 4 <= |b| && Unpack(Word(b[n], b[n + 1])) == v && Word(b[n + 2], b[n + 3]) == w && b[n + 4..] == rest
  {
    var t := b[n..];
    UnpackPack(v);
    WordOfU16(Pack(v));
    WordOfU16(w);
    hide Pack, Unpack, U16, Word;
    assert |U16(w)| == 2 && |U16(Pack(v))| == 2 by { TwoBytes(w); TwoBytes(Pack(v)); }
    assert t[0] == U16(Pack(v))[0] && t[1] == U16(Pack(v))[1] && t[2] == U16(w)[0] && t[3] == U16(w)[1] && t[4..] == rest;
  }

  lemma TwoBytes(w: bv16)
    ensures |U16(w)| == 2
  {
  }

  lemma OneTagParses(t: Bytes, v: Vlan, w: bv16, rest: Bytes)
    requires ValidTag(v) && t == U16(Pack(v)) + U16(w) + rest
    ensures ParseTags(FRESH, CUSTOMER_VLAN, t) == (Outcome(None, FRESH.(vlan := Some(v), etherType := w)), 4) && t[4..] == rest
  {
    hide Pack, Unpack, U16, Word, ValidTag;
    assert t[0..] == t;
    TagAt(t, 0, w, v, rest);
    CustomerAt(FRESH, t, 0, v, w);
    hide ParseCustomer;
  }

  lemma CustomerAt(f: Fields, b: Bytes, n: nat, v: Vlan, w: bv16)
    requires n + 4 <= |b| && Unpack(Word(b[n], b[n + 1])) == v && Word(b[n + 2], b[n + 3]) == w && ValidTag(v)
    ensures ParseCustomer(f, b, n) == (Outcome(None, f.(vlan := Some(v), etherType := w)), n + 4)
  {
    hide Unpack, Word;
  }

  lemma ServiceAt(f: Fields, b: Bytes, s: Vlan)
    requires |b| >= 8 && Unpack(Word(b[0], b[1])) == s && Word(b[2], b[3]) == CUSTOMER_VLAN && ValidTag(s)
    ensures ParseTags(f, SERVICE_VLAN, b) == ParseCustomer(f.(service := Some(s)), b, 4)
  {
    hide Unpack, Word, ParseCustomer;
  }

  lemma TwoTagsParse(t: Bytes, s: Vlan, v: Vlan, w: bv16, rest: Bytes)
    requires ValidTag(s) && ValidTag(v) && t == U16(Pack(s)) + U16(CUSTOMER_VLAN) + (U16(Pack(v)) + U16(w) + rest)
    ensures ParseTags(FRESH, SERVICE_VLAN, t) == (Outcome(None, FRESH.(service := Some(s), vlan := Some(v), etherType := w)), 8)
    ensures t[8..] == rest
  {
    hide Pack, Unpack, U16, Word, ValidTag, ParseTags, ParseCustomer;
    assert t[0..] == t;
    var inner := U16(Pack(v)) + U16(w) + rest;
    TagAt(t, 0, CUSTOMER_VLAN, s, inner);
    TagAt(t, 4, w, v, rest);
    ServiceAt(FRESH, t, s);
    CustomerAt(FRESH.(service := Some(s)), t, 4, v, w);
  }

  /** The bytes behind the first type field of a tagged frame. */
  lemma FirstTag(f: Fields, tpid: bv16, v: Vlan, more: Bytes)
    requires Tags(f) == U16(tpid) + U16(Pack(v)) + more
    ensures var b := Sent(f);
      |b| >= 18 && Word(b[12], b[13]) == tpid && b[14..] == U16(Pack(v)) + (more + U16(f.etherType) + f.payload)
      && b[..6] == Fit(f.dst, 6) && b[6..12] == Fit(f.src, 6)
  {
    SentParts(f);
    WordOfU16(tpid);
    hide Pack, U16, Word, Sent, Tags, Fit;
    TwoBytes(tpid);
    TwoBytes(Pack(v));
    var b := Sent(f);
    var c := b[12..];
    assert c[0] == U16(tpid)[0] && c[1] == U16(tpid)[1];
    assert c[2..] == U16(Pack(v)) + (more + U16(f.etherType) + f.payload);
    assert b[14..] == c[2..] && b[12] == c[0] && b[13] == c[1];
  }

  /** A tagged frame parses as its tags do, with the addresses in front and the payload behind. */
  lemma TaggedParses(b: Bytes, tpid: bv16, g: Fields, n: nat)
    requires |b| >= 14 && Word(b[12], b[13]) == tpid && IsTpid(tpid) && 14 + n <= |b|
    requires ParseTags(FRESH, tpid, b[14..]) == (Outcome(None, g), n)
    ensures Parse(FRESH, b) == Outcome(None, g.(dst := b[..6], src := b[6..12], payload := b[14 + n..]))
  {
    hide Word, ParseTags;
  }

  lemma SingleParses(f: Fields)
    requires Marshals(f) && f.vlan.Some? && f.service.None?
    ensures Parse(FRESH, Sent(f)) == Outcome(None, f.(dst := Fit(f.dst, 6), src := Fit(f.src, 6)))
  {
    var v, t := f.vlan.value, Sent(f);
    assert Tags(f) == U16(CUSTOMER_VLAN) + U16(Pack(v)) + [];
    hide Pack, U16, Word, Sent, Tags, Fit, ParseTags, Parse;
    FirstTag(f, CUSTOMER_VLAN, v, []);
    NothingBetween(U16(Pack(v)), U16(f.etherType), f.payload);
    OneTagParses(t[14..], v, f.etherType, f.payload);
    TaggedParses(t, CUSTOMER_VLAN, FRESH.(vlan := Some(v), etherType := f.etherType), 4);
    assert t[14..][4..] == t[18..];
  }

  lemma NothingBetween(a: Bytes, b: Bytes, c: Bytes)
    ensures a + ([] + b + c) == a + b + c
  {
    Assoc(a, b, c);
    assert [] + b == b;
  }

  lemma DoubleParses(f: Fields)
    requires Marshals(f) && f.service.Some?
    ensures Parse(FRESH, Sent(f)) == Outcome(None, f.(dst := Fit(f.dst, 6), src := Fit(f.src, 6)))
  {
    var s, v, t := f.service.value, f.vlan.value, Sent(f);
    var more := U16(CUSTOMER_VLAN) + U16(Pack(v));
    assert Tags(f) == U16(SERVICE_VLAN) + U16(Pack(s)) + more;
    hide Pack, U16, Word, Sent, Tags, Fit, ParseTags, Parse;
    FirstTag(f, SERVICE_VLAN, s, more);
    Nested(U16(Pack(s)), U16(CUSTOMER_VLAN), U16(Pack(v)), U16(f.etherType), f.payload);
    TwoTagsParse(t[14..], s, v, f.etherType, f.payload);
    TaggedParses(t, SERVICE_VLAN, FRESH.(service := Some(s), vlan := Some(v), etherType := f.etherType), 8);
    assert t[14..][8..] == t[22..];
  }

  lemma Nested(a: Bytes, b: Bytes, c: Bytes, d: Bytes, e: Bytes)
    ensures a + (b + c + d + e) == a + b + (c + d + e)
  {
    Assoc5(a, b, c, d, e);
    Assoc(a + b, c + d, e);
    Assoc(a + b, c, d);
  }

  function Refill(g: Fields, f: Fields): Fields {
    g.(service := if g.service.Some? then g.service else f.service, vlan := if g.vlan.Some? then g.vlan else f.vlan)
  }

  lemma TagsReuse(f: Fields, tpid: bv16, b: Bytes)
    ensures var r, q := ParseTags(f, tpid, b), ParseTags(FRESH, tpid, b);
      && r.0.err == q.0.err
      && (r.0.err.None? ==>
            r.1 == q.1 && r.0.frame.service == Refill(q.0.frame, f).service && r.0.frame.vlan == q.0.frame.vlan
            && q.0.frame.vlan.Some? && r.0.frame.etherType == q.0.frame.etherType)
  {
    hide Word, Unpack;
  }

  /** A frame that is used again keeps the tags the new bytes do not have; all else is as in a fresh one. */
  lemma ReuseKeepsTags(f: Fields, b: Bytes)
    ensures Parse(f, b).err == Parse(FRESH, b).err
    ensures var r, g := Parse(f, b), Parse(FRESH, b).frame;
      r.err.None? ==> r.frame == Refill(g, f)
  {
    hide Word, Unpack, ParseTags;
    if |b| >= 14 && IsTpid(Word(b[12], b[13])) {
      TagsReuse(f, Word(b[12], b[13]), b[14..]);
    }
  }

  /** What was marshalled comes back exactly when both addresses are six bytes and an untagged type is no tag. */
  lemma ParsesBack(f: Fields)
    requires Marshals(f)
    ensures Parse(FRESH, Sent(f)) == Outcome(None, f) <==> Recoverable(f)
  {
    hide Parse, Sent;
    assert |f.dst| == 6 ==> Fit(f.dst, 6) == f.dst;
    assert |f.src| == 6 ==> Fit(f.src, 6) == f.src;
    if f.service.Some? {
      DoubleParses(f);
    } else if f.vlan.Some? {
      SingleParses(f);
    } else {
      UntaggedParses(f);
    }
  }

  lemma UnpackAt(b: Bytes, n: nat)
    requires n + 4 <= |b|
    ensures U16(Pack(Unpack(Word(b[n], b[n + 1])))) + U16(Word(b[n + 2], b[n + 3])) == b[n..n + 4]
    ensures Unpack(Word(b[n], b[n + 1])).id < 0xfff ==> ValidTag(Unpack(Word(b[n], b[n + 1])))
  {
    PackUnpack(Word(b[n], b[n + 1]));
    U16OfWord(b[n], b[n + 1]);
    U16OfWord(b[n + 2], b[n + 3]);
    assert Unpack(Word(b[n], b[n + 1])).priority <= 7;
  }

  lemma OneTagParsed(b: Bytes)
    requires ParseTags(FRESH, CUSTOMER_VLAN, b).0.err.None?
    ensures var r := ParseTags(FRESH, CUSTOMER_VLAN, b); var f := r.0.frame;
      Marshals(f) && f.vlan.Some? && U16(CUSTOMER_VLAN) + b[..r.1] == Tags(f) + U16(f.etherType)
  {
    UnpackAt(b, 0);
    hide Pack, Unpack, U16, Word, ValidTag;
    assert b[..4] == b[0..4];
  }

  lemma TwoTagsParsed(b: Bytes)
    requires ParseTags(FRESH, SERVICE_VLAN, b).0.err.None?
    ensures var r := ParseTags(FRESH, SERVICE_VLAN, b); var f := r.0.frame;
      Marshals(f) && f.vlan.Some? && U16(SERVICE_VLAN) + b[..r.1] == Tags(f) + U16(f.etherType)
  {
    hide Pack, Unpack, U16, Word, ValidTag;
    UnpackAt(b, 0);
    UnpackAt(b, 4);
    var f := ParseTags(FRESH, SERVICE_VLAN, b).0.frame;
    var s, v := U16(Pack(f.service.value)), U16(Pack(f.vlan.value));
    assert s + U16(CUSTOMER_VLAN) == b[0..4] && v + U16(f.etherType) == b[4..8];
    assert Tags(f) == U16(SERVICE_VLAN) + s + (U16(CUSTOMER_VLAN) + v);
    hide ParseTags, Tags, Marshals;
    Halves(b, U16(SERVICE_VLAN), s, U16(CUSTOMER_VLAN), v, U16(f.etherType));
  }

  lemma Halves(b: Bytes, t: Bytes, s: Bytes, c: Bytes, v: Bytes, w: Bytes)
    requires 8 <= |b| && s + c == b[0..4] && v + w == b[4..8]
    ensures t + b[..8] == t + s + (c + v) + w
  {
    assert b[..8] == s + c + (v + w);
  }

  /** The pieces an accepted frame was cut into: `n` bytes of tags behind the first type field. */
  lemma ParsedParts(b: Bytes) returns (n: nat)
    requires Parse(FRESH, b).err.None?
    ensures 14 + n <= |b|
    ensures var f := Parse(FRESH, b).frame;
      && Marshals(f) && Recoverable(f)
      && f.dst == b[..6] && f.src == b[6..12] && f.payload == b[14 + n..]
      && Tags(f) + U16(f.etherType) == b[12..14] + b[14..][..n]
  {
    var et := Word(b[12], b[13]);
    U16OfWord(b[12], b[13]);
    assert U16(et) == b[12..14];
    var f := Parse(FRESH, b).frame;
    n := 0;
    if et == SERVICE_VLAN {
      TwoTagsParsed(b[14..]);
      n := ParseTags(FRESH, et, b[14..]).1;
      SameTags(ParseTags(FRESH, et, b[14..]).0.frame, f);
    } else if et == CUSTOMER_VLAN {
      OneTagParsed(b[14..]);
      n := ParseTags(FRESH, et, b[14..]).1;
      SameTags(ParseTags(FRESH, et, b[14..]).0.frame, f);
    } else {
      assert b[14..][..0] == [] && Tags(f) == [];
    }
    hide Word, ParseTags, Tags, U16;
  }

  lemma SameTags(f: Fields, g: Fields)
    requires f.service == g.service && f.vlan == g.vlan
    ensures Tags(f) == Tags(g) && Marshals(f) == Marshals(g)
  {
  }

  /** Whatever is accepted is, byte for byte, the frame it was parsed into. */
  lemma ParsedSends(b: Bytes)
    requires Parse(FRESH, b).err.None?
    ensures var f := Parse(FRESH, b).frame; Marshals(f) && Recoverable(f) && Sent(f) == b
  {
    hide Parse, Tags, U16, Marshals, IsTpid;
    var f := Parse(FRESH, b).frame;
    var n := ParsedParts(b);
    assert Fit(f.dst, 6) == f.dst && Fit(f.src, 6) == f.src;
    Reassemble(b, n);
    hide Fit;
    Assoc(f.dst + f.src, Tags(f), U16(f.etherType));
  }

  lemma Reassemble(b: Bytes, n: nat)
    requires 14 + n <= |b|
    ensures b == b[..6] + b[6..12] + (b[12..14] + b[14..][..n]) + b[14 + n..]
  {
  }

  /** Parsing and marshalling again reproduces the bytes, padded to the minimum. */
  lemma MarshalsBack(b: Bytes)
    requires Parse(FRESH, b).err.None?
    ensures var f := Parse(FRESH, b).frame; Sent(Padded(f)) == b + Zeros(PadLength(f) - |f.payload|)
  {
    ParsedSends(b);
    var f := Parse(FRESH, b).frame;
    hide Parse, Header;
    assert Header(Padded(f)) == Header(f) by { SameHeader(f); }
    assert Fit(f.payload, PadLength(f)) == f.payload + Zeros(PadLength(f) - |f.payload|);
  }

  lemma SameHeader(f: Fields)
    ensures Header(Padded(f)) == Header(f)
  {
  }

  // ---- the frame object ----

  class Frame {
    var destination: Bytes
    var source: Bytes
    var serviceVlan: Option<Vlan>
    var vlan: Option<Vlan>
    var etherType: bv16
    var payload: Bytes

    function Value(): Fields
      reads this
    {
      Fields(destination, source, serviceVlan, vlan, etherType, payload)
    }

    constructor ()
      ensures Value() == FRESH
    {
      destination, source, serviceVlan, vlan, etherType, payload := [], [], None, None, 0, [];
    }

    method Length() returns (n: nat)
      ensures serviceVlan.None? || vlan.Some? ==> n == |Header(Value())| + PadLength(Value())
      ensures n >= 14 + |payload|
    {
      var pl := |payload|;
      if pl < MIN_PAYLOAD {
        pl := MIN_PAYLOAD;
      }
      var vlanLen := 0;
      if serviceVlan.Some? && vlan.Some? {
        vlanLen := 8;
      } else if vlan.Some? {
        vlanLen := 4;
      }
      return 6 + 6 + vlanLen + 2 + pl;
    }

    /** Writes the tag, if there is one, and moves on. */
    method ReadTag(v: Option<Vlan>, tpid: bv16, b: array<bv8>, n: nat, ghost front: Bytes) returns (m: nat, ok: bool)
      requires Blank(b[..], front) && n == |front| && n + |TagBytes(tpid, v)| <= b.Length
      modifies b
      ensures ok <==> v.None? || ValidTag(v.value)
      ensures ok ==> m == n + |TagBytes(tpid, v)| && Blank(b[..], front + TagBytes(tpid, v))
    {
      hide Blank, Splice, Pack, U16, ValidTag;
      m, ok := n, true;
      if v.None? {
        assert front + [] == front;
        return;
      }
      TwoBytes(tpid);
      TwoBytes(Pack(v.value));
      BlankWrite(b[..], front, U16(tpid));
      PutUint16(b, n, tpid);
      BlankWrite(b[..], front + U16(tpid), U16(Pack(v.value)));
      ok := ReadVlan(v.value, b, n + 2);
      assert front + U16(tpid) + U16(Pack(v.value)) == front + (U16(tpid) + U16(Pack(v.value)));
      m := n + 4;
    }

    /** `read`: fills a zeroed buffer that is long enough. */
    method Read(b: array<bv8>) returns (err: Option<Error>)
      requires Blank(b[..], [])
      requires b.Length >= 14 + |payload| && (serviceVlan.None? || vlan.Some? ==> b.Length >= |Sent(Value())|)
      modifies b
      ensures err == if Marshals(Value()) then None else Some(InvalidVLAN)
      ensures err.None? ==> Blank(b[..], Sent(Value()))
    {
      if serviceVlan.Some? && vlan.None? {
        return Some(InvalidVLAN);
      }
      var n, ok := ReadTags(b);
      if !ok {
        return Some(InvalidVLAN);
      }
      ReadRest(b, n);
      return None;
    }

    method ReadTags(b: array<bv8>) returns (n: nat, ok: bool)
      requires Blank(b[..], []) && (serviceVlan.Some? ==> vlan.Some?) && b.Length >= |Sent(Value())|
      modifies b
      ensures ok <==> Marshals(Value())
      ensures ok ==> n == 12 + |Tags(Value())| && Blank(b[..], Fit(destination, 6) + Fit(source, 6) + Tags(Value()))
    {
      hide Blank, Splice, Fit, ValidTag;
      BlankCopy(b[..], [], destination, 6);
      Copy(b, 0, 6, destination);
      assert [] + Fit(destination, 6) == Fit(destination, 6);
      BlankCopy(b[..], Fit(destination, 6), source, 6);
      Copy(b, 6, 12, source);
      ghost var front := Fit(destination, 6) + Fit(source, 6);
      n, ok := ReadTag(serviceVlan, SERVICE_VLAN, b, 12, front);
      if !ok {
        return;
      }
      ghost var s, c := TagBytes(SERVICE_VLAN, serviceVlan), TagBytes(CUSTOMER_VLAN, vlan);
      n, ok := ReadTag(vlan, CUSTOMER_VLAN, b, n, front + s);
      assert front + s + c == front + (s + c);
    }

    /** The type and the payload, behind the tags. */
    method ReadRest(b: array<bv8>, n: nat)
      requires b.Length >= |Sent(Value())| && n == 12 + |Tags(Value())|
      requires Blank(b[..], Fit(destination, 6) + Fit(source, 6) + Tags(Value()))
      modifies b
      ensures Blank(b[..], Sent(Value()))
    {
      hide Blank, Splice, U16, Fit, Tags;
      TwoBytes(etherType);
      BlankWrite(b[..], Fit(destination, 6) + Fit(source, 6) + Tags(Value()), U16(etherType));
      PutUint16(b, n, etherType);
      var room := b.Length - (n + 2);
      BlankTail(b[..], Header(Value()), payload);
      Copy(b, n + 2, b.Length, payload);
    }

    method MarshalBinary() returns (b: array<bv8>, err: Option<Error>)
      ensures fresh(b) && err == if Marshals(Value()) then None else Some(InvalidVLAN)
      ensures err.None? ==> b[..] == Sent(Padded(Value()))
    {
      hide ValidTag, Sent, Header;
      var n := Length();
      b := new bv8[n](_ => 0);
      BlankNew(b[..]);
      SentLength(Value());
      err := Read(b);
      if err.None? {
        BlankPadded(b[..], Value());
      }
    }

    /** The frame followed by its checksum. */
    method MarshalFCS(crc: Bytes -> bv32) returns (b: Result<Bytes>)
      ensures b == if Marshals(Value()) then Ok(Checked(Sent(Padded(Value())), crc)) else Err(InvalidVLAN)
    {
      hide ValidTag, Sent, Header;
      var n := Length();
      var a := new bv8[n + 4](_ => 0);
      BlankNew(a[..]);
      SentLength(Value());
      var err := Read(a);
      if err.Some? {
        return Err(err.value);
      }
      BlankLonger(a[..], Value());
      var body := a[0..a.Length - 4];
      PutUint32(a, a.Length - 4, crc(body));
      assert a[..] == Checked(body, crc);
      return Ok(a[..]);
    }

    /** `unmarshalVLANs`: the bytes behind the first type field. */
    method UnmarshalVLANs(tpid: bv16, b: Bytes) returns (n: nat, err: Option<Error>)
      requires IsTpid(tpid)
      modifies this
      ensures var r := ParseTags(old(Value()), tpid, b); err == r.0.err && Value() == r.0.frame && (err.None? ==> n == r.1)
    {
      hide Word, Unpack;
      n := 0;
      if |b| < 4 {
        return 0, Some(UnexpectedEOF);
      }
      if tpid == SERVICE_VLAN {
        var v := Unpack(Word(b[n], b[n + 1]));
        if v.id >= 0xfff {
          return 0, Some(InvalidVLAN);
        }
        serviceVlan := Some(v);
        if Word(b[n + 2], b[n + 3]) != CUSTOMER_VLAN {
          return 0, Some(InvalidVLAN);
        }
        n := n + 4;
        if |b| - n < 4 {
          return 0, Some(UnexpectedEOF);
        }
      }
      var v := Unpack(Word(b[n], b[n + 1]));
      if v.id >= 0xfff {
        return 0, Some(InvalidVLAN);
      }
      vlan := Some(v);
      etherType := Word(b[n + 2], b[n + 3]);
      n := n + 4;
      err := None;
    }

    method UnmarshalBinary(b: Bytes) returns (err: Option<Error>)
      modifies this
      ensures Outcome(err, Value()) == Parse(old(Value()), b)
    {
      hide Word, Unpack, ParseTags;
      if |b| < 14 {
        return Some(UnexpectedEOF);
      }
      var n := 14;
      var et := Word(b[n - 2], b[n - 1]);
      if IsTpid(et) {
        var nn, e := UnmarshalVLANs(et, b[n..]);
        if e.Some? {
          return e;
        }
        n := n + nn;
      } else {
        etherType := et;
      }
      destination := b[0..6];
      source := b[6..12];
      payload := b[n..];
      return None;
    }

    method UnmarshalFCS(b: Bytes, crc: Bytes -> bv32) returns (err: Option<Error>)
      modifies this
      ensures Outcome(err, Value()) == ParseChecked(old(Value()), b, crc)
    {
      hide Parse, Wire.Long;
      var n := |b|;
      if n < 4 {
        return Some(UnexpectedEOF);
      }
      var want := Wire.Long(b[n - 4], b[n - 3], b[n - 2], b[n - 1]);
      var got := crc(b[0..n - 4]);
      if want != got {
        return Some(InvalidFCS);
      }
      err := UnmarshalBinary(b[0..n - 4]);
    }
  }

  lemma BlankTail(s: Bytes, front: Bytes, w: Bytes)
    requires Blank(s, front) && |front| + |w| <= |s|
    ensures Blank(Splice(s, |front|, w[..if |w| < |s| - |front| then |w| else |s| - |front|]), front + w)
  {
    assert w[..if |w| < |s| - |front| then |w| else |s| - |front|] == w;
    BlankWrite(s, front, w);
  }

  lemma SentLength(f: Fields)
    ensures |Sent(f)| == |Header(f)| + |f.payload| && |Header(f)| >= 14
  {
  }

  lemma BlankPadded(s: Bytes, f: Fields)
    requires Blank(s, Sent(f)) && |s| == |Header(f)| + PadLength(f)
    ensures s == Sent(Padded(f))
  {
    SameHeader(f);
    hide Header;
    assert Fit(f.payload, PadLength(f)) == f.payload + Zeros(PadLength(f) - |f.payload|);
  }

  lemma BlankLonger(s: Bytes, f: Fields)
    requires Blank(s, Sent(f)) && |s| == |Header(f)| + PadLength(f) + 4
    ensures s[..|s| - 4] == Sent(Padded(f))
  {
    SameHeader(f);
    hide Header;
    assert Fit(f.payload, PadLength(f)) == f.payload + Zeros(PadLength(f) - |f.payload|);
    assert Zeros(|s| - |Sent(f)|)[..|s| - |Sent(f)| - 4] == Zeros(PadLength(f) - |f.payload|);
  }

  function Checked(body: Bytes, crc: Bytes -> bv32): Bytes {
    body + U32(crc(body))
  }

  function ParseChecked(f: Fields, b: Bytes, crc: Bytes -> bv32): Outcome {
    if |b| < 4 then Outcome(Some(UnexpectedEOF), f)
    else
      var n := |b| - 4;
      if Wire.Long(b[n], b[n + 1], b[n + 2], b[n + 3]) != crc(b[..n]) then Outcome(Some(InvalidFCS), f)
      else Parse(f, b[..n])
  }

  /** A checked frame parses like the frame itself, and nothing else with the same body passes the check. */
  lemma CheckedParses(f: Fields, body: Bytes, crc: Bytes -> bv32, tail: Bytes)
    requires |tail| == 4
    ensures ParseChecked(f, Checked(body, crc), crc) == Parse(f, body)
    ensures tail != U32(crc(body)) ==> ParseChecked(f, body + tail, crc) == Outcome(Some(InvalidFCS), f)
  {
    var w := U32(crc(body));
    LongOfU32(crc(body));
    U32OfLong(tail[0], tail[1], tail[2], tail[3]);
    hide Parse, U32, Wire.Long;
    assert tail == [tail[0], tail[1], tail[2], tail[3]];
    BehindBody(f, body, w, crc);
    BehindBody(f, body, tail, crc);
    hide ParseChecked;
  }

  lemma BehindBody(f: Fields, body: Bytes, w: Bytes, crc: Bytes -> bv32)
    requires |w| == 4
    ensures ParseChecked(f, body + w, crc)
         == if Wire.Long(w[0], w[1], w[2], w[3]) == crc(body) then Parse(f, body) else Outcome(Some(InvalidFCS), f)
  {
    hide Parse, Wire.Long;
    var b, n := body + w, |body|;
    assert b[..n] == body && b[n] == w[0] && b[n + 1] == w[1] && b[n + 2] == w[2] && b[n + 3] == w[3];
  }

  lemma U32OfLong(a: bv8, b: bv8, c: bv8, d: bv8)
    ensures U32(Wire.Long(a, b, c, d)) == [a, b, c, d]
  {
    U16OfWord(a, b);
    U16OfWord(c, d);
  }

  /** Marshal into bytes, parse into a fresh frame. */
  method Roundtrip(f: Frame) returns (g: Frame, err: Option<Error>)
    requires Marshals(f.Value())
    ensures fresh(g) && (err.None? && g.Value() == Padded(f.Value()) <==> Recoverable(f.Value()))
  {
    hide Parse, Sent, Marshals;
    var b, e := f.MarshalBinary();
    g := new Frame();
    err := g.UnmarshalBinary(b[..]);
    PaddedMarshals(f.Value());
    ParsesBack(Padded(f.Value()));
  }

  lemma PaddedMarshals(f: Fields)
    requires Marshals(f)
    ensures Marshals(Padded(f)) && (Recoverable(f) <==> Recoverable(Padded(f)))
  {
  }

  // ---- the failing cases, at an input ----

  /** The two bytes of a tag: three bits of priority, the drop flag and twelve bits of ID. */
  function TagWire(v: Vlan): Bytes {
    [(v.priority << 5) | (if v.drop then 0x10 else 0) | ((v.id >> 8) as bv8 & 0x0f), (v.id & 0xff) as bv8]
  }

  lemma TagLayout(v: Vlan)
    requires ValidTag(v)
    ensures U16(Pack(v)) == TagWire(v)
  {
    TagHigh(v);
    TagLow(v);
  }

  lemma TagHigh(v: Vlan)
    requires ValidTag(v)
    ensures (Pack(v) >> 8) as bv8 == (v.priority << 5) | (if v.drop then 0x10 else 0) | ((v.id >> 8) as bv8 & 0x0f)
  {
  }

  lemma TagLow(v: Vlan)
    requires ValidTag(v)
    ensures (Pack(v) & 0xff) as bv8 == (v.id & 0xff) as bv8
  {
  }

  lemma TypeLayout(f: Fields, hi: bv8, lo: bv8)
    requires f.etherType == ((hi as bv16) << 8) | (lo as bv16)
    ensures U16(f.etherType) == [hi, lo] && U16(SERVICE_VLAN) == [0x88, 0xa8] && U16(CUSTOMER_VLAN) == [0x81, 0x00]
  {
    PairOf(hi, lo);
  }

  /**
    A frame byte by byte: destination, source, the tags behind 88 a8 and 81 00, the type, and the payload with zeros up
    to 46 bytes.
  */
  lemma FrameLayout(f: Fields, hi: bv8, lo: bv8)
    requires Marshals(f) && |f.dst| == 6 && |f.src| == 6 && f.etherType == ((hi as bv16) << 8) | (lo as bv16)
    ensures Sent(Padded(f)) ==
      f.dst + f.src
      + (if f.service.Some? then [0x88, 0xa8] + TagWire(f.service.value) else [])
      + (if f.vlan.Some? then [0x81, 0x00] + TagWire(f.vlan.value) else [])
      + [hi, lo] + f.payload + Zeros(if |f.payload| < 46 then 46 - |f.payload| else 0)
  {
    TypeLayout(f, hi, lo);
    if f.service.Some? {
      TagLayout(f.service.value);
    }
    if f.vlan.Some? {
      TagLayout(f.vlan.value);
    }
    PaddedPayload(f);
    hide U16, Pack, TagWire, Padded, Fit, Zeros;
    FitExact(f.dst);
    FitExact(f.src);
    PaddedFields(f);
    var a, b := TagBytes(SERVICE_VLAN, f.service), TagBytes(CUSTOMER_VLAN, f.vlan);
    Assoc(f.dst + f.src, a, b);
    Assoc(f.dst + f.src + a + b + [hi, lo], f.payload, Zeros(if |f.payload| < 46 then 46 - |f.payload| else 0));
  }

  lemma FitExact(a: Bytes)
    requires |a| == 6
    ensures Fit(a, 6) == a
  {
  }

  lemma PaddedFields(f: Fields)
    ensures Padded(f) == f.(payload := Padded(f).payload)
  {
  }

  lemma PaddedPayload(f: Fields)
    ensures Padded(f).payload == f.payload + Zeros(if |f.payload| < 46 then 46 - |f.payload| else 0)
  {
    assert f.payload + Zeros(0) == f.payload;
  }

  const MAC: Bytes := [0, 0, 0, 0, 0, 0]

  /** An untagged frame whose type is the customer tag identifier: its first four payload bytes are read as a tag and a type. */
  lemma TagTypeMisread()
    ensures var f := Fields(MAC, MAC, None, None, CUSTOMER_VLAN, Zeros(46));
      && Marshals(f) && Padded(f) == f
      && Parse(FRESH, Sent(f)) == Outcome(None, f.(vlan := Some(Vlan(0, false, 0)), etherType := 0, payload := Zeros(42)))
  {
    var f, v := Fields(MAC, MAC, None, None, CUSTOMER_VLAN, Zeros(46)), Vlan(0, false, 0);
    var b := Sent(f);
    SentParts(f);
    assert Tags(f) == [];
    WordOfU16(CUSTOMER_VLAN);
    assert b[12] == b[12..][0] && b[13] == b[12..][1] && b[14..] == b[12..][2..] == Zeros(46);
    assert Pack(v) == 0 && U16(0) == [0, 0];
    assert Zeros(46) == [0, 0] + [0, 0] + Zeros(42);
    OneTagParses(b[14..], v, 0, Zeros(42));
    assert b[14..][4..] == b[18..];
  }

  /** A frame that held a tag still holds it after it was used for an untagged frame. */
  lemma TagOutlives()
    ensures var v, f := Vlan(1, false, 5), Fields(MAC, MAC, None, None, 0x0800, Zeros(46));
      && Parse(FRESH, Sent(f)) == Outcome(None, f)
      && Parse(FRESH.(vlan := Some(v)), Sent(f)) == Outcome(None, f.(vlan := Some(v)))
  {
    var v, f := Vlan(1, false, 5), Fields(MAC, MAC, None, None, 0x0800, Zeros(46));
    ParsesBack(f);
    ReuseKeepsTags(FRESH.(vlan := Some(v)), Sent(f));
  }
}
