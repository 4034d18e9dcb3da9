/** `arp`: packets of RFC 826, their one-byte length arithmetic, and packets carried in Ethernet frames. */
module Arp {
  import opened Basics
  import opened Wire
  import Ethernet

  const ETHER_TYPE_ARP: bv16 := 0x0806
  const ETHER_TYPE_IPV4: bv16 := 0x0800

  function SizeOf(b: bv8): (n: nat)
    ensures n < 256
  {
    b as int
  }

  lemma SizeOfNext(b: bv8)
    requires b < 255
    ensures SizeOf(b + 1) == SizeOf(b) + 1
  {
  }

  /** `uint8(n)` for a number that fits. */
  function ByteOf(n: nat): (b: bv8)
    requires n < 256
    ensures SizeOf(b) == n
  {
    if n == 0 then 0
    else
      var c := ByteOf(n - 1);
      assert c < 255;
      SizeOfNext(c);
      c + 1
  }

  datatype Packet = Packet(hardwareType: bv16, protocolType: bv16, hardwareAddrLength: bv8, ipLength: bv8,
                           operation: bv16, senderHW: Bytes, senderIP: Bytes, targetHW: Bytes, targetIP: Bytes)

  const BLANK := Packet(0, 0, 0, 0, 0, [], [], [], [])

  function Total(hal: nat, pl: nat): nat {
    8 + 2 * pl + 2 * hal
  }

  function Size(p: Packet): nat {
    Total(SizeOf(p.hardwareAddrLength), SizeOf(p.ipLength))
  }

  /** The addresses have the lengths the packet claims. */
  predicate Consistent(p: Packet) {
    && |p.senderHW| == SizeOf(p.hardwareAddrLength) == |p.targetHW|
    && |p.senderIP| == SizeOf(p.ipLength) == |p.targetIP|
  }

  function Fixed(p: Packet): (r: Bytes)
    ensures |r| == 8
  {
    U16(p.hardwareType) + U16(p.protocolType) + [p.hardwareAddrLength, p.ipLength] + U16(p.operation)
  }

  function Addresses(p: Packet): Bytes {
    var hal, pl := SizeOf(p.hardwareAddrLength), SizeOf(p.ipLength);
    Fit(p.senderHW, hal) + Fit(p.senderIP, pl) + Fit(p.targetHW, hal) + Fit(p.targetIP, pl)
  }

  function Sent(p: Packet): Bytes {
    Fixed(p) + Addresses(p)
  }

  datatype Outcome = Outcome(err: Option<Error>, packet: Packet)

  function ParseFixed(p: Packet, b: Bytes): Packet
    requires |b| >= 8
  {
    p.(hardwareType := Word(b[0], b[1]), protocolType := Word(b[2], b[3]),
       hardwareAddrLength := b[4], ipLength := b[5], operation := Word(b[6], b[7]))
  }

  /** The addresses lie behind the eight fixed bytes, one after the other. */
  function ParseAddresses(p: Packet, b: Bytes): Packet
    requires |b| >= Size(p)
  {
    var ml, il := SizeOf(p.hardwareAddrLength), SizeOf(p.ipLength);
    p.(senderHW := b[8..8 + ml], senderIP := b[8 + ml..8 + ml + il],
       targetHW := b[8 + ml + il..8 + ml + il + ml], targetIP := b[8 + ml + il + ml..8 + ml + il + ml + il])
  }

  function Parse(p: Packet, b: Bytes): Outcome {
    if |b| < 8 then Outcome(Some(UnexpectedEOF), p)
    else
      var q := ParseFixed(p, b);
      if |b| < Size(q) then Outcome(Some(UnexpectedEOF), q) else Outcome(None, ParseAddresses(q, b))
  }

  // ---- laws ----

  lemma FixedParses(p: Packet, prior: Packet, rest: Bytes)
    ensures ParseFixed(prior, Fixed(p) + rest)
         == p.(senderHW := prior.senderHW, senderIP := prior.senderIP, targetHW := prior.targetHW, targetIP := prior.targetIP)
  {
    var b, f := Fixed(p) + rest, Fixed(p);
    assert b[..8] == f;
    WordOfU16(p.hardwareType);
    WordOfU16(p.protocolType);
    WordOfU16(p.operation);
  }

  lemma FourSlices(f: Bytes, a: Bytes, c: Bytes, d: Bytes, e: Bytes, tail: Bytes)
    requires |f| == 8 && |d| == |a| && |e| == |c|
    ensures var b := f + (a + c + d + e + tail); var ml, il := |a|, |c|;
      && |b| >= Total(ml, il)
      && b[8..8 + ml] == a && b[8 + ml..8 + ml + il] == c && b[8 + ml + il..8 + ml + il + ml] == d
      && b[8 + ml + il + ml..8 + ml + il + ml + il] == e
  {
  }

  lemma AddressesParse(p: Packet, q: Packet, front: Bytes, tail: Bytes)
    requires q.hardwareAddrLength == p.hardwareAddrLength && q.ipLength == p.ipLength && |front| == 8
    ensures |front + (Addresses(p) + tail)| >= Size(q)
    ensures var hal, pl := SizeOf(p.hardwareAddrLength), SizeOf(p.ipLength);
      ParseAddresses(q, front + (Addresses(p) + tail))
        == q.(senderHW := Fit(p.senderHW, hal), senderIP := Fit(p.senderIP, pl),
              targetHW := Fit(p.targetHW, hal), targetIP := Fit(p.targetIP, pl))
  {
    hide SizeOf, Fit;
    var hal, pl := SizeOf(p.hardwareAddrLength), SizeOf(p.ipLength);
    var a, c, d, e := Fit(p.senderHW, hal), Fit(p.senderIP, pl), Fit(p.targetHW, hal), Fit(p.targetIP, pl);
    assert Addresses(p) == a + c + d + e;
    hide Addresses;
    var b := front + (Addresses(p) + tail);
    FourSlices(front, a, c, d, e, tail);
    SlicesParse(q, b, hal, pl);
  }

  lemma SlicesParse(q: Packet, b: Bytes, ml: nat, il: nat)
    requires ml == SizeOf(q.hardwareAddrLength) && il == SizeOf(q.ipLength) && |b| >= Size(q)
    ensures ParseAddresses(q, b) == q.(senderHW := b[8..8 + ml], senderIP := b[8 + ml..8 + ml + il],
      targetHW := b[8 + ml + il..8 + ml + il + ml], targetIP := b[8 + ml + il + ml..8 + ml + il + ml + il])
  {
    hide SizeOf;
  }

  /** A sent packet, whatever follows it, is parsed back exactly when its lengths are consistent. */
  lemma ParsesBack(p: Packet, prior: Packet, tail: Bytes)
    ensures Parse(prior, Sent(p) + tail) == Outcome(None, p) <==> Consistent(p)
  {
    hide Addresses, Fixed, ParseFixed, ParseAddresses, SizeOf, Word;
    var a := Addresses(p) + tail;
    FrontAndRest(Fixed(p), Addresses(p), tail);
    FixedParses(p, prior, a);
    var q := ParseFixed(prior, Sent(p) + tail);
    AddressesParse(p, q, Fixed(p), tail);
    FitIff(p);
  }

  lemma FrontAndRest(f: Bytes, a: Bytes, tail: Bytes)
    ensures f + a + tail == f + (a + tail) && (f + a + tail)[|f|..] == a + tail
  {
  }

  /** Cutting or padding the addresses changes nothing exactly when the lengths are consistent. */
  lemma FitIff(p: Packet)
    ensures var hal, pl := SizeOf(p.hardwareAddrLength), SizeOf(p.ipLength);
      Consistent(p) <==>
        && Fit(p.senderHW, hal) == p.senderHW && Fit(p.senderIP, pl) == p.senderIP
        && Fit(p.targetHW, hal) == p.targetHW && Fit(p.targetIP, pl) == p.targetIP
  {
    hide SizeOf;
  }

  lemma FixedBack(prior: Packet, b: Bytes)
    requires |b| >= 8
    ensures Fixed(ParseFixed(prior, b)) == b[..8]
  {
    U16OfWord(b[0], b[1]);
    U16OfWord(b[2], b[3]);
    U16OfWord(b[6], b[7]);
    hide Word, U16;
  }

  lemma ParsedConsistent(q: Packet, b: Bytes)
    requires |b| >= Size(q)
    ensures var p := ParseAddresses(q, b); Consistent(p) && Size(p) == Size(q) && Fixed(p) == Fixed(q)
  {
    hide SizeOf, U16;
  }

  lemma AddressesBack(q: Packet, b: Bytes)
    requires |b| >= Size(q)
    ensures var p := ParseAddresses(q, b); Consistent(p) && Addresses(p) == b[8..Size(q)] && Size(p) == Size(q)
    ensures Fixed(ParseAddresses(q, b)) == Fixed(q)
  {
    hide SizeOf, Fit, Consistent, Fixed;
    ParsedConsistent(q, b);
    FitIff(ParseAddresses(q, b));
    FourParts(b, SizeOf(q.hardwareAddrLength), SizeOf(q.ipLength));
  }

  lemma FourParts(b: Bytes, ml: nat, il: nat)
    requires |b| >= Total(ml, il)
    ensures b[8..8 + ml] + b[8 + ml..8 + ml + il] + b[8 + ml + il..8 + ml + il + ml] + b[8 + ml + il + ml..8 + ml + il + ml + il]
         == b[8..Total(ml, il)]
  {
    Adjacent(b, 8, 8 + ml, 8 + ml + il);
    Adjacent(b, 8, 8 + ml + il, 8 + ml + il + ml);
    Adjacent(b, 8, 8 + ml + il + ml, 8 + ml + il + ml + il);
  }

  /** An accepted packet is, byte for byte, the front of what it was parsed from. */
  lemma ParsedSends(prior: Packet, b: Bytes)
    requires Parse(prior, b).err.None?
    ensures var p := Parse(prior, b).packet; Consistent(p) && Size(p) <= |b| && Sent(p) == b[..Size(p)]
  {
    hide ParseFixed, ParseAddresses, Fixed, Addresses, SizeOf, Consistent, Word;
    var q := ParseFixed(prior, b);
    FixedBack(prior, b);
    AddressesBack(q, b);
    HeadAndTail(b, Size(q));
  }

  lemma HeadAndTail(b: Bytes, n: nat)
    requires 8 <= n <= |b|
    ensures b[..n] == b[..8] + b[8..n]
  {
  }

  // ---- the packet object ----

  class ArpPacket {
    var hardwareType: bv16
    var protocolType: bv16
    var hardwareAddrLength: bv8
    var ipLength: bv8
    var operation: bv16
    var senderHW: Bytes
    var senderIP: Bytes
    var targetHW: Bytes
    var targetIP: Bytes

    function Value(): Packet
      reads this
    {
      Packet(hardwareType, protocolType, hardwareAddrLength, ipLength, operation, senderHW, senderIP, targetHW, targetIP)
    }

    constructor ()
      ensures Value() == BLANK
    {
      hardwareType, protocolType, hardwareAddrLength, ipLength, operation := 0, 0, 0, 0, 0;
      senderHW, senderIP, targetHW, targetIP := [], [], [], [];
    }

    /** The buffer's size is computed in one byte; a slice beyond it is a crash, `None`. */
    method MarshalBinary() returns (r: Option<array<bv8>>)
      ensures r.Some? <==> Size(Value()) <= 255
      ensures r.Some? ==> fresh(r.value) && r.value[..] == Sent(Value())
    {
      hide SizeOf, Blank, Sent;
      var hal, pl := SizeOf(hardwareAddrLength), SizeOf(ipLength);
      var b := new bv8[Total(hal, pl) % 256](_ => 0);
      BlankNew(b[..]);
      if b.Length < 8 {
        return None;
      }
      PutFixed(b);
      var ok := PutAddresses(b, hal, pl);
      if !ok {
        return None;
      }
      AllFilled(b[..], Value());
      return Some(b);
    }

    method PutFixed(b: array<bv8>)
      requires Blank(b[..], []) && b.Length >= 8
      modifies b
      ensures Blank(b[..], Fixed(Value()))
    {
      hide Blank, Splice, U16;
      Ethernet.TwoBytes(hardwareType);
      Ethernet.TwoBytes(protocolType);
      Ethernet.TwoBytes(operation);
      ghost var w, x := U16(hardwareType), U16(protocolType);
      ghost var y := [hardwareAddrLength, ipLength];
      BlankWrite(b[..], [], w);
      PutUint16(b, 0, hardwareType);
      assert [] + w == w;
      BlankWrite(b[..], w, x);
      PutUint16(b, 2, protocolType);
      BlankWrite(b[..], w + x, y);
      PutTwo(b, hardwareAddrLength, ipLength);
      BlankWrite(b[..], w + x + y, U16(operation));
      PutUint16(b, 6, operation);
    }

    method PutTwo(b: array<bv8>, x: bv8, y: bv8)
      requires b.Length >= 8
      modifies b
      ensures b[..] == Splice(old(b[..]), 4, [x, y])
    {
      b[4] := x;
      b[5] := y;
    }

    /** Copies a hardware and a protocol address to the front of the blank part, unless a slice is out of bounds. */
    method PutPair(b: array<bv8>, n: nat, hal: nat, pl: nat, hw: Bytes, ip: Bytes, ghost front: Bytes) returns (ok: bool)
      requires Blank(b[..], front) && n == |front|
      modifies b
      ensures ok <==> n + hal + pl <= b.Length
      ensures ok ==> Blank(b[..], front + Fit(hw, hal) + Fit(ip, pl))
    {
      hide Blank, Splice, Fit;
      if n + hal > b.Length {
        return false;
      }
      BlankCopy(b[..], front, hw, hal);
      Copy(b, n, n + hal, hw);
      if n + hal + pl > b.Length {
        return false;
      }
      BlankCopy(b[..], front + Fit(hw, hal), ip, pl);
      Copy(b, n + hal, n + hal + pl, ip);
      return true;
    }

    method PutAddresses(b: array<bv8>, hal: nat, pl: nat) returns (ok: bool)
      requires hal == SizeOf(hardwareAddrLength) && pl == SizeOf(ipLength)
      requires b.Length >= 8 && Blank(b[..], Fixed(Value()))
      modifies b
      ensures ok <==> Total(hal, pl) <= b.Length
      ensures ok ==> Blank(b[..], Sent(Value()))
    {
      hide Blank, Fit, Fixed, SizeOf;
      ghost var front := Fixed(Value());
      ghost var a, c, d, e := Fit(senderHW, hal), Fit(senderIP, pl), Fit(targetHW, hal), Fit(targetIP, pl);
      ok := PutPair(b, 8, hal, pl, senderHW, senderIP, front);
      if !ok {
        return;
      }
      ok := PutPair(b, 8 + hal + pl, hal, pl, targetHW, targetIP, front + a + c);
      Assoc5(front, a, c, d, e);
    }

    method UnmarshalBinary(b: Bytes) returns (err: Option<Error>)
      modifies this
      ensures Outcome(err, Value()) == Parse(old(Value()), b)
    {
      hide Word, SizeOf, ParseAddresses;
      if |b| < 8 {
        return Some(UnexpectedEOF);
      }
      hardwareType := Word(b[0], b[1]);
      protocolType := Word(b[2], b[3]);
      hardwareAddrLength := b[4];
      ipLength := b[5];
      operation := Word(b[6], b[7]);
      if |b| < 8 + SizeOf(hardwareAddrLength) * 2 + SizeOf(ipLength) * 2 {
        return Some(UnexpectedEOF);
      }
      UnmarshalAddresses(b);
      return None;
    }

    method UnmarshalAddresses(b: Bytes)
      requires |b| >= Size(Value())
      modifies `senderHW, `senderIP, `targetHW, `targetIP
      ensures Value() == ParseAddresses(old(Value()), b)
    {
      hide SizeOf;
      var n := 8;
      var ml := SizeOf(hardwareAddrLength);
      var il := SizeOf(ipLength);
      senderHW := b[n..n + ml];
      n := n + ml;
      senderIP := b[n..n + il];
      n := n + il;
      targetHW := b[n..n + ml];
      n := n + ml;
      targetIP := b[n..n + il];
    }
  }

  lemma AllFilled(s: Bytes, p: Packet)
    requires Blank(s, Sent(p)) && |s| == Size(p) % 256 && Size(p) <= |s|
    ensures s == Sent(p)
  {
    hide SizeOf, Fixed;
    assert |Sent(p)| == Size(p);
    assert Sent(p) + Zeros(0) == Sent(p);
  }

  /** Hardware addresses of 120 bytes and IPv4 addresses need 256 bytes, for which the code allocates none. */
  method MarshalTooLong() returns (r: Option<array<bv8>>)
    ensures Total(120, 4) == 256 && r.None?
  {
    var p := new ArpPacket();
    p.hardwareAddrLength, p.ipLength := ByteOf(120), ByteOf(4);
    hide SizeOf, ByteOf;
    r := p.MarshalBinary();
  }

  // ---- new packets ----

  const BROADCAST: Bytes := [0xff, 0xff, 0xff, 0xff, 0xff, 0xff]

  /** `net.IP.To4`: four bytes, or the last four of an IPv4 address mapped into IPv6. */
  function To4(ip: Bytes): (r: Option<Bytes>)
    ensures r.Some? ==> |r.value| == 4
  {
    if |ip| == 4 then Some(ip)
    else if |ip| == 16 && ip[..10] == Zeros(10) && ip[10] == 0xff && ip[11] == 0xff then Some(ip[12..16])
    else None
  }

  function NewPacket(op: bv16, srcHW: Bytes, srcIP: Bytes, dstHW: Bytes, dstIP: Bytes): Result<Packet> {
    if |srcHW| < 6 || |dstHW| < 6 then Err(InvalidHardwareAddr)
    else if dstHW != BROADCAST && |srcHW| != |dstHW| then Err(InvalidHardwareAddr)
    else if To4(srcIP).None? || To4(dstIP).None? then Err(InvalidIP)
    else Ok(Packet(1, ETHER_TYPE_IPV4, ByteOf(|srcHW| % 256), ByteOf(4), op,
                   srcHW, To4(srcIP).value, dstHW, To4(dstIP).value))
  }

  /** A new packet can be marshalled and parsed back exactly if its hardware addresses are equally long and at most 119 bytes. */
  lemma NewPacketSurvives(op: bv16, srcHW: Bytes, srcIP: Bytes, dstHW: Bytes, dstIP: Bytes)
    requires NewPacket(op, srcHW, srcIP, dstHW, dstIP).Ok?
    ensures var p := NewPacket(op, srcHW, srcIP, dstHW, dstIP).value;
      Consistent(p) && Size(p) <= 255 <==> |srcHW| == |dstHW| && |srcHW| <= 119
  {
    hide SizeOf, ByteOf, To4;
  }

  /** On the wire a new packet for equally long addresses is the layout of RFC 826, sender first. */
  lemma NewPacketLayout(op: bv16, srcHW: Bytes, srcIP: Bytes, dstHW: Bytes, dstIP: Bytes)
    requires NewPacket(op, srcHW, srcIP, dstHW, dstIP).Ok? && |srcHW| == |dstHW| <= 119
    ensures Sent(NewPacket(op, srcHW, srcIP, dstHW, dstIP).value)
         == ([0, 1, 8, 0, ByteOf(|srcHW|), ByteOf(4)] + U16(op)) + (srcHW + To4(srcIP).value + dstHW + To4(dstIP).value)
  {
    hide SizeOf, ByteOf, To4, Fit, U16, Fixed;
    var p := NewPacket(op, srcHW, srcIP, dstHW, dstIP).value;
    NewPacketSurvives(op, srcHW, srcIP, dstHW, dstIP);
    FitIff(p);
    FixedLayout(p);
  }

  lemma FixedLayout(p: Packet)
    requires p.hardwareType == 1 && p.protocolType == ETHER_TYPE_IPV4
    ensures Fixed(p) == [0, 1, 8, 0, p.hardwareAddrLength, p.ipLength] + U16(p.operation)
  {
    assert U16(1) == [0, 1] && U16(ETHER_TYPE_IPV4) == [8, 0];
    hide U16;
    assert [0, 1] + [8, 0] + [p.hardwareAddrLength, p.ipLength] == [0, 1, 8, 0, p.hardwareAddrLength, p.ipLength];
  }

  /** When a new packet is refused, and with which error. */
  lemma NewPacketRefused(op: bv16, srcHW: Bytes, srcIP: Bytes, dstHW: Bytes, dstIP: Bytes)
    ensures var r := NewPacket(op, srcHW, srcIP, dstHW, dstIP);
      var addresses := |srcHW| >= 6 && |dstHW| >= 6 && (|srcHW| == |dstHW| || dstHW == [0xff, 0xff, 0xff, 0xff, 0xff, 0xff]);
      && (r == Err(InvalidHardwareAddr) <==> !addresses)
      && (r == Err(InvalidIP) <==> addresses && (!IsIPv4(srcIP) || !IsIPv4(dstIP)))
      && (r.Ok? <==> addresses && IsIPv4(srcIP) && IsIPv4(dstIP))
  {
    To4Is(srcIP);
    To4Is(dstIP);
  }

  /** Four bytes, or sixteen that are ten zeros, two times ff and four more. */
  predicate IsIPv4(ip: Bytes) {
    || |ip| == 4
    || (|ip| == 16 && (forall i :: 0 <= i < 10 ==> ip[i] == 0) && ip[10] == 0xff && ip[11] == 0xff)
  }

  lemma To4Is(ip: Bytes)
    ensures To4(ip).Some? <==> IsIPv4(ip)
    ensures To4(ip).Some? ==> To4(ip).value == ip[|ip| - 4..]
  {
    if |ip| == 16 {
      assert ip[..10] == Zeros(10) <==> forall i :: 0 <= i < 10 ==> ip[i] == 0 by {
        assert forall i :: 0 <= i < 10 ==> ip[..10][i] == ip[i] && Zeros(10)[i] == 0;
      }
      assert ip[12..16] == ip[12..];
    } else if |ip| == 4 {
      assert ip[0..] == ip;
    }
  }

  // ---- packets in frames ----

  /** What a received frame is taken for. */
  function Received(buf: Bytes): Result<(Packet, Ethernet.Fields)> {
    var f := Ethernet.Parse(Ethernet.FRESH, buf);
    if f.err.Some? then Err(f.err.value)
    else if f.frame.etherType != ETHER_TYPE_ARP then Err(InvalidARPPacket)
    else
      var p := Parse(BLANK, f.frame.payload);
      if p.err.Some? then Err(p.err.value) else Ok((p.packet, f.frame))
  }

  method ParsePacket(buf: Bytes) returns (r: Result<(Packet, Ethernet.Fields)>)
    ensures r == Received(buf)
  {
    hide Parse, Ethernet.Parse;
    var f := new Ethernet.Frame();
    var err := f.UnmarshalBinary(buf);
    if err.Some? {
      return Err(err.value);
    }
    if f.etherType != ETHER_TYPE_ARP {
      return Err(InvalidARPPacket);
    }
    var p := new ArpPacket();
    var err2 := p.UnmarshalBinary(f.payload);
    if err2.Some? {
      return Err(err2.value);
    }
    return Ok((p.Value(), f.Value()));
  }

  /** A consistent packet sent in a frame arrives, padding and tags notwithstanding. */
  lemma Carried(p: Packet, f: Ethernet.Fields)
    requires Ethernet.Marshals(f) && Ethernet.Recoverable(f) && f.etherType == ETHER_TYPE_ARP && f.payload == Sent(p)
    ensures Received(Ethernet.Sent(Ethernet.Padded(f))) == Ok((p, Ethernet.Padded(f))) <==> Consistent(p)
  {
    hide Parse, Ethernet.Parse, Sent, Ethernet.Sent, Ethernet.Marshals, Ethernet.Recoverable, Consistent, Ethernet.Padded;
    var g := Ethernet.Padded(f);
    var pad := Padding(f);
    Ethernet.PaddedMarshals(f);
    Ethernet.ParsesBack(g);
    ParsesBack(p, BLANK, pad);
  }

  /** On the wire the packet stands behind the type 08 06, padded with zeros to 46 bytes. */
  lemma ArpFrameLayout(p: Packet, f: Ethernet.Fields)
    requires |f.dst| == 6 && |f.src| == 6 && f.service.None? && f.vlan.None?
    requires f.etherType == ETHER_TYPE_ARP && f.payload == Sent(p)
    ensures Ethernet.Sent(Ethernet.Padded(f))
         == f.dst + f.src + [0x08, 0x06] + Sent(p) + Zeros(if |Sent(p)| < 46 then 46 - |Sent(p)| else 0)
  {
    hide Sent, Ethernet.Sent, Ethernet.Padded, Zeros;
    assert ETHER_TYPE_ARP == ((0x08 as bv16) << 8) | (0x06 as bv16);
    Ethernet.FrameLayout(f, 0x08, 0x06);
    assert f.dst + f.src + [] + [] == f.dst + f.src;
  }

  lemma Padding(f: Ethernet.Fields) returns (pad: Bytes)
    ensures Ethernet.Padded(f).payload == f.payload + pad && Ethernet.Padded(f).etherType == f.etherType
  {
    pad := Zeros(Ethernet.PadLength(f) - |f.payload|);
    assert f.payload + [] == f.payload;
  }

  /** Marshal a packet, send it in a frame, receive it. */
  method Deliver(p: ArpPacket, f: Ethernet.Frame) returns (r: Option<Result<(Packet, Ethernet.Fields)>>)
    requires Ethernet.Marshals(f.Value()) && Ethernet.Recoverable(f.Value()) && f.etherType == ETHER_TYPE_ARP
    modifies f
    ensures r.Some? <==> Size(p.Value()) <= 255
    ensures r.Some? && Consistent(p.Value()) ==> r.value.Ok? && r.value.value.0 == p.Value()
  {
    hide Parse, Ethernet.Parse, Sent, Ethernet.Sent, Consistent, Size, Received;
    var a := p.MarshalBinary();
    if a.None? {
      return None;
    }
    f.payload := a.value[..];
    var b, err := f.MarshalBinary();
    var got := ParsePacket(b[..]);
    Carried(p.Value(), f.Value());
    return Some(got);
  }
}
