/** Bytes on the wire: big-endian words, and buffers that are filled from the front. */
module Wire {

  datatype Error = UnexpectedEOF | InvalidVLAN | InvalidFCS | InvalidHardwareAddr | InvalidIP | InvalidARPPacket

  datatype Result<T> = Ok(value: T) | Err(error: Error)

  type Bytes = seq<bv8>

  function U16(v: bv16): Bytes {
    [(v >> 8) as bv8, (v & 0xff) as bv8]
  }

  function Word(hi: bv8, lo: bv8): bv16 {
    ((hi as bv16) << 8) | (lo as bv16)
  }

  lemma WordOfU16(v: bv16)
    ensures Word(U16(v)[0], U16(v)[1]) == v
  {
  }

  lemma U16OfWord(hi: bv8, lo: bv8)
    ensures U16(Word(hi, lo)) == [hi, lo]
  {
  }

  function U32(v: bv32): Bytes {
    U16((v >> 16) as bv16) + U16((v & 0xffff) as bv16)
  }

  function Long(a: bv8, b: bv8, c: bv8, d: bv8): bv32 {
    ((Word(a, b) as bv32) << 16) | (Word(c, d) as bv32)
  }

  lemma LongOfU32(v: bv32)
    ensures var w := U32(v); |w| == 4 && Long(w[0], w[1], w[2], w[3]) == v
  {
    WordOfU16((v >> 16) as bv16);
    WordOfU16((v & 0xffff) as bv16);
  }

  /** The most significant byte comes first. */
  lemma BigEndian(a: bv8, b: bv8, c: bv8, d: bv8)
    ensures U16(((a as bv16) << 8) | (b as bv16)) == [a, b]
    ensures U32(((a as bv32) << 24) | ((b as bv32) << 16) | ((c as bv32) << 8) | (d as bv32)) == [a, b, c, d]
  {
    HighHalf(a, b, c, d);
    LowHalf(a, b, c, d);
    PairOf(a, b);
    PairOf(c, d);
  }

  lemma PairOf(a: bv8, b: bv8)
    ensures U16(((a as bv16) << 8) | (b as bv16)) == [a, b]
  {
  }

  lemma HighHalf(a: bv8, b: bv8, c: bv8, d: bv8)
    ensures var v := ((a as bv32) << 24) | ((b as bv32) << 16) | ((c as bv32) << 8) | (d as bv32);
      (v >> 16) as bv16 == ((a as bv16) << 8) | (b as bv16)
  {
  }

  lemma LowHalf(a: bv8, b: bv8, c: bv8, d: bv8)
    ensures var v := ((a as bv32) << 24) | ((b as bv32) << 16) | ((c as bv32) << 8) | (d as bv32);
      (v & 0xffff) as bv16 == ((c as bv16) << 8) | (d as bv16)
  {
  }

  function Zeros(n: nat): Bytes {
    seq(n, _ => 0)
  }

  /** What `n` zero bytes hold after `s` has been copied over them: cut off or padded. */
  function Fit(s: Bytes, n: nat): (r: Bytes)
    ensures |r| == n
  {
    if |s| >= n then s[..n] else s + Zeros(n - |s|)
  }

  function Splice(s: Bytes, at: nat, w: Bytes): Bytes
    requires at + |w| <= |s|
  {
    s[..at] + w + s[at + |w|..]
  }

  /** A buffer that holds `front` and is zero behind it. */
  ghost predicate Blank(s: Bytes, front: Bytes) {
    |front| <= |s| && s == front + Zeros(|s| - |front|)
  }

  lemma BlankNew(s: Bytes)
    requires forall i :: 0 <= i < |s| ==> s[i] == 0
    ensures Blank(s, [])
  {
  }

  lemma BlankWrite(s: Bytes, front: Bytes, w: Bytes)
    requires Blank(s, front) && |front| + |w| <= |s|
    ensures Blank(Splice(s, |front|, w), front + w)
  {
  }

  lemma BlankCopy(s: Bytes, front: Bytes, src: Bytes, n: nat)
    requires Blank(s, front) && |front| + n <= |s|
    ensures Blank(Splice(s, |front|, src[..if |src| < n then |src| else n]), front + Fit(src, n))
  {
    var w := src[..if |src| < n then |src| else n];
    assert Fit(src, n) == w + Zeros(n - |w|);
    BlankWrite(s, front, w);
    var t := Splice(s, |front|, w);
    assert Zeros(|t| - |front + w|) == Zeros(n - |w|) + Zeros(|t| - |front| - n);
    assert front + Fit(src, n) == front + w + Zeros(n - |w|);
  }

  method PutUint16(b: array<bv8>, at: nat, v: bv16)
    requires at + 2 <= b.Length
    modifies b
    ensures b[..] == Splice(old(b[..]), at, U16(v))
  {
    b[at] := (v >> 8) as bv8;
    b[at + 1] := (v & 0xff) as bv8;
  }

  method PutUint32(b: array<bv8>, at: nat, v: bv32)
    requires at + 4 <= b.Length
    modifies b
    ensures b[..] == Splice(old(b[..]), at, U32(v))
  {
    PutUint16(b, at, (v >> 16) as bv16);
    PutUint16(b, at + 2, (v & 0xffff) as bv16);
  }

  /** `copy(b[from:to], src)`: as much as fits. */
  method Copy(b: array<bv8>, from: nat, to: nat, src: Bytes)
    requires from <= to <= b.Length
    modifies b
    ensures b[..] == Splice(old(b[..]), from, src[..if |src| < to - from then |src| else to - from])
  {
    var n := if |src| < to - from then |src| else to - from;
    forall i | 0 <= i < n {
      b[from + i] := src[i];
    }
  }
}
