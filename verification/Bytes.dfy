/**
 Integers and vectors of integers as big-endian bytes.
 */
module Bytes {
  type Byte = x: int | 0 <= x < 256 witness 0

  /** How many values `w` bytes can hold. */
  function Power(w: nat): (p: nat)
    ensures p >= 1
  {
    if w == 0 then 1 else 256 * Power(w - 1)
  }

  /** The `w` lowest bytes of `x`, the highest of them first. */
  function Encode(x: nat, w: nat): (b: seq<Byte>)
    ensures |b| == w
  {
    if w == 0 then [] else Encode(x / 256, w - 1) + [(x % 256) as Byte]
  }

  function Decode(b: seq<Byte>): (x: nat)
    ensures x < Power(|b|)
  {
    if b == [] then 0
    else
      var high := Decode(b[..|b| - 1]);
      assert high * 256 + 255 < Power(|b|);
      high * 256 + b[|b| - 1]
  }

  lemma {:induction false} DecodeEncode(x: nat, w: nat)
    requires x < Power(w)
    ensures Decode(Encode(x, w)) == x
  {
    if w > 0 {
      DecodeEncode(x / 256, w - 1);
      var b := Encode(x, w);
      assert b[..w - 1] == Encode(x / 256, w - 1);
    }
  }

  lemma {:induction false} EncodeDecode(b: seq<Byte>)
    ensures Encode(Decode(b), |b|) == b
  {
    if b != [] {
      EncodeDecode(b[..|b| - 1]);
      var high := Decode(b[..|b| - 1]);
      assert Decode(b) / 256 == high && Decode(b) % 256 == b[|b| - 1];
      assert b == b[..|b| - 1] + [b[|b| - 1]];
    }
  }

  lemma Scaled(x: nat, p: nat, y: nat)
    ensures (x * p + y) * 256 == x * (256 * p) + y * 256
  {
    assert x * p * 256 == x * (256 * p);
  }

  lemma DecodeLast(b: seq<Byte>)
    requires b != []
    ensures Decode(b) == Decode(b[..|b| - 1]) * 256 + b[|b| - 1]
  {
  }

  lemma NextPower(w: nat)
    ensures Power(0) == 1 && Power(w + 1) == 256 * Power(w)
  {
  }

  /** The first byte counts most. */
  lemma {:induction false} FirstByteCountsMost(b: seq<Byte>)
    requires b != []
    ensures Decode(b) == b[0] * Power(|b| - 1) + Decode(b[1..])
  {
    hide Power;
    var n := |b|;
    DecodeLast(b);
    if n == 1 {
      NextPower(0);
      assert b[..0] == [] && b[1..] == [];
    } else {
      var init, tail := b[..n - 1], b[1..];
      FirstByteCountsMost(init);
      assert tail[..n - 2] == init[1..];
      DecodeLast(tail);
      hide Decode;
      NextPower(n - 2);
      Scaled(b[0], Power(n - 2), Decode(init[1..]));
    }
  }

  // ------------------------------------------------------------------ two's complement

  predicate Fits(x: int, w: nat, signed: bool)
  {
    if signed then w > 0 && -128 * Power(w - 1) <= x < 128 * Power(w - 1) else 0 <= x < Power(w)
  }

  function ToBytes(x: int, w: nat, signed: bool): (b: seq<Byte>)
    requires Fits(x, w, signed)
    ensures |b| == w
  {
    Encode(if x < 0 then x + Power(w) else x, w)
  }

  function FromBytes(b: seq<Byte>, signed: bool): (x: int)
    requires signed ==> b != []
    ensures Fits(x, |b|, signed)
  {
    var x := Decode(b);
    if signed && x >= 128 * Power(|b| - 1) then x - Power(|b|) else x
  }

  lemma Residue(x: int, p: int, k: int)
    requires 0 <= x + k * p < p
    ensures x % p == x + k * p
  {
    var q, r := x / p, x % p;
    assert x == q * p + r;
    assert (q + k) * p == q * p + k * p;
    AtLeast(q + k, p);
  }

  /** The representation is two's complement: read as a number, the bytes of an integer are the
      integer modulo the number of values of their width, */
  lemma BytesAreResidues(x: int, w: nat, signed: bool)
    requires Fits(x, w, signed)
    ensures Decode(ToBytes(x, w, signed)) == x % Power(w)
  {
    var u := if x < 0 then x + Power(w) else x;
    DecodeEncode(u, w);
    Residue(x, Power(w), if x < 0 then 1 else 0);
  }

  /** and the integer read from bytes is the one of its range with that residue. */
  lemma IntegersHaveResidue(b: seq<Byte>, signed: bool)
    requires signed ==> b != []
    ensures FromBytes(b, signed) % Power(|b|) == Decode(b) && Fits(FromBytes(b, signed), |b|, signed)
  {
    Residue(FromBytes(b, signed), Power(|b|), if FromBytes(b, signed) < 0 then 1 else 0);
  }

  /** Every integer of every width comes back from its bytes, */
  lemma IntegerRoundTrip(x: int, w: nat, signed: bool)
    requires Fits(x, w, signed)
    ensures signed ==> ToBytes(x, w, signed) != []
    ensures FromBytes(ToBytes(x, w, signed), signed) == x
  {
    DecodeEncode(if x < 0 then x + Power(w) else x, w);
  }

  /** and every byte string of that length is the bytes of exactly that integer. */
  lemma BytesRoundTrip(b: seq<Byte>, signed: bool)
    requires signed ==> b != []
    ensures ToBytes(FromBytes(b, signed), |b|, signed) == b
  {
    EncodeDecode(b);
  }

  // ------------------------------------------------------------------ vectors

  predicate AllFit(v: seq<int>, w: nat, signed: bool) { forall x :: x in v ==> Fits(x, w, signed) }

  function VectorToBytes(v: seq<int>, w: nat, signed: bool): seq<Byte>
    requires AllFit(v, w, signed)
  {
    if v == [] then [] else ToBytes(v[0], w, signed) + VectorToBytes(v[1..], w, signed)
  }

  /** As many elements as fit in the bytes; a remainder too short for an element is ignored. */
  function VectorFromBytes(b: seq<Byte>, w: nat, signed: bool): (v: seq<int>)
    requires w > 0
    ensures AllFit(v, w, signed)
    decreases |b|
  {
    if |b| < w then [] else [FromBytes(b[..w], signed)] + VectorFromBytes(b[w..], w, signed)
  }

  lemma {:induction false} VectorLength(v: seq<int>, w: nat, signed: bool)
    requires AllFit(v, w, signed)
    ensures |VectorToBytes(v, w, signed)| == |v| * w
  {
    if v != [] {
      VectorLength(v[1..], w, signed);
      assert |v| * w == (|v| - 1) * w + w;
    }
  }

  lemma AtLeast(d: int, w: int)
    requires w > 0
    ensures d >= 1 ==> d * w >= w
    ensures d <= -1 ==> d * w <= -w
  {
    if d >= 1 {
      assert d * w == (d - 1) * w + w && (d - 1) * w >= 0;
    } else if d <= -1 {
      assert d * w == (d + 1) * w - w && (d + 1) * w <= 0;
    }
  }

  lemma Quotient(len: nat, w: nat, q: nat, r: nat)
    requires w > 0 && len == q * w + r && r < w
    ensures len / w == q && len % w == r
  {
    var d := len / w - q;
    assert len == (len / w) * w + len % w;
    assert d * w == (len / w) * w - q * w;
    AtLeast(d, w);
  }

  lemma OneMore(len: nat, w: nat)
    requires 0 < w <= len
    ensures len / w == (len - w) / w + 1
    ensures len % w == (len - w) % w
  {
    var q, r := (len - w) / w, (len - w) % w;
    assert len - w == q * w + r;
    assert (q + 1) * w == q * w + w;
    Quotient(len, w, q + 1, r);
  }

  /** How many whole elements there are in so many bytes. */
  function HowMany(len: nat, w: nat): nat
    requires w > 0
  {
    len / w
  }

  lemma {:induction false} ElementCount(b: seq<Byte>, w: nat, signed: bool)
    requires w > 0
    ensures |VectorFromBytes(b, w, signed)| == HowMany(|b|, w)
    decreases |b|
  {
    if |b| >= w {
      ElementCount(b[w..], w, signed);
      OneMore(|b|, w);
    }
  }

  /** Every vector of integers of every width comes back from its bytes. */
  lemma {:induction false} VectorRoundTrip(v: seq<int>, w: nat, signed: bool)
    requires w > 0 && AllFit(v, w, signed)
    ensures VectorFromBytes(VectorToBytes(v, w, signed), w, signed) == v
  {
    if v != [] {
      var b, first, rest := VectorToBytes(v, w, signed), ToBytes(v[0], w, signed), VectorToBytes(v[1..], w, signed);
      assert b[..w] == first && b[w..] == rest;
      IntegerRoundTrip(v[0], w, signed);
      VectorRoundTrip(v[1..], w, signed);
    }
  }

  /** Bytes are the encoding of the vector read from them if and only if nothing is left over. */
  lemma {:induction false} VectorBytesRoundTrip(b: seq<Byte>, w: nat, signed: bool)
    requires w > 0
    ensures VectorToBytes(VectorFromBytes(b, w, signed), w, signed) == b <==> |b| % w == 0
    decreases |b|
  {
    if |b| >= w {
      var v := VectorFromBytes(b, w, signed);
      assert v[1..] == VectorFromBytes(b[w..], w, signed);
      BytesRoundTrip(b[..w], signed);
      VectorBytesRoundTrip(b[w..], w, signed);
      assert b == b[..w] + b[w..];
      OneMore(|b|, w);
    }
  }

  method EncodeVector(v: seq<int>, w: nat, signed: bool) returns (b: seq<Byte>)
    requires AllFit(v, w, signed)
    ensures b == VectorToBytes(v, w, signed)
  {
    VectorLength(v, w, signed);
    ghost var whole := VectorToBytes(v, w, signed);
    var result := new Byte[|v| * w](_ => 0);
    var at := 0;
    for offset := 0 to |v|
      invariant at <= result.Length && AllFit(v[offset..], w, signed)
      invariant result[..at] + VectorToBytes(v[offset..], w, signed) == whole
    {
      var bytes := ToBytes(v[offset], w, signed);
      ghost var before, rest := result[..at], VectorToBytes(v[offset + 1..], w, signed);
      assert v[offset..][1..] == v[offset + 1..] && v[offset..][0] == v[offset];
      assert whole == before + (bytes + rest);
      CopyInto(result, at, bytes);
      at := at + w;
      assert result[..at] == before + bytes;
      assert before + bytes + rest == before + (bytes + rest);
    }
    b := result[..];
    assert result[..at] == whole;
  }

  method CopyInto(a: array<Byte>, at: nat, bytes: seq<Byte>)
    requires at + |bytes| <= a.Length
    modifies a
    ensures a[..at] == old(a[..at]) && a[at..at + |bytes|] == bytes
  {
    for i := 0 to |bytes|
      invariant a[..at] == old(a[..at]) && a[at..at + i] == bytes[..i]
    {
      a[at + i] := bytes[i];
    }
  }

  lemma NextElement(b: seq<Byte>, at: nat, w: nat, signed: bool)
    requires w > 0 && at <= |b| && VectorFromBytes(b[at..], w, signed) != []
    ensures at + w <= |b|
    ensures VectorFromBytes(b[at..], w, signed) == [FromBytes(b[at..at + w], signed)] + VectorFromBytes(b[at + w..], w, signed)
  {
    assert b[at..][..w] == b[at..at + w] && b[at..][w..] == b[at + w..];
  }

  method DecodeVector(b: seq<Byte>, w: nat, signed: bool) returns (v: seq<int>)
    requires w > 0
    ensures v == VectorFromBytes(b, w, signed)
  {
    hide VectorFromBytes, FromBytes, HowMany;
    ElementCount(b, w, signed);
    ghost var whole := VectorFromBytes(b, w, signed);
    var n := HowMany(|b|, w);
    var result := new int[n](_ => 0);
    var at := 0;
    for offset := 0 to n
      invariant at <= |b|
      invariant result[..offset] + VectorFromBytes(b[at..], w, signed) == whole
    {
      NextElement(b, at, w, signed);
      result[offset] := FromBytes(b[at..at + w], signed);
      at := at + w;
    }
    v := result[..];
    assert result[..n] == v;
    assert |VectorFromBytes(b[at..], w, signed)| == 0;
  }
}
