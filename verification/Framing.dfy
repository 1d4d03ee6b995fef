/**
 The argument framing of serialized messages: each field as its length, eight bytes, followed
 by its payload. `usize` is 64 bits wide, and no vector is longer than `isize::MAX`.
 */
module Framing {
  import opened Bytes

  datatype Result<T> = Ok(value: T) | Err

  const USIZE_MAX: nat := 0xFFFF_FFFF_FFFF_FFFF
  const ISIZE_MAX: nat := 0x7FFF_FFFF_FFFF_FFFF

  type Payload = seq<Byte>

  lemma EightBytes()
    ensures Power(8) == USIZE_MAX + 1
  {
    assert Power(1) == 0x100 && Power(2) == 0x1_0000 && Power(4) == 0x1_0000_0000;
  }

  // ------------------------------------------------------------------ what the frames are

  /** One field appended; the reservation fails when the data would get too long. */
  function PackField(data: seq<Byte>, field: Payload): Result<seq<Byte>>
  {
    if |field| > USIZE_MAX || 8 + |field| > USIZE_MAX || |data| + 8 + |field| > ISIZE_MAX then Err
    else Ok(data + Encode(|field|, 8) + field)
  }

  function PackFrom(data: seq<Byte>, fields: seq<Payload>): Result<seq<Byte>>
    decreases |fields|
  {
    if fields == [] then Ok(data)
    else
      var r := PackField(data, fields[0]);
      if r.Err? then Err else PackFrom(r.value, fields[1..])
  }

  function Pack(fields: seq<Payload>): Result<seq<Byte>> { PackFrom([], fields) }

  /** A field read at `at`, and where the next one starts. */
  function UnpackField(args: seq<Byte>, at: nat): (r: Result<(Payload, nat)>)
    ensures r.Ok? ==> at + 8 <= r.value.1 <= |args|
  {
    if at + 8 > USIZE_MAX || at + 8 > |args| then Err
    else
      var len := Decode(args[at..at + 8]);
      var end := at + 8 + len;
      if len > USIZE_MAX || end > USIZE_MAX || end > |args| then Err else Ok((args[at + 8..end], end))
  }

  function UnpackFrom(args: seq<Byte>, at: nat, n: nat): (r: Result<seq<Payload>>)
    ensures r.Ok? ==> |r.value| == n
    decreases n
  {
    if n == 0 then if at == |args| then Ok([]) else Err
    else
      var f := UnpackField(args, at);
      if f.Err? then Err
      else
        var rest := UnpackFrom(args, f.value.1, n - 1);
        if rest.Err? then Err else Ok([f.value.0] + rest.value)
  }

  function Unpack(args: seq<Byte>, n: nat): Result<seq<Payload>> { UnpackFrom(args, 0, n) }

  // ------------------------------------------------------------------ they are a bijection

  lemma PackGrows(data: seq<Byte>, fields: seq<Payload>)
    requires PackFrom(data, fields).Ok?
    ensures |PackFrom(data, fields).value| >= |data| && PackFrom(data, fields).value[..|data|] == data
    ensures fields != [] ==> |PackFrom(data, fields).value| <= ISIZE_MAX
    decreases |fields|
  {
    if fields != [] {
      var next := PackField(data, fields[0]).value;
      PackGrows(next, fields[1..]);
      var all := PackFrom(data, fields).value;
      assert all[..|data|] == all[..|next|][..|data|];
    }
  }

  lemma {:induction false} UnpackPacked(data: seq<Byte>, fields: seq<Payload>)
    requires PackFrom(data, fields).Ok?
    ensures UnpackFrom(PackFrom(data, fields).value, |data|, |fields|) == Ok(fields)
    decreases |fields|
  {
    hide Power, Encode, Decode;
    if fields != [] {
      var f, args := fields[0], PackFrom(data, fields).value;
      var next := PackField(data, f).value;
      PackGrows(next, fields[1..]);
      UnpackPacked(next, fields[1..]);
      EightBytes();
      DecodeEncode(|f|, 8);
      assert args[|data|..|data| + 8] == args[..|next|][|data|..|data| + 8] == Encode(|f|, 8);
      assert args[|data| + 8..|next|] == args[..|next|][|data| + 8..] == f;
      assert [f] + fields[1..] == fields;
    }
  }

  /** What was packed is unpacked again. */
  lemma UnpackOfPack(fields: seq<Payload>)
    requires Pack(fields).Ok?
    ensures Unpack(Pack(fields).value, |fields|) == Ok(fields)
  {
    UnpackPacked([], fields);
  }

  lemma {:induction false} PackUnpacked(args: seq<Byte>, at: nat, n: nat)
    requires |args| <= ISIZE_MAX && at <= |args| && UnpackFrom(args, at, n).Ok?
    ensures PackFrom(args[..at], UnpackFrom(args, at, n).value) == Ok(args)
    decreases n
  {
    if n == 0 {
      assert args[..at] == args;
    } else {
      var f := UnpackField(args, at).value;
      PackUnpacked(args, f.1, n - 1);
      EncodeDecode(args[at..at + 8]);
      assert args[..f.1] == args[..at] + args[at..at + 8] + f.0;
      var fields := UnpackFrom(args, at, n).value;
      assert fields[1..] == UnpackFrom(args, f.1, n - 1).value;
    }
  }

  /** Whatever bytes are accepted as `n` fields are exactly the packing of those fields. */
  lemma PackOfUnpack(args: seq<Byte>, n: nat)
    requires |args| <= ISIZE_MAX && Unpack(args, n).Ok?
    ensures Pack(Unpack(args, n).value) == Ok(args)
  {
    PackUnpacked(args, 0, n);
    assert args[..0] == [];
  }

  /** No bytes are accepted for two numbers of fields. */
  lemma {:induction false} OneFieldCount(args: seq<Byte>, at: nat, n: nat, m: nat)
    requires UnpackFrom(args, at, n).Ok? && UnpackFrom(args, at, m).Ok?
    ensures n == m
    decreases n
  {
    if n > 0 && m > 0 {
      OneFieldCount(args, UnpackField(args, at).value.1, n - 1, m - 1);
    }
  }

  function TotalLength(fields: seq<Payload>): nat
  {
    if fields == [] then 0 else 8 + |fields[0]| + TotalLength(fields[1..])
  }

  lemma {:induction false} PacksFrom(data: seq<Byte>, fields: seq<Payload>)
    requires |data| <= ISIZE_MAX
    ensures PackFrom(data, fields).Ok? <==> |data| + TotalLength(fields) <= ISIZE_MAX
    decreases |fields|
  {
    if fields != [] && PackField(data, fields[0]).Ok? {
      PacksFrom(PackField(data, fields[0]).value, fields[1..]);
    }
  }

  /** Packing fails exactly if the frames would be too long for a vector. */
  lemma PacksIffShort(fields: seq<Payload>)
    ensures Pack(fields).Ok? <==> TotalLength(fields) <= ISIZE_MAX
  {
    PacksFrom([], fields);
  }

  // ------------------------------------------------------------------ the emitted code

  /** The serializing arm: extend the data field by field. */
  method PackArgs(fields: seq<Payload>) returns (r: Result<seq<Byte>>)
    ensures r == Pack(fields)
  {
    var data: seq<Byte> := [];
    for i := 0 to |fields|
      invariant Pack(fields) == PackFrom(data, fields[i..])
    {
      assert fields[i..][0] == fields[i] && fields[i..][1..] == fields[i + 1..];
      var len := |fields[i]|;
      if len > USIZE_MAX || 8 + len > USIZE_MAX || |data| + 8 + len > ISIZE_MAX {
        return Err;
      }
      data := data + Encode(len, 8) + fields[i];
    }
    return Ok(data);
  }

  /** The deserializing arm: advance a position field by field, and leave nothing over. */
  method UnpackArgs(args: seq<Byte>, n: nat) returns (r: Result<seq<Payload>>)
    ensures r == Unpack(args, n)
  {
    var at := 0;
    var fields: seq<Payload> := [];
    PrependNothing(Unpack(args, n));
    for i := 0 to n
      invariant at <= |args|
      invariant Unpack(args, n) == Prepend(fields, UnpackFrom(args, at, n - i))
    {
      var lenEnd := at + 8;
      if lenEnd > USIZE_MAX || lenEnd > |args| {
        return Err;
      }
      var len := Decode(args[at..lenEnd]);
      if len > USIZE_MAX {
        return Err;
      }
      var dataEnd := lenEnd + len;
      if dataEnd > USIZE_MAX || dataEnd > |args| {
        return Err;
      }
      var field := args[lenEnd..dataEnd];
      Prepended(fields, field, UnpackFrom(args, dataEnd, n - i - 1));
      fields := fields + [field];
      at := dataEnd;
    }
    assert fields + [] == fields;
    return if at == |args| then Ok(fields) else Err;
  }

  function Prepend(fields: seq<Payload>, r: Result<seq<Payload>>): Result<seq<Payload>>
  {
    if r.Err? then Err else Ok(fields + r.value)
  }

  lemma PrependNothing(r: Result<seq<Payload>>)
    ensures Prepend([], r) == r
  {
    if r.Ok? { assert [] + r.value == r.value; }
  }

  lemma Prepended(fields: seq<Payload>, f: Payload, rest: Result<seq<Payload>>)
    ensures Prepend(fields, Prepend([f], rest)) == Prepend(fields + [f], rest)
  {
    if rest.Ok? { assert fields + ([f] + rest.value) == fields + [f] + rest.value; }
  }

  // ------------------------------------------------------------------ typed messages

  datatype Type = Unit | Bool | Integer(w: nat, signed: bool) | Vector(w: nat, signed: bool)

  datatype Value = UnitValue | BoolValue(b: bool) | IntegerValue(x: int) | VectorValue(v: seq<int>)

  predicate Proper(t: Type) { t.Integer? || t.Vector? ==> t.w > 0 }

  predicate HasType(v: Value, t: Type)
  {
    match t
    case Unit => v.UnitValue?
    case Bool => v.BoolValue?
    case Integer(w, signed) => v.IntegerValue? && Fits(v.x, w, signed)
    case Vector(w, signed) => v.VectorValue? && AllFit(v.v, w, signed)
  }

  function ToPayload(v: Value, t: Type): Payload
    requires HasType(v, t)
  {
    match t
    case Unit => []
    case Bool => if v.b then [1] else [0]
    case Integer(w, signed) => ToBytes(v.x, w, signed)
    case Vector(w, signed) => VectorToBytes(v.v, w, signed)
  }

  /** Reading a payload panics, caught as an error, if it is too short. Bytes beyond an
      integer, a boolean or a unit are not looked at. */
  function FromPayload(b: Payload, t: Type): (r: Result<Value>)
    requires Proper(t)
    ensures r.Ok? ==> HasType(r.value, t)
  {
    match t
    case Unit => Ok(UnitValue)
    case Bool => if b == [] then Err else Ok(BoolValue(b[0] == 1))
    case Integer(w, signed) => if |b| < w then Err else Ok(IntegerValue(FromBytes(b[..w], signed)))
    case Vector(w, signed) => Ok(VectorValue(VectorFromBytes(b, w, signed)))
  }

  predicate Canonical(b: Payload, t: Type)
    requires Proper(t)
  {
    match t
    case Unit => b == []
    case Bool => b == [0] || b == [1]
    case Integer(w, _) => |b| == w
    case Vector(w, _) => |b| % w == 0
  }

  lemma ValueRoundTrip(v: Value, t: Type)
    requires Proper(t) && HasType(v, t)
    ensures FromPayload(ToPayload(v, t), t) == Ok(v) && Canonical(ToPayload(v, t), t)
  {
    match t
    case Integer(w, signed) =>
      IntegerRoundTrip(v.x, w, signed);
      assert ToPayload(v, t)[..w] == ToPayload(v, t);
    case Vector(w, signed) =>
      VectorRoundTrip(v.v, w, signed);
      VectorBytesRoundTrip(ToPayload(v, t), w, signed);
    case _ =>
  }

  /** A payload that is read is the payload of the value read if and only if it is canonical. */
  lemma PayloadRoundTrip(b: Payload, t: Type)
    requires Proper(t) && FromPayload(b, t).Ok?
    ensures ToPayload(FromPayload(b, t).value, t) == b <==> Canonical(b, t)
  {
    match t
    case Integer(w, signed) =>
      BytesRoundTrip(b[..w], signed);
      if |b| == w { assert b[..w] == b; }
    case Vector(w, signed) => VectorBytesRoundTrip(b, w, signed);
    case _ =>
  }

  predicate AllProper(ts: seq<Type>) { forall t :: t in ts ==> Proper(t) }

  predicate WellTyped(vs: seq<Value>, ts: seq<Type>)
  {
    |vs| == |ts| && forall i :: 0 <= i < |vs| ==> HasType(vs[i], ts[i])
  }

  function Payloads(vs: seq<Value>, ts: seq<Type>): (r: seq<Payload>)
    requires WellTyped(vs, ts)
    ensures |r| == |vs| && forall i :: 0 <= i < |vs| ==> r[i] == ToPayload(vs[i], ts[i])
  {
    if vs == [] then [] else [ToPayload(vs[0], ts[0])] + Payloads(vs[1..], ts[1..])
  }

  function Values(fields: seq<Payload>, ts: seq<Type>): (r: Result<seq<Value>>)
    requires |fields| == |ts| && AllProper(ts)
    ensures r.Ok? ==> WellTyped(r.value, ts)
    ensures r.Ok? ==> forall i :: 0 <= i < |ts| ==> FromPayload(fields[i], ts[i]) == Ok(r.value[i])
  {
    if fields == [] then Ok([])
    else
      var v := FromPayload(fields[0], ts[0]);
      var rest := Values(fields[1..], ts[1..]);
      if v.Err? || rest.Err? then Err else Ok([v.value] + rest.value)
  }

  function Serialize(vs: seq<Value>, ts: seq<Type>): Result<seq<Byte>>
    requires WellTyped(vs, ts)
  {
    Pack(Payloads(vs, ts))
  }

  function Deserialize(args: seq<Byte>, ts: seq<Type>): (r: Result<seq<Value>>)
    requires AllProper(ts)
    ensures r.Ok? ==> WellTyped(r.value, ts)
  {
    var fields := Unpack(args, |ts|);
    if fields.Err? then Err else Values(fields.value, ts)
  }

  lemma {:induction false} ValuesOfPayloads(vs: seq<Value>, ts: seq<Type>)
    requires WellTyped(vs, ts) && AllProper(ts)
    ensures Values(Payloads(vs, ts), ts) == Ok(vs)
  {
    if vs != [] {
      ValueRoundTrip(vs[0], ts[0]);
      ValuesOfPayloads(vs[1..], ts[1..]);
      var fields := Payloads(vs, ts);
      assert fields[1..] == Payloads(vs[1..], ts[1..]) && fields[0] == ToPayload(vs[0], ts[0]);
      assert [vs[0]] + vs[1..] == vs;
      assert fields != [];
    }
  }

  /** Every message that can be serialized is deserialized to itself. */
  lemma MessageRoundTrip(vs: seq<Value>, ts: seq<Type>)
    requires WellTyped(vs, ts) && AllProper(ts) && Serialize(vs, ts).Ok?
    ensures Deserialize(Serialize(vs, ts).value, ts) == Ok(vs)
  {
    UnpackOfPack(Payloads(vs, ts));
    ValuesOfPayloads(vs, ts);
  }

  /** Bytes that are accepted are the serialization of what they are read as if and only if each
      of their fields is canonical; only such bytes are ever produced. */
  lemma AcceptedBytesRoundTrip(args: seq<Byte>, ts: seq<Type>)
    requires |args| <= ISIZE_MAX && AllProper(ts) && Deserialize(args, ts).Ok?
    ensures Serialize(Deserialize(args, ts).value, ts) == Ok(args)
       <==> forall i :: 0 <= i < |ts| ==> Canonical(Unpack(args, |ts|).value[i], ts[i])
  {
    var fields, vs := Unpack(args, |ts|).value, Deserialize(args, ts).value;
    PackOfUnpack(args, |ts|);
    forall i | 0 <= i < |ts| ensures Payloads(vs, ts)[i] == fields[i] <==> Canonical(fields[i], ts[i]) {
      PayloadRoundTrip(fields[i], ts[i]);
    }
    if Serialize(vs, ts) == Ok(args) {
      UnpackOfPack(Payloads(vs, ts));
    }
    if forall i :: 0 <= i < |ts| ==> Canonical(fields[i], ts[i]) {
      assert Payloads(vs, ts) == fields;
    }
  }

  /** A boolean with a byte too many is read like one without, though the bytes differ. */
  lemma TrailingByteIsIgnored() returns (short: seq<Byte>, long: seq<Byte>)
    ensures short != long
    ensures Deserialize(short, [Bool]) == Ok([BoolValue(true)]) == Deserialize(long, [Bool])
  {
    var one, two: Payload := [1], [1, 0];
    PacksIffShort([one]);
    PacksIffShort([two]);
    short, long := Pack([one]).value, Pack([two]).value;
    UnpackOfPack([one]);
    UnpackOfPack([two]);
    ReadsTrue(one);
    ReadsTrue(two);
  }

  lemma ReadsTrue(b: Payload)
    requires b != [] && b[0] == 1
    ensures Values([b], [Bool]) == Ok([BoolValue(true)])
  {
    var none: seq<Value> := [];
    assert [b][1..] == [] && [Bool][1..] == [];
    assert [BoolValue(true)] + none == [BoolValue(true)];
  }
}
