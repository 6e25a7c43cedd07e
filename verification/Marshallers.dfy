/** Column values in the state format: what is written depends on the Go type of the value, what is read on the OID. */
module Marshallers {
  import opened Wrappers
  import opened Bytes
  import opened Buffers

  type Uuid = s: Bytestring | |s| == 16 witness seq(16, _ => 0)

  /** A value by its Go type. Floats are their bit patterns; times and JSON documents stand as the bytes their
      own codecs give them. `Ref` is a pointer. */
  datatype Value =
    | BoolValue(b: bool)
    | Int8Value(i8: Int8)
    | Int16Value(i16: Int16)
    | Int32Value(i32: Int32)
    | Int64Value(i64: Int64)
    | Float32Value(bits32: Uint32)
    | Float64Value(bits64: Uint64)
    | StringValue(text: Bytestring)
    | BytesValue(bytes: Bytestring)
    | TimeValue(time: Bytestring)
    | DurationValue(nanos: Int64)
    | JsonValue(json: Bytestring)
    | UuidValue(uuid: Uuid, valid: bool)
    | Ref(target: Value)
    | OtherValue

  /** The byte strings that the foreign codecs for times and JSON read. */
  datatype Foreign = Foreign(isTime: Bytestring -> bool, isJson: Bytestring -> bool)

  datatype Kind =
    | BoolKind | BytesKind | Int2Kind | Int4Kind | Int8Kind | Float4Kind | Float8Kind
    | StringKind | TimeKind | IntervalKind | JsonKind | UuidKind | NoKind

  /** The tables of marshallers and unmarshallers. An entry without a function (point, numeric, geometry, ltree)
      is found, and calling it dereferences nil. */
  function KindOf(oid: Uint32): Option<Kind> {
    if oid == 16 || oid == 1560 then Some(BoolKind)
    else if oid == 1561 || oid == 1001 then Some(BytesKind)
    else if oid == 21 then Some(Int2Kind)
    else if oid == 23 then Some(Int4Kind)
    else if oid == 20 then Some(Int8Kind)
    else if oid == 700 then Some(Float4Kind)
    else if oid == 701 then Some(Float8Kind)
    else if oid == 18 || oid == 1043 || oid == 25 then Some(StringKind)
    else if oid == 1114 || oid == 1184 then Some(TimeKind)
    else if oid == 1186 then Some(IntervalKind)
    else if oid == 114 || oid == 3802 then Some(JsonKind)
    else if oid == 2950 then Some(UuidKind)
    else if oid == 600 || oid == 1700 || oid == 514836 || oid == 516272 then Some(NoKind)
    else None
  }

  function MarshalBool(v: Value): Result<Bytestring> {
    match v
    case BoolValue(b) => Ok(Bool(b))
    case Ref(BoolValue(b)) => Ok(Bool(b))
    case _ => Err
  }

  function MarshalInt(v: Value): Result<Bytestring> {
    match if v.Ref? then v.target else v
    case Int8Value(i) => Ok(BigEndian(Unsigned(i, 256), 1))
    case Int16Value(i) => Ok(BigEndian(Unsigned(i, 0x1_0000), 2))
    case Int32Value(i) => Ok(BigEndian(Unsigned(i, UINT32), 4))
    case Int64Value(i) => Ok(BigEndian(Unsigned(i, UINT64), 8))
    case _ => Err
  }

  function MarshalFloat(v: Value): Result<Bytestring> {
    match if v.Ref? then v.target else v
    case Float32Value(bits) => Ok(BigEndian(bits, 4))
    case Float64Value(bits) => Ok(BigEndian(bits, 8))
    case _ => Err
  }

  function MarshalInterval(v: Value): Result<Bytestring> {
    if v.DurationValue? then Ok(BigEndian(Unsigned(v.nanos, UINT64), 8)) else Err
  }

  /** The bytes of a value of variable length, provided it has the right Go type. */
  function Payload(kind: Kind, v: Value): Option<Bytestring> {
    match v
    case BytesValue(s) => if kind == BytesKind then Some(s) else None
    case StringValue(s) => if kind == StringKind then Some(s) else None
    case TimeValue(s) => if kind == TimeKind then Some(s) else None
    case JsonValue(s) => if kind == JsonKind then Some(s) else None
    case UuidValue(s, _) => if kind == UuidKind then Some(s) else None
    case _ => None
  }

  function MarshalSized(kind: Kind, v: Value): Result<Bytestring> {
    if Payload(kind, v).Some? then Ok(Sized(Payload(kind, v).value)) else Err
  }

  function MarshalFixed(kind: Kind, v: Value): Result<Bytestring> {
    if kind.IntervalKind? then MarshalInterval(v)
    else if kind.Float4Kind? || kind.Float8Kind? then MarshalFloat(v)
    else MarshalInt(v)
  }

  function Marshal(oid: Uint32, v: Value): Result<Bytestring> {
    if KindOf(oid).None? then Err
    else if KindOf(oid).value.NoKind? then Panic
    else if KindOf(oid).value.BoolKind? then MarshalBool(v)
    else if IsSized(KindOf(oid).value) then MarshalSized(KindOf(oid).value, v)
    else MarshalFixed(KindOf(oid).value, v)
  }

  predicate IsSized(kind: Kind) {
    kind.BytesKind? || kind.StringKind? || kind.TimeKind? || kind.JsonKind? || kind.UuidKind?
  }

  predicate IsFixed(kind: Kind) {
    !IsSized(kind) && !kind.BoolKind? && !kind.NoKind?
  }

  /** The sixteen bytes of a UUID: what was read, cut or filled up with zeros. */
  function UuidBytes(d: Bytestring): Uuid {
    if |d| >= 16 then d[..16] else d + seq(16 - |d|, _ => 0)
  }

  function FromBytes(foreign: Foreign, kind: Kind, d: Bytestring): Result<Value>
    requires IsSized(kind)
  {
    match kind
    case BytesKind => Ok(BytesValue(d))
    case StringKind => Ok(StringValue(d))
    case TimeKind => if foreign.isTime(d) then Ok(TimeValue(d)) else Err
    case JsonKind => if foreign.isJson(d) then Ok(JsonValue(d)) else Err
    case UuidKind => Ok(UuidValue(UuidBytes(d), true))
  }

  function FromUint(kind: Kind, n: nat): (v: Value)
    requires IsFixed(kind)
    requires n < Limit(Width(kind))
  {
    Limits();
    match kind
    case Int2Kind => Int16Value(Signed(n, 0x1_0000))
    case Int4Kind => Int32Value(Signed(n, UINT32))
    case Int8Kind => Int64Value(Signed(n, UINT64))
    case Float4Kind => Float32Value(n)
    case Float8Kind => Float64Value(n)
    case IntervalKind => DurationValue(Signed(n, UINT64))
  }

  function Width(kind: Kind): nat {
    if kind == Int2Kind then 2 else if kind == Int4Kind || kind == Float4Kind then 4 else 8
  }

  function Unmarshal(foreign: Foreign, oid: Uint32, buffer: Bytestring): Result<(Value, Bytestring)> {
    if KindOf(oid).None? then Err
    else if KindOf(oid).value.NoKind? then Panic
    else if KindOf(oid).value.BoolKind? then UnmarshalBool(buffer)
    else if IsSized(KindOf(oid).value) then UnmarshalSized(foreign, KindOf(oid).value, buffer)
    else UnmarshalFixed(KindOf(oid).value, buffer)
  }

  function UnmarshalBool(buffer: Bytestring): Result<(Value, Bytestring)> {
    var (b, rest) :- TakeBool(buffer);
    Ok((BoolValue(b), rest))
  }

  function UnmarshalSized(foreign: Foreign, kind: Kind, buffer: Bytestring): Result<(Value, Bytestring)>
    requires IsSized(kind)
  {
    var (d, rest) :- TakeSized(buffer);
    var v :- FromBytes(foreign, kind, d);
    Ok((v, rest))
  }

  function UnmarshalFixed(kind: Kind, buffer: Bytestring): Result<(Value, Bytestring)>
    requires IsFixed(kind)
  {
    var (n, rest) :- TakeUint(buffer, Width(kind));
    Ok((FromUint(kind, n), rest))
  }

  /** The value has the Go type that the kind reads back, and its length fits into 32 bits. */
  predicate ReadsBackAs(foreign: Foreign, kind: Kind, v: Value) {
    match kind
    case NoKind => false
    case BoolKind => v.BoolValue?
    case Int2Kind => v.Int16Value?
    case Int4Kind => v.Int32Value?
    case Int8Kind => v.Int64Value?
    case Float4Kind => v.Float32Value?
    case Float8Kind => v.Float64Value?
    case IntervalKind => v.DurationValue?
    case BytesKind => v.BytesValue? && |v.bytes| < UINT32
    case StringKind => v.StringValue? && |v.text| < UINT32
    case TimeKind => v.TimeValue? && |v.time| < UINT32 && foreign.isTime(v.time)
    case JsonKind => v.JsonValue? && |v.json| < UINT32 && foreign.isJson(v.json)
    case UuidKind => v.UuidValue? && v.valid
  }

  predicate ReadsBack(foreign: Foreign, oid: Uint32, v: Value) {
    KindOf(oid).Some? && ReadsBackAs(foreign, KindOf(oid).value, v)
  }

  lemma FixedRoundTrip(foreign: Foreign, kind: Kind, v: Value, rest: Bytestring)
    requires IsFixed(kind) && ReadsBackAs(foreign, kind, v)
    ensures MarshalFixed(kind, v).Ok? && UnmarshalFixed(kind, MarshalFixed(kind, v).value + rest) == Ok((v, rest))
  {
    Limits();
    hide TakeUint;
    match v {
      case Int16Value(i) => UintRoundTrip(Unsigned(i, 0x1_0000), 2, rest);
      case Int32Value(i) => UintRoundTrip(Unsigned(i, UINT32), 4, rest);
      case Int64Value(i) => UintRoundTrip(Unsigned(i, UINT64), 8, rest);
      case Float32Value(bits) => UintRoundTrip(bits, 4, rest);
      case Float64Value(bits) => UintRoundTrip(bits, 8, rest);
      case DurationValue(i) => UintRoundTrip(Unsigned(i, UINT64), 8, rest);
    }
  }

  lemma SizedValueRoundTrip(foreign: Foreign, kind: Kind, v: Value, rest: Bytestring)
    requires IsSized(kind) && Payload(kind, v).Some?
    ensures UnmarshalSized(foreign, kind, Sized(Payload(kind, v).value) + rest) == Ok((v, rest)) <==>
            ReadsBackAs(foreign, kind, v)
  {
    hide TakeSized, Sized;
    var s := Payload(kind, v).value;
    SizedRoundTrip(s, rest);
    assert |s| == 16 ==> s[..16] == s;
    if |s| >= UINT32 {
      LongIsCut(s, rest);
    }
  }

  /** A byte string that is too long comes back shorter. */
  lemma LongIsCut(s: Bytestring, rest: Bytestring)
    requires |s| >= UINT32
    ensures TakeSized(Sized(s) + rest).Ok? ==> |TakeSized(Sized(s) + rest).value.0| < |s|
  {
    Limits();
    assert Sized(s) + rest == BigEndian(|s| % UINT32, 4) + (s + rest);
    UintRoundTrip(|s| % UINT32, 4, s + rest);
  }

  /** Whatever the bytes, a value read for an OID has the Go type of that OID. */
  lemma KindIsFixed(foreign: Foreign, oid: Uint32, buffer: Bytestring)
    requires Unmarshal(foreign, oid, buffer).Ok?
    ensures ReadsBack(foreign, oid, Unmarshal(foreign, oid, buffer).value.0)
  {
    hide KindOf;
    Limits();
    if IsSized(KindOf(oid).value) {
      var (length, rest) := TakeUint(buffer, 4).value;
      assert Take(rest, length).Ok? ==> |Take(rest, length).value.0| == length;
    }
  }

  /** A value can be written and comes back, in front of any further bytes, if and only if it has the Go type that
      its OID reads. */
  lemma MarshalRoundTrip(foreign: Foreign, oid: Uint32, v: Value, rest: Bytestring)
    ensures Marshal(oid, v).Ok? && Unmarshal(foreign, oid, Marshal(oid, v).value + rest) == Ok((v, rest)) <==>
            ReadsBack(foreign, oid, v)
  {
    hide KindOf, TakeUint, TakeSized, Sized;
    if KindOf(oid).Some? && IsSized(KindOf(oid).value) && Payload(KindOf(oid).value, v).Some? {
      SizedValueRoundTrip(foreign, KindOf(oid).value, v, rest);
    } else if ReadsBack(foreign, oid, v) {
      if v.BoolValue? {
        BoolRoundTrip(v.b, rest);
      } else {
        FixedRoundTrip(foreign, KindOf(oid).value, v, rest);
      }
    } else if Marshal(oid, v).Ok? && Unmarshal(foreign, oid, Marshal(oid, v).value + rest).Ok? {
      KindIsFixed(foreign, oid, Marshal(oid, v).value + rest);
    }
  }

  // ---------------------------------------------------------------------------------------------
  // The marshallers on the buffers
  // ---------------------------------------------------------------------------------------------

  method BoolMarshaller(buffer: WriteBuffer, value: Value) returns (r: Result<()>)
    modifies buffer
    ensures Wrote(MarshalBool(value), r, old(buffer.bytes), buffer.bytes)
  {
    match value {
      case BoolValue(b) => buffer.PutBool(b);
      case Ref(BoolValue(b)) => buffer.PutBool(b);
      case _ => return Err;
    }
    r := Ok(());
  }

  method IntMarshaller(buffer: WriteBuffer, value: Value) returns (r: Result<()>)
    modifies buffer
    ensures Wrote(MarshalInt(value), r, old(buffer.bytes), buffer.bytes)
  {
    match if value.Ref? then value.target else value {
      case Int8Value(i) => buffer.PutInt8(i);
      case Int16Value(i) => buffer.PutInt16(i);
      case Int32Value(i) => buffer.PutInt32(i);
      case Int64Value(i) => buffer.PutInt64(i);
      case _ => return Err;
    }
    r := Ok(());
  }

  method FloatMarshaller(buffer: WriteBuffer, value: Value) returns (r: Result<()>)
    modifies buffer
    ensures Wrote(MarshalFloat(value), r, old(buffer.bytes), buffer.bytes)
  {
    match if value.Ref? then value.target else value {
      case Float32Value(bits) => buffer.PutUint32(bits);
      case Float64Value(bits) => buffer.PutUint64(bits);
      case _ => return Err;
    }
    r := Ok(());
  }

  method BinaryMarshall(buffer: WriteBuffer, oid: Uint32, value: Value) returns (r: Result<()>)
    modifies buffer
    ensures Wrote(Marshal(oid, value), r, old(buffer.bytes), buffer.bytes)
  {
    hide KindOf, Sized, MarshalInt, MarshalFloat, MarshalBool;
    var entry := KindOf(oid);
    if entry.None? {
      return Err;
    }
    match entry.value {
      case NoKind => r := Panic;
      case BoolKind => r := BoolMarshaller(buffer, value);
      case Int2Kind => r := IntMarshaller(buffer, value);
      case Int4Kind => r := IntMarshaller(buffer, value);
      case Int8Kind => r := IntMarshaller(buffer, value);
      case Float4Kind => r := FloatMarshaller(buffer, value);
      case Float8Kind => r := FloatMarshaller(buffer, value);
      case IntervalKind =>
        if !value.DurationValue? {
          return Err;
        }
        buffer.PutInt64(value.nanos);
        r := Ok(());
      case kind =>
        if Payload(kind, value).None? {
          return Err;
        }
        buffer.PutBytes(Payload(kind, value).value);
        r := Ok(());
    }
  }

  method BinaryUnmarshall(foreign: Foreign, buffer: ReadBuffer, oid: Uint32) returns (r: Result<Value>)
    modifies buffer
    ensures Got(Unmarshal(foreign, oid, old(buffer.bytes)), r, buffer.bytes)
  {
    hide KindOf, TakeSized, TakeUint;
    var entry := KindOf(oid);
    if entry.None? {
      return Err;
    }
    var kind := entry.value;
    if kind.NoKind? {
      return Panic;
    } else if kind.BoolKind? {
      var b :- buffer.ReadBool();
      r := Ok(BoolValue(b));
    } else if IsSized(kind) {
      var d :- buffer.ReadBytes();
      r := FromBytes(foreign, kind, d);
    } else {
      var n :- buffer.ReadUint(Width(kind));
      r := Ok(FromUint(kind, n));
    }
  }

  // ---------------------------------------------------------------------------------------------
  // The types by OID
  // ---------------------------------------------------------------------------------------------

  /** Booleans and bits take one byte; int2, int4 and int8 take 2, 4 and 8 bytes, most significant first and in two's
      complement. */
  lemma IntegersByOid(foreign: Foreign, d: Bytestring, rest: Bytestring)
    ensures |d| == 1 ==> Unmarshal(foreign, 16, d + rest) == Unmarshal(foreign, 1560, d + rest) ==
                         Ok((BoolValue(d[0] == 1), rest))
    ensures |d| == 2 ==> Unmarshal(foreign, 21, d + rest) == Ok((Int16Value(AsSigned(d)), rest))
    ensures |d| == 4 ==> Unmarshal(foreign, 23, d + rest) == Ok((Int32Value(AsSigned(d)), rest))
    ensures |d| == 8 ==> Unmarshal(foreign, 20, d + rest) == Ok((Int64Value(AsSigned(d)), rest))
  {
    hide TakeUint, TakeBool, Signed, AsSigned, Bytes.Value, Limit;
    Limits();
    TakeWhole(d, rest);
    SignedBytes(d);
  }

  /** Float4, float8 and intervals take 4, 8 and 8 bytes, most significant first. */
  lemma FloatsByOid(foreign: Foreign, d: Bytestring, rest: Bytestring)
    ensures |d| == 4 ==> Unmarshal(foreign, 700, d + rest) == Ok((Float32Value(AsUnsigned(d)), rest))
    ensures |d| == 8 ==> Unmarshal(foreign, 701, d + rest) == Ok((Float64Value(AsUnsigned(d)), rest))
    ensures |d| == 8 ==> Unmarshal(foreign, 1186, d + rest) == Ok((DurationValue(AsSigned(d)), rest))
  {
    hide TakeUint, TakeBool, Signed, AsSigned, Bytes.Value, Limit;
    Limits();
    TakeWhole(d, rest);
    SignedBytes(d);
  }

  lemma SignedBytes(d: Bytestring)
    ensures |d| == 2 ==> Signed(Bytes.Value(d), 0x1_0000) == AsSigned(d)
    ensures |d| == 4 ==> Signed(Bytes.Value(d), UINT32) == AsSigned(d)
    ensures |d| == 8 ==> Signed(Bytes.Value(d), UINT64) == AsSigned(d)
  {
    Limits();
  }

  lemma TakeWhole(d: Bytestring, rest: Bytestring)
    ensures d != [] ==> TakeUint(d + rest, |d|) == Ok((Bytes.Value(d), rest))
    ensures |d| == 1 ==> TakeBool(d + rest) == Ok((d[0] == 1, rest))
  {
    TakeFront(d, rest);
    if |d| == 1 {
      assert (d + rest)[0] == d[0] && (d + rest)[1..] == rest;
    }
  }

  function AsUnsigned(d: Bytestring): (n: nat)
    ensures |d| == 4 ==> n < UINT32
    ensures |d| == 8 ==> n < UINT64
  {
    Limits();
    Bytes.Value(d)
  }

  /** Two's complement of as many bytes. */
  function AsSigned(d: Bytestring): (i: int)
    ensures |d| == 2 ==> -0x8000 <= i < 0x8000
    ensures |d| == 4 ==> -0x8000_0000 <= i < 0x8000_0000
    ensures |d| == 8 ==> -0x8000_0000_0000_0000 <= i < 0x8000_0000_0000_0000
  {
    Limits();
    var n := Bytes.Value(d);
    if 2 * n < Limit(|d|) then n else n - Limit(|d|)
  }

  /** Strings, byte strings, times, JSON documents and UUIDs are a length and that many bytes. */
  lemma SizedByOid(foreign: Foreign, s: Bytestring, rest: Bytestring)
    requires |s| < UINT32
    ensures forall oid | oid in {18, 25, 1043} :: Unmarshal(foreign, oid, Sized(s) + rest) == Ok((StringValue(s), rest))
    ensures forall oid | oid in {1001, 1561} :: Unmarshal(foreign, oid, Sized(s) + rest) == Ok((BytesValue(s), rest))
    ensures forall oid | oid in {1114, 1184} ::
              Unmarshal(foreign, oid, Sized(s) + rest) == if foreign.isTime(s) then Ok((TimeValue(s), rest)) else Err
    ensures forall oid | oid in {114, 3802} ::
              Unmarshal(foreign, oid, Sized(s) + rest) == if foreign.isJson(s) then Ok((JsonValue(s), rest)) else Err
    ensures |s| == 16 ==> Unmarshal(foreign, 2950, Sized(s) + rest) == Ok((UuidValue(s, true), rest))
  {
    hide TakeSized, Sized;
    SizedRoundTrip(s, rest);
    assert |s| == 16 ==> s[..16] == s;
  }

  /** Points, numerics, geometries and ltrees are in the tables without a function; other OIDs are not in the tables. */
  lemma NothingByOid(foreign: Foreign, oid: Uint32, v: Value, buffer: Bytestring)
    ensures oid in {600, 1700, 514836, 516272} ==> Marshal(oid, v).Panic? && Unmarshal(foreign, oid, buffer).Panic?
    ensures oid !in {16, 1560, 1561, 1001, 21, 23, 20, 700, 701, 18, 25, 1043, 1114, 1184, 1186, 114, 3802, 2950,
                     600, 1700, 514836, 516272} ==>
              Marshal(oid, v).Err? && Unmarshal(foreign, oid, buffer).Err?
  {
    hide MarshalBool, MarshalSized, MarshalFixed, UnmarshalBool, UnmarshalSized, UnmarshalFixed;
  }
}
