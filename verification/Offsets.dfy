/** The replication offset and its binary form. Reading past the end of the data is a run-time fault. */
module Offsets {
  import opened Wrappers
  import opened Bytes
  import opened Buffers

  /** The timestamp is in nanoseconds; an absent keyset is an empty one. */
  datatype Offset = Offset(
    timestamp: Int64,
    snapshot: bool,
    snapshotDone: bool,
    snapshotName: Option<Bytestring>,
    snapshotOffset: Int64,
    snapshotKeyset: Bytestring,
    lsn: Uint64)

  // ---------------------------------------------------------------------------------------------
  // Writing
  // ---------------------------------------------------------------------------------------------

  /** The part of fixed size; the snapshot offset is cut to 32 bits. */
  function EncodeFixed(o: Offset): (s: Bytestring)
    ensures |s| == 21
  {
    BigEndian(Unsigned(o.timestamp, UINT64), 8) + Bool(o.snapshot) +
    BigEndian(o.snapshotOffset % UINT32, 4) + BigEndian(o.lsn, 8)
  }

  /** The length of the name is cut to one byte. */
  function EncodeName(name: Option<Bytestring>): Bytestring {
    if name.None? then [0] else [1] + [|name.value| % 256] + name.value
  }

  function EncodeKeyset(keyset: Bytestring): Bytestring {
    if keyset == [] then [] else Sized(keyset)
  }

  function Encode(o: Offset): Bytestring {
    EncodeFixed(o) + EncodeName(o.snapshotName) + Bool(o.snapshotDone) + EncodeKeyset(o.snapshotKeyset)
  }

  function SizeOf(o: Offset): nat {
    23 + (if o.snapshotName.Some? then 1 + |o.snapshotName.value| else 0)
    + (if |o.snapshotKeyset| > 0 then 4 + |o.snapshotKeyset| else 0)
  }

  lemma SizeIsRight(o: Offset)
    ensures SizeOf(o) == |Encode(o)|
  {
    hide BigEndian;
  }

  /** Copies `s` into the array at `offset`. */
  method PutAt(data: array<Byte>, offset: nat, s: Bytestring) returns (next: nat)
    requires offset + |s| <= data.Length
    modifies data
    ensures next == offset + |s| && data[..next] == old(data[..offset]) + s
  {
    var i := 0;
    while i < |s|
      invariant 0 <= i <= |s|
      invariant data[..offset] == old(data[..offset]) && data[offset..offset + i] == s[..i]
    {
      data[offset + i] := s[i];
      i := i + 1;
    }
    next := offset + |s|;
  }

  method PutName(data: array<Byte>, offset: nat, name: Option<Bytestring>) returns (next: nat)
    requires offset + |EncodeName(name)| <= data.Length
    modifies data
    ensures next == offset + |EncodeName(name)| && data[..next] == old(data[..offset]) + EncodeName(name)
  {
    next := PutAt(data, offset, [if name.Some? then 1 else 0]);
    if name.Some? {
      next := PutAt(data, next, [|name.value| % 256]);
      next := PutAt(data, next, name.value);
    }
  }

  method PutKeyset(data: array<Byte>, offset: nat, keyset: Bytestring) returns (next: nat)
    requires offset + |EncodeKeyset(keyset)| <= data.Length
    modifies data
    ensures next == offset + |EncodeKeyset(keyset)| && data[..next] == old(data[..offset]) + EncodeKeyset(keyset)
  {
    next := offset;
    if |keyset| > 0 {
      next := PutAt(data, next, BigEndian(|keyset| % UINT32, 4));
      next := PutAt(data, next, keyset);
    }
  }

  method MarshalBinary(o: Offset) returns (data: array<Byte>)
    ensures fresh(data) && data[..] == Encode(o)
  {
    SizeIsRight(o);
    hide SizeOf, EncodeFixed, EncodeName, EncodeKeyset, Bool;
    data := new Byte[SizeOf(o)](_ => 0);
    var offset := PutAt(data, 0, EncodeFixed(o));
    offset := PutName(data, offset, o.snapshotName);
    offset := PutAt(data, offset, Bool(o.snapshotDone));
    offset := PutKeyset(data, offset, o.snapshotKeyset);
    assert data[..offset] == data[..];
  }

  // ---------------------------------------------------------------------------------------------
  // Reading
  // ---------------------------------------------------------------------------------------------

  /** The name and what follows it, from the byte that says whether there is a name. */
  function TakeName(data: Bytestring): Result<(Option<Bytestring>, Bytestring)> {
    if data == [] then Panic
    else if data[0] != 1 then Ok((None, data[1..]))
    else if |data| < 2 then Panic
    else
      var length: int := data[1];
      if |data| < 2 + length then Panic
      else Ok((if length > 0 then Some(data[2..2 + length]) else None, data[2 + length..]))
  }

  /** A keyset is there if any byte is left; bytes that are missing are zero. */
  function TakeKeyset(data: Bytestring): Result<Bytestring> {
    if data == [] then Ok([])
    else if |data| < 4 then Panic
    else
      var length := Value(data[..4]);
      var bytes := data[4..];
      Ok(if length <= |bytes| then bytes[..length] else bytes + seq(length - |bytes|, _ => 0))
  }

  function Decode(data: Bytestring): Result<Offset> {
    if |data| < 21 then Panic
    else
      Limits();
      var (name, afterName) :- TakeName(data[21..]);
      if afterName == [] then Panic
      else
        var keyset :- TakeKeyset(afterName[1..]);
        Ok(Offset(
             Signed(Value(data[..8]), UINT64), data[8] == 1, afterName[0] == 1, name, Value(data[9..13]), keyset,
             Value(data[13..21])))
  }

  method ReadName(data: Bytestring, start: nat) returns (r: Result<(Option<Bytestring>, nat)>)
    requires start < |data|
    ensures match r
            case Ok((name, offset)) => offset <= |data| && TakeName(data[start..]) == Ok((name, data[offset..]))
            case Err => TakeName(data[start..]) == Err
            case Panic => TakeName(data[start..]) == Panic
  {
    var offset := start;
    var hasSnapshotName := data[offset] == 1;
    offset := offset + 1;
    var snapshotName := None;
    if hasSnapshotName {
      if offset >= |data| {
        return Panic;
      }
      var snapshotNameLength: int := data[offset];
      offset := offset + 1;
      if offset + snapshotNameLength > |data| {
        return Panic;
      }
      if snapshotNameLength > 0 {
        snapshotName := Some(data[offset..offset + snapshotNameLength]);
        assert data[offset..offset + snapshotNameLength] == data[start..][2..2 + snapshotNameLength];
        offset := offset + snapshotNameLength;
      }
    }
    assert data[start..][offset - start..] == data[offset..];
    r := Ok((snapshotName, offset));
  }

  method ReadKeyset(data: Bytestring, start: nat) returns (r: Result<Bytestring>)
    requires start <= |data|
    ensures r == TakeKeyset(data[start..])
  {
    hide Value;
    var offset := start;
    if |data| < offset + 1 {
      return Ok([]);
    }
    if offset + 4 > |data| {
      return Panic;
    }
    var length := Value(data[offset..offset + 4]);
    assert data[offset..offset + 4] == data[offset..][..4];
    offset := offset + 4;
    assert data[offset..] == data[start..][4..];
    if length <= |data| - offset {
      assert data[offset..offset + length] == data[offset..][..length];
      r := Ok(data[offset..offset + length]);
    } else {
      r := Ok(data[offset..] + seq(length - (|data| - offset), _ => 0));
    }
  }

  method UnmarshalBinary(data: Bytestring) returns (r: Result<Offset>)
    ensures r == Decode(data)
  {
    hide Value, TakeName, TakeKeyset;
    if |data| < 22 {
      NoName(data);
      return Panic;
    }
    Limits();
    var timestamp := Signed(Value(data[..8]), UINT64);
    var snapshot := data[8] == 1;
    var snapshotOffset := Value(data[9..13]);
    var lsn := Value(data[13..21]);
    var named :- ReadName(data, 21);
    var (snapshotName, offset) := named;
    if offset >= |data| {
      return Panic;
    }
    var snapshotDone := data[offset] == 1;
    assert data[offset..][1..] == data[offset + 1..];
    var snapshotKeyset :- ReadKeyset(data, offset + 1);
    r := Ok(Offset(timestamp, snapshot, snapshotDone, snapshotName, snapshotOffset, snapshotKeyset, lsn));
  }

  lemma NoName(data: Bytestring)
    requires |data| < 22
    ensures |data| == 21 ==> TakeName(data[21..]) == Panic
  {
  }

  // ---------------------------------------------------------------------------------------------
  // The round trip
  // ---------------------------------------------------------------------------------------------

  predicate Storable(o: Offset) {
    && (o.snapshotName.Some? ==> 1 <= |o.snapshotName.value| <= 255)
    && 0 <= o.snapshotOffset < UINT32
    && |o.snapshotKeyset| < UINT32
  }

  lemma FixedParts(o: Offset, rest: Bytestring)
    requires 0 <= o.snapshotOffset < UINT32
    ensures var data := EncodeFixed(o) + rest;
            && Signed(Value(data[..8]), UINT64) == o.timestamp
            && (data[8] == 1 <==> o.snapshot)
            && Value(data[9..13]) == o.snapshotOffset
            && Value(data[13..21]) == o.lsn
            && data[21..] == rest
  {
    hide BigEndian, Value;
    Limits();
    var data := EncodeFixed(o) + rest;
    var timestamp := Unsigned(o.timestamp, UINT64);
    BigEndianRoundTrip(timestamp, 8);
    BigEndianRoundTrip(o.snapshotOffset, 4);
    BigEndianRoundTrip(o.lsn, 8);
    assert data[..8] == BigEndian(timestamp, 8);
    assert data[9..13] == BigEndian(o.snapshotOffset, 4);
    assert data[13..21] == BigEndian(o.lsn, 8);
    assert data[21..] == rest;
  }

  lemma NameRoundTrip(name: Option<Bytestring>, rest: Bytestring)
    requires name.Some? ==> 1 <= |name.value| <= 255
    ensures TakeName(EncodeName(name) + rest) == Ok((name, rest))
  {
    var data := EncodeName(name) + rest;
    if name.Some? {
      var length := |name.value|;
      assert data[2..2 + length] == name.value;
      assert data[2 + length..] == rest;
    } else {
      assert data[1..] == rest;
    }
  }

  lemma KeysetRoundTrip(keyset: Bytestring)
    requires |keyset| < UINT32
    ensures TakeKeyset(EncodeKeyset(keyset)) == Ok(keyset)
  {
    Limits();
    if keyset != [] {
      var data := Sized(keyset);
      assert data[..4] == BigEndian(|keyset|, 4) && data[4..] == keyset;
      BigEndianRoundTrip(|keyset|, 4);
      assert keyset[..|keyset|] == keyset;
    }
  }

  lemma StorableRoundTrip(o: Offset)
    requires Storable(o)
    ensures Decode(Encode(o)) == Ok(o)
  {
    hide EncodeFixed, EncodeName, TakeName, EncodeKeyset, TakeKeyset, Value;
    var last := Bool(o.snapshotDone) + EncodeKeyset(o.snapshotKeyset);
    var tail := EncodeName(o.snapshotName) + last;
    assert Encode(o) == EncodeFixed(o) + tail;
    FixedParts(o, tail);
    NameRoundTrip(o.snapshotName, last);
    assert last[1..] == EncodeKeyset(o.snapshotKeyset);
    KeysetRoundTrip(o.snapshotKeyset);
  }

  lemma DecodedIsStorable(data: Bytestring)
    requires Decode(data).Ok?
    ensures Storable(Decode(data).value)
  {
    Limits();
  }

  /** An offset survives if and only if its name is absent or has 1 to 255 bytes, and the snapshot offset and the
      length of the keyset fit into 32 bits. */
  lemma OffsetRoundTrip(o: Offset)
    ensures Decode(Encode(o)) == Ok(o) <==> Storable(o)
  {
    hide Encode, Decode;
    if Storable(o) {
      StorableRoundTrip(o);
    } else if Decode(Encode(o)).Ok? {
      DecodedIsStorable(Encode(o));
    }
  }

  /** Behind the fixed part: a flag and, with a name, its length and the name; then whether the snapshot is done; then
      the length of the keyset and the keyset, if there is one. */
  lemma VariableParts(o: Offset)
    requires Storable(o)
    ensures var data := Encode(o);
            var n := if o.snapshotName.Some? then 23 + |o.snapshotName.value| else 22;
            && |data| > n && data[21] == (if o.snapshotName.Some? then 1 else 0)
            && (o.snapshotName.Some? ==>
                  data[22] == |o.snapshotName.value| && data[23..23 + |o.snapshotName.value|] == o.snapshotName.value)
            && data[n] == (if o.snapshotDone then 1 else 0)
            && data[n + 1..] ==
               if o.snapshotKeyset == [] then [] else BigEndian(|o.snapshotKeyset|, 4) + o.snapshotKeyset
  {
    hide EncodeFixed, BigEndian;
    var fixed, name := EncodeFixed(o), EncodeName(o.snapshotName);
    var data := Encode(o);
    assert data[..21] == fixed && data[21..21 + |name|] == name;
    assert data[21 + |name|] == Bool(o.snapshotDone)[0];
    if o.snapshotName.Some? {
      assert data[21] == name[0] && data[22] == name[1];
      assert data[23..21 + |name|] == name[2..];
    } else {
      assert data[21] == name[0];
    }
    assert data[22 + |name|..] == EncodeKeyset(o.snapshotKeyset);
  }
}
