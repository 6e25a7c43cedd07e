/** The attributes a sink stores in the state file. Offsets into the data are 32 bit and wrap around. */
module SinkContexts {
  import opened Wrappers
  import opened Bytes
  import opened MapCodec

  type Attributes = map<Bytestring, Bytestring>

  // ---------------------------------------------------------------------------------------------
  // Writing
  // ---------------------------------------------------------------------------------------------

  /** Both lengths, cut to 32 bits, in front of both texts. */
  function EncodeAttribute(attributes: Attributes): Bytestring -> Result<Bytestring> {
    key =>
      if key in attributes then
        Ok(BigEndian(|key| % UINT32, 4) + BigEndian(|attributes[key]| % UINT32, 4) + key + attributes[key])
      else Err
  }

  function Encode(attributes: Attributes, order: seq<Bytestring>): Result<Bytestring> {
    Then(Ok(BigEndian(|attributes| % UINT32, 4)), Entries(order, EncodeAttribute(attributes)))
  }

  // ---------------------------------------------------------------------------------------------
  // Reading
  // ---------------------------------------------------------------------------------------------

  /** The data and what follows it in memory: a slice may reach into its spare capacity, an index may not. */
  datatype Memory = Memory(data: Bytestring, spare: Bytestring)

  function Uint32At(memory: Memory, offset: Uint32): (r: Result<Uint32>) {
    Limits();
    if offset + 4 <= |memory.data| then Ok(Value(memory.data[offset..offset + 4])) else Panic
  }

  function SliceAt(memory: Memory, from: Uint32, to: Uint32): Result<Bytestring> {
    if from <= to <= |memory.data| + |memory.spare| then Ok((memory.data + memory.spare)[from..to]) else Panic
  }

  function Plus(offset: Uint32, n: Uint32): Uint32 {
    (offset + n) % UINT32
  }

  function AttributeAt(memory: Memory, offset: Uint32): Result<(Bytestring, Bytestring, Uint32)> {
    var keyLength :- Uint32At(memory, offset);
    var valueLength :- Uint32At(memory, Plus(offset, 4));
    var keyAt := Plus(Plus(offset, 4), 4);
    var valueAt := Plus(keyAt, keyLength);
    var next := Plus(valueAt, valueLength);
    var key :- SliceAt(memory, keyAt, valueAt);
    var value :- SliceAt(memory, valueAt, next);
    Ok((key, value, next))
  }

  function AttributesAt(n: nat, attributes: Attributes, memory: Memory, offset: Uint32): Result<Attributes> {
    if n == 0 then Ok(attributes)
    else
      var (key, value, next) :- AttributeAt(memory, offset);
      AttributesAt(n - 1, attributes[key := value], memory, next)
  }

  /** What is stored is added to the attributes already present. */
  function Decode(present: Attributes, memory: Memory): Result<Attributes> {
    var n :- Uint32At(memory, 0);
    AttributesAt(n, present, memory, 4)
  }

  class SinkContext {
    var attributes: Attributes

    constructor ()
      ensures attributes == map[]
    {
      attributes := map[];
    }

    method SetAttribute(key: Bytestring, value: Bytestring)
      modifies this
      ensures attributes == old(attributes)[key := value]
    {
      attributes := attributes[key := value];
    }

    method MarshalBinary() returns (data: Bytestring, ghost order: seq<Bytestring>)
      ensures Enumerates(order, attributes.Keys) && Encode(attributes, order) == Ok(data)
      ensures |data| < UINT32 ==>
                forall present: Attributes, spare: Bytestring ::
                  Decode(present, Memory(data, spare)) == Ok(present + attributes)
    {
      hide Entries, Enumerates, Underway, BigEndian;
      data := BigEndian(|attributes| % UINT32, 4);
      ghost var start := data;
      order := [];
      var todo := attributes.Keys;
      Begin(todo, EncodeAttribute(attributes), start);
      while todo != {}
        invariant todo <= attributes.Keys
        invariant Underway(order, attributes.Keys, todo, EncodeAttribute(attributes), start, data)
        decreases |todo|
      {
        var key :| key in todo;
        var value := attributes[key];
        ghost var before := data;
        data := data + BigEndian(|key| % UINT32, 4);
        data := data + BigEndian(|value| % UINT32, 4);
        data := data + key;
        data := data + value;
        AppendFour(before, BigEndian(|key| % UINT32, 4), BigEndian(|value| % UINT32, 4), key, value);
        Advance(order, attributes.Keys, todo, EncodeAttribute(attributes), start, before, data, key);
        order := order + [key];
        todo := todo - {key};
      }
      Finish(order, attributes.Keys, EncodeAttribute(attributes), start, data);
      forall present: Attributes, spare: Bytestring | |data| < UINT32
        ensures Decode(present, Memory(data, spare)) == Ok(present + attributes)
      {
        SinkContextRoundTrip(attributes, order, present, spare);
      }
    }

    method UnmarshalBinary(memory: Memory) returns (r: Result<()>)
      modifies this
      ensures match Decode(old(attributes), memory)
              case Ok(read) => r.Ok? && attributes == read
              case Err => r == Err
              case Panic => r == Panic
    {
      hide Uint32At, SliceAt, Plus;
      ghost var present := attributes;
      var offset: Uint32 := 0;
      var numOfItems :- Uint32At(memory, offset);
      offset := 4;
      var i := 0;
      while i < numOfItems
        invariant 0 <= i <= numOfItems
        invariant AttributesAt(numOfItems, present, memory, 4) ==
                  AttributesAt(numOfItems - i, attributes, memory, offset)
      {
        var keyLength :- Uint32At(memory, offset);
        offset := Plus(offset, 4);
        var valueLength :- Uint32At(memory, offset);
        offset := Plus(offset, 4);
        var key :- SliceAt(memory, offset, Plus(offset, keyLength));
        offset := Plus(offset, keyLength);
        var value :- SliceAt(memory, offset, Plus(offset, valueLength));
        offset := Plus(offset, valueLength);
        SetAttribute(key, value);
        i := i + 1;
      }
      r := Ok(());
    }
  }

  lemma AppendFour(before: Bytestring, a: Bytestring, b: Bytestring, c: Bytestring, d: Bytestring)
    ensures before + a + b + c + d == before + (a + b + c + d)
  {
  }

  // ---------------------------------------------------------------------------------------------
  // The round trip
  // ---------------------------------------------------------------------------------------------

  /** Reading one attribute from the front of the bytes that are left, without any 32 bit offset. */
  function TakeAttribute(buffer: Bytestring): Result<(Bytestring, Bytestring, Bytestring)> {
    if |buffer| < 8 then Panic
    else
      var keyLength := Value(buffer[..4]);
      var valueLength := Value(buffer[4..8]);
      if |buffer| < 8 + keyLength + valueLength then Panic
      else
        Ok((buffer[8..8 + keyLength], buffer[8 + keyLength..8 + keyLength + valueLength],
           buffer[8 + keyLength + valueLength..]))
  }

  function DecodeAttribute(): Bytestring -> Result<(Bytestring, Bytestring, Bytestring)> {
    buffer => TakeAttribute(buffer)
  }

  lemma AttributeInverts(attributes: Attributes, key: Bytestring)
    requires key in attributes && |key| < UINT32 && |attributes[key]| < UINT32
    ensures Inverts(EncodeAttribute(attributes), DecodeAttribute(), key, attributes[key])
  {
    hide Value, BigEndian;
    Limits();
    var value := attributes[key];
    BigEndianRoundTrip(|key|, 4);
    BigEndianRoundTrip(|value|, 4);
    var encoded := EncodeAttribute(attributes)(key).value;
    forall rest: Bytestring ensures DecodeAttribute()(encoded + rest) == Ok((key, value, rest)) {
      var buffer := encoded + rest;
      assert buffer[..4] == BigEndian(|key|, 4);
      assert buffer[4..8] == BigEndian(|value|, 4);
      assert buffer[8..8 + |key|] == key;
      assert buffer[8 + |key|..8 + |key| + |value|] == value;
      assert buffer[8 + |key| + |value|..] == rest;
    }
  }

  lemma PlusWithin(offset: Uint32, n: Uint32)
    requires offset + n < UINT32
    ensures Plus(offset, n) == offset + n
  {
  }

  lemma SliceWithin(memory: Memory, offset: Uint32, from: nat, to: nat)
    requires from <= to && offset + to <= |memory.data| < UINT32
    ensures SliceAt(memory, offset + from, offset + to) == Ok(memory.data[offset..][from..to])
  {
    var all := memory.data + memory.spare;
    assert all[offset + from..offset + to] == memory.data[offset + from..offset + to];
    var left, right := memory.data[offset + from..offset + to], memory.data[offset..][from..to];
    assert |left| == |right| && forall k :: 0 <= k < |left| ==> left[k] == right[k];
    assert left == right;
  }

  lemma UintWithin(memory: Memory, offset: Uint32, from: nat)
    requires offset + from + 4 <= |memory.data| < UINT32
    ensures Uint32At(memory, offset + from) == Ok(Value(memory.data[offset..][from..from + 4]))
  {
    assert memory.data[offset + from..offset + from + 4] == memory.data[offset..][from..from + 4];
  }

  /** As long as the data is shorter than four gigabytes no offset wraps around. */
  lemma NoWrap(memory: Memory, offset: Uint32)
    requires |memory.data| < UINT32 && offset <= |memory.data|
    requires TakeAttribute(memory.data[offset..]).Ok?
    ensures var (key, value, rest) := TakeAttribute(memory.data[offset..]).value;
            |rest| <= |memory.data| && rest == memory.data[|memory.data| - |rest|..] &&
            AttributeAt(memory, offset) == Ok((key, value, |memory.data| - |rest|))
  {
    hide Value, Plus, SliceAt, Uint32At;
    var buffer := memory.data[offset..];
    UintWithin(memory, offset, 0);
    UintWithin(memory, offset, 4);
    assert buffer[0..4] == buffer[..4];
    var keyLength, valueLength := Value(buffer[..4]), Value(buffer[4..8]);
    PlusWithin(offset, 4);
    PlusWithin(offset + 4, 4);
    PlusWithin(offset + 8, keyLength);
    PlusWithin(offset + 8 + keyLength, valueLength);
    SliceWithin(memory, offset, 8, 8 + keyLength);
    SliceWithin(memory, offset, 8 + keyLength, 8 + keyLength + valueLength);
    assert memory.data[offset + 8 + keyLength + valueLength..] == buffer[8 + keyLength + valueLength..];
  }

  lemma {:induction false} NoWraps(n: nat, attributes: Attributes, memory: Memory, offset: Uint32)
    requires |memory.data| < UINT32 && offset <= |memory.data|
    requires Filled(n, attributes, memory.data[offset..], DecodeAttribute()).Ok?
    ensures AttributesAt(n, attributes, memory, offset) ==
            Ok(Filled(n, attributes, memory.data[offset..], DecodeAttribute()).value.0)
  {
    hide TakeAttribute, AttributeAt;
    if n > 0 {
      assert DecodeAttribute()(memory.data[offset..]) == TakeAttribute(memory.data[offset..]);
      NoWrap(memory, offset);
      var (key, value, rest) := TakeAttribute(memory.data[offset..]).value;
      NoWraps(n - 1, attributes[key := value], memory, |memory.data| - |rest|);
    }
  }

  ghost predicate Fits(attributes: Attributes) {
    && |attributes| < UINT32
    && forall key :: key in attributes ==> |key| < UINT32 && |attributes[key]| < UINT32
  }

  lemma EntriesRoundTrip(attributes: Attributes, order: seq<Bytestring>, present: Attributes)
    requires Fits(attributes) && Enumerates(order, attributes.Keys)
    ensures Entries(order, EncodeAttribute(attributes)).Ok?
    ensures Filled(|attributes|, present, Entries(order, EncodeAttribute(attributes)).value, DecodeAttribute()) ==
            Ok((present + attributes, []))
  {
    hide Entries, Filled, EncodeAttribute, DecodeAttribute, Inverts, Enumerates;
    forall key | key in attributes
      ensures Inverts(EncodeAttribute(attributes), DecodeAttribute(), key, attributes[key])
    {
      AttributeInverts(attributes, key);
    }
    MapRoundTrip(order, attributes, present, [], EncodeAttribute(attributes), DecodeAttribute());
    var entries := Entries(order, EncodeAttribute(attributes)).value;
    assert entries + [] == entries;
  }

  lemma CountAt(n: nat, body: Bytestring, spare: Bytestring)
    requires n < UINT32
    ensures var memory := Memory(BigEndian(n, 4) + body, spare);
            Uint32At(memory, 0) == Ok(n) && memory.data[4..] == body
  {
    Limits();
    var data := BigEndian(n, 4) + body;
    assert data[0..4] == BigEndian(n, 4) && data[4..] == body;
    BigEndianRoundTrip(n, 4);
  }

  lemma Parts(attributes: Attributes, order: seq<Bytestring>)
    requires |attributes| < UINT32 && Entries(order, EncodeAttribute(attributes)).Ok?
    ensures Encode(attributes, order) ==
            Ok(BigEndian(|attributes|, 4) + Entries(order, EncodeAttribute(attributes)).value)
  {
    hide Entries, EncodeAttribute, BigEndian;
  }

  lemma {:induction false} EntriesEncoded(attributes: Attributes, order: seq<Bytestring>)
    requires forall i :: 0 <= i < |order| ==> order[i] in attributes
    ensures Entries(order, EncodeAttribute(attributes)).Ok?
    ensures |order| <= |Entries(order, EncodeAttribute(attributes)).value|
    ensures forall i :: 0 <= i < |order| ==>
              |order[i]| + |attributes[order[i]]| <= |Entries(order, EncodeAttribute(attributes)).value|
  {
    if order != [] {
      EntriesEncoded(attributes, order[..|order| - 1]);
    }
  }

  /** Data of less than four gigabytes leaves room for no longer text and for no more attributes. */
  lemma ShortDataFits(attributes: Attributes, order: seq<Bytestring>)
    requires Enumerates(order, attributes.Keys)
    ensures Encode(attributes, order).Ok?
    ensures |Encode(attributes, order).value| < UINT32 ==> Fits(attributes)
  {
    hide EncodeAttribute, Entries, BigEndian;
    assert forall i :: 0 <= i < |order| ==> order[i] in attributes.Keys by {
      assert forall i :: 0 <= i < |order| ==> order[i] in order;
    }
    EntriesEncoded(attributes, order);
    EnumerationSize(order, attributes.Keys);
    assert |attributes| == |attributes.Keys|;
    if |Encode(attributes, order).value| < UINT32 {
      forall key | key in attributes ensures |key| < UINT32 && |attributes[key]| < UINT32 {
        var i :| 0 <= i < |order| && order[i] == key;
      }
    }
  }

  /** Whatever the iteration order and whatever follows the data in memory, a stored sink context of less than four
      gigabytes gives back the attributes that were stored. */
  lemma SinkContextRoundTrip(attributes: Attributes, order: seq<Bytestring>, present: Attributes, spare: Bytestring)
    requires Enumerates(order, attributes.Keys)
    ensures Encode(attributes, order).Ok?
    ensures |Encode(attributes, order).value| < UINT32 ==>
              Decode(present, Memory(Encode(attributes, order).value, spare)) == Ok(present + attributes)
  {
    ShortDataFits(attributes, order);
    hide Entries, EncodeAttribute, DecodeAttribute, BigEndian, Enumerates, Filled, Encode, Uint32At, AttributesAt, Fits;
    if |Encode(attributes, order).value| < UINT32 {
      EntriesRoundTrip(attributes, order, present);
      assert |attributes| < UINT32 by { FitsCount(attributes); }
      Parts(attributes, order);
      var body := Entries(order, EncodeAttribute(attributes)).value;
      CountAt(|attributes|, body, spare);
      NoWraps(|attributes|, present, Memory(BigEndian(|attributes|, 4) + body, spare), 4);
    }
  }

  lemma FitsCount(attributes: Attributes)
    requires Fits(attributes)
    ensures |attributes| < UINT32
  {
  }

  /** One attribute: a count, the lengths of key and value, the key and the value. */
  lemma OneAttribute(key: Bytestring, value: Bytestring)
    requires |key| < UINT32 && |value| < UINT32
    ensures Encode(map[key := value], [key]) ==
            Ok(BigEndian(1, 4) + (BigEndian(|key|, 4) + BigEndian(|value|, 4) + key + value))
  {
    hide BigEndian, Entries;
    var attributes := map[key := value];
    var entry := BigEndian(|key|, 4) + BigEndian(|value|, 4) + key + value;
    assert |attributes| == 1;
    assert EncodeAttribute(attributes)(key) == Ok(entry) by { Encoded(key, value); }
    OneEntry(key, EncodeAttribute(attributes));
    hide EncodeAttribute;
  }

  lemma Encoded(key: Bytestring, value: Bytestring)
    requires |key| < UINT32 && |value| < UINT32
    ensures EncodeAttribute(map[key := value])(key) ==
            Ok(BigEndian(|key|, 4) + BigEndian(|value|, 4) + key + value)
  {
    hide BigEndian;
    assert |key| % UINT32 == |key| && |value| % UINT32 == |value|;
  }
}
