/** The state file: offsets by slot name and encoded states by name, each entry with its lengths in front.
    A slice that reaches past the end of the file is a run-time fault. */
module FileStateStorages {
  import opened Wrappers
  import opened Bytes
  import opened Buffers
  import opened MapCodec
  import Offsets

  datatype Storage = Storage(offsets: map<Bytestring, Offsets.Offset>, states: map<Bytestring, Bytestring>)

  /** The iteration orders of the two maps. */
  datatype Orders = Orders(offsets: seq<Bytestring>, states: seq<Bytestring>)

  ghost predicate OrdersOf(s: Storage, o: Orders) {
    Enumerates(o.offsets, s.offsets.Keys) && Enumerates(o.states, s.states.Keys)
  }

  // ---------------------------------------------------------------------------------------------
  // The bytes of the file
  // ---------------------------------------------------------------------------------------------

  function EncodeOffset(offsets: map<Bytestring, Offsets.Offset>): Bytestring -> Result<Bytestring> {
    key => if key in offsets then Ok(Sized(key) + Sized(Offsets.Encode(offsets[key]))) else Err
  }

  function EncodeState(states: map<Bytestring, Bytestring>): Bytestring -> Result<Bytestring> {
    name => if name in states then Ok(Sized(name) + Sized(states[name])) else Err
  }

  function EncodeOffsets(offsets: map<Bytestring, Offsets.Offset>, order: seq<Bytestring>): Result<Bytestring> {
    Then(Ok(BigEndian(|offsets| % UINT32, 4)), Entries(order, EncodeOffset(offsets)))
  }

  function EncodeStates(states: map<Bytestring, Bytestring>, order: seq<Bytestring>): Result<Bytestring> {
    Then(Ok(BigEndian(|states| % UINT32, 4)), Entries(order, EncodeState(states)))
  }

  function Saved(s: Storage, o: Orders): Result<Bytestring> {
    Then(EncodeOffsets(s.offsets, o.offsets), EncodeStates(s.states, o.states))
  }

  function Slice(buffer: Bytestring, n: nat): Result<(Bytestring, Bytestring)> {
    if n <= |buffer| then Ok((buffer[..n], buffer[n..])) else Panic
  }

  function SliceUint32(buffer: Bytestring): (r: Result<(nat, Bytestring)>)
    ensures r.Ok? ==> r.value.0 < UINT32
  {
    Limits();
    var (d, rest) :- Slice(buffer, 4);
    Ok((Value(d), rest))
  }

  function SliceSized(buffer: Bytestring): (r: Result<(Bytestring, Bytestring)>)
    ensures r.Ok? ==> |r.value.0| < UINT32
  {
    var (length, rest) :- SliceUint32(buffer);
    Slice(rest, length)
  }

  function TakeOffset(buffer: Bytestring): Result<(Bytestring, Offsets.Offset, Bytestring)> {
    var (key, afterKey) :- SliceSized(buffer);
    var (data, rest) :- SliceSized(afterKey);
    var offset :- Offsets.Decode(data);
    Ok((key, offset, rest))
  }

  function DecodeOffset(): Bytestring -> Result<(Bytestring, Offsets.Offset, Bytestring)> {
    buffer => TakeOffset(buffer)
  }

  function TakeState(buffer: Bytestring): Result<(Bytestring, Bytestring, Bytestring)> {
    var (name, afterName) :- SliceSized(buffer);
    var (data, rest) :- SliceSized(afterName);
    Ok((name, data, rest))
  }

  function DecodeState(): Bytestring -> Result<(Bytestring, Bytestring, Bytestring)> {
    buffer => TakeState(buffer)
  }

  function TakeOffsets(present: map<Bytestring, Offsets.Offset>, buffer: Bytestring):
    Result<(map<Bytestring, Offsets.Offset>, Bytestring)>
  {
    var (n, rest) :- SliceUint32(buffer);
    Filled(n, present, rest, DecodeOffset())
  }

  function TakeStates(present: map<Bytestring, Bytestring>, buffer: Bytestring):
    Result<(map<Bytestring, Bytestring>, Bytestring)>
  {
    var (n, rest) :- SliceUint32(buffer);
    Filled(n, present, rest, DecodeState())
  }

  /** A missing or empty file resets the offsets and leaves the states; otherwise what the file holds is added to
      what the storage has. */
  function Loaded(present: Storage, file: Option<Bytestring>): Result<Storage> {
    if file.None? || file.value == [] then Ok(present.(offsets := map[]))
    else
      var (offsets, rest) :- TakeOffsets(present.offsets, file.value);
      var (states, _) :- TakeStates(present.states, rest);
      Ok(Storage(offsets, states))
  }

  // ---------------------------------------------------------------------------------------------
  // The round trip
  // ---------------------------------------------------------------------------------------------

  ghost predicate KeepableOffsets(offsets: map<Bytestring, Offsets.Offset>) {
    && |offsets| < UINT32
    && forall key :: key in offsets ==> |key| < UINT32 && Offsets.Storable(offsets[key])
  }

  ghost predicate KeepableStates(states: map<Bytestring, Bytestring>) {
    && |states| < UINT32
    && forall name :: name in states ==> |name| < UINT32 && |states[name]| < UINT32
  }

  ghost predicate Keepable(s: Storage) {
    KeepableOffsets(s.offsets) && KeepableStates(s.states)
  }

  /** No single offset takes four gigabytes or more. */
  ghost predicate OffsetsFit(offsets: map<Bytestring, Offsets.Offset>) {
    forall key :: key in offsets ==> |Offsets.Encode(offsets[key])| < UINT32
  }

  lemma SliceUint32RoundTrip(n: nat, rest: Bytestring)
    requires n < UINT32
    ensures SliceUint32(BigEndian(n, 4) + rest) == Ok((n, rest))
  {
    Limits();
    var buffer := BigEndian(n, 4) + rest;
    assert buffer[..4] == BigEndian(n, 4) && buffer[4..] == rest;
    BigEndianRoundTrip(n, 4);
  }

  lemma SliceSizedRoundTrip(s: Bytestring, rest: Bytestring)
    requires |s| < UINT32
    ensures SliceSized(Sized(s) + rest) == Ok((s, rest))
  {
    hide SliceUint32, BigEndian;
    Regroup(BigEndian(|s|, 4), s, rest);
    SliceUint32RoundTrip(|s|, s + rest);
    assert (s + rest)[..|s|] == s && (s + rest)[|s|..] == rest;
  }

  lemma OffsetInverts(offsets: map<Bytestring, Offsets.Offset>, key: Bytestring)
    requires key in offsets && |key| < UINT32 && Offsets.Storable(offsets[key])
    requires |Offsets.Encode(offsets[key])| < UINT32
    ensures Inverts(EncodeOffset(offsets), DecodeOffset(), key, offsets[key])
  {
    hide Sized, SliceSized, Offsets.Encode, Offsets.Decode;
    var data := Offsets.Encode(offsets[key]);
    Offsets.OffsetRoundTrip(offsets[key]);
    forall rest: Bytestring ensures DecodeOffset()(Sized(key) + Sized(data) + rest) == Ok((key, offsets[key], rest)) {
      Regroup(Sized(key), Sized(data), rest);
      SliceSizedRoundTrip(key, Sized(data) + rest);
      SliceSizedRoundTrip(data, rest);
    }
  }

  lemma StateInverts(states: map<Bytestring, Bytestring>, name: Bytestring)
    requires name in states && |name| < UINT32 && |states[name]| < UINT32
    ensures Inverts(EncodeState(states), DecodeState(), name, states[name])
  {
    hide Sized, SliceSized;
    var data := states[name];
    forall rest: Bytestring ensures DecodeState()(Sized(name) + Sized(data) + rest) == Ok((name, data, rest)) {
      Regroup(Sized(name), Sized(data), rest);
      SliceSizedRoundTrip(name, Sized(data) + rest);
      SliceSizedRoundTrip(data, rest);
    }
  }

  lemma OffsetEntries(offsets: map<Bytestring, Offsets.Offset>, order: seq<Bytestring>,
                      present: map<Bytestring, Offsets.Offset>, rest: Bytestring)
    requires KeepableOffsets(offsets) && OffsetsFit(offsets) && Enumerates(order, offsets.Keys)
    ensures Entries(order, EncodeOffset(offsets)).Ok?
    ensures Filled(|offsets|, present, Entries(order, EncodeOffset(offsets)).value + rest, DecodeOffset()) ==
            Ok((present + offsets, rest))
  {
    hide Entries, Filled, EncodeOffset, DecodeOffset, Inverts, Offsets.Encode, Offsets.Storable, Enumerates;
    forall key | key in offsets ensures Inverts(EncodeOffset(offsets), DecodeOffset(), key, offsets[key]) {
      OffsetInverts(offsets, key);
    }
    MapRoundTrip(order, offsets, present, rest, EncodeOffset(offsets), DecodeOffset());
  }

  lemma OffsetsParts(offsets: map<Bytestring, Offsets.Offset>, order: seq<Bytestring>)
    requires |offsets| < UINT32 && Entries(order, EncodeOffset(offsets)).Ok?
    ensures EncodeOffsets(offsets, order) == Ok(BigEndian(|offsets|, 4) + Entries(order, EncodeOffset(offsets)).value)
  {
    hide Entries, EncodeOffset, BigEndian;
  }

  lemma OffsetsFrame(n: nat, present: map<Bytestring, Offsets.Offset>, body: Bytestring)
    requires n < UINT32
    ensures TakeOffsets(present, BigEndian(n, 4) + body) == Filled(n, present, body, DecodeOffset())
  {
    hide SliceUint32, Filled, DecodeOffset, BigEndian;
    SliceUint32RoundTrip(n, body);
  }

  lemma OffsetsRoundTrip(offsets: map<Bytestring, Offsets.Offset>, order: seq<Bytestring>,
                         present: map<Bytestring, Offsets.Offset>, rest: Bytestring)
    requires KeepableOffsets(offsets) && OffsetsFit(offsets) && Enumerates(order, offsets.Keys)
    ensures EncodeOffsets(offsets, order).Ok?
    ensures TakeOffsets(present, EncodeOffsets(offsets, order).value + rest) == Ok((present + offsets, rest))
  {
    hide Entries, Filled, EncodeOffset, DecodeOffset, OffsetsFit, BigEndian, Enumerates, TakeOffsets, EncodeOffsets,
      Offsets.Storable;
    OffsetEntries(offsets, order, present, rest);
    OffsetsParts(offsets, order);
    var entries := Entries(order, EncodeOffset(offsets)).value;
    Regroup(BigEndian(|offsets|, 4), entries, rest);
    OffsetsFrame(|offsets|, present, entries + rest);
  }

  lemma StateEntries(states: map<Bytestring, Bytestring>, order: seq<Bytestring>, present: map<Bytestring, Bytestring>)
    requires KeepableStates(states) && Enumerates(order, states.Keys)
    ensures Entries(order, EncodeState(states)).Ok?
    ensures Filled(|states|, present, Entries(order, EncodeState(states)).value, DecodeState()) ==
              Ok((present + states, []))
  {
    hide Entries, Filled, EncodeState, DecodeState, Inverts, Enumerates;
    forall name | name in states ensures Inverts(EncodeState(states), DecodeState(), name, states[name]) {
      StateInverts(states, name);
    }
    MapRoundTrip(order, states, present, [], EncodeState(states), DecodeState());
    var entries := Entries(order, EncodeState(states)).value;
    assert entries + [] == entries;
  }

  lemma StatesParts(states: map<Bytestring, Bytestring>, order: seq<Bytestring>)
    requires |states| < UINT32 && Entries(order, EncodeState(states)).Ok?
    ensures EncodeStates(states, order) == Ok(BigEndian(|states|, 4) + Entries(order, EncodeState(states)).value)
  {
    hide Entries, EncodeState, BigEndian;
  }

  lemma StatesFrame(n: nat, present: map<Bytestring, Bytestring>, body: Bytestring)
    requires n < UINT32
    ensures TakeStates(present, BigEndian(n, 4) + body) == Filled(n, present, body, DecodeState())
  {
    hide SliceUint32, Filled, DecodeState, BigEndian;
    SliceUint32RoundTrip(n, body);
  }

  lemma StatesRoundTrip(states: map<Bytestring, Bytestring>, order: seq<Bytestring>,
                        present: map<Bytestring, Bytestring>)
    requires KeepableStates(states) && Enumerates(order, states.Keys)
    ensures EncodeStates(states, order).Ok?
    ensures TakeStates(present, EncodeStates(states, order).value) == Ok((present + states, []))
  {
    hide Entries, Filled, EncodeState, DecodeState, BigEndian, Enumerates, TakeStates, EncodeStates;
    StateEntries(states, order, present);
    StatesParts(states, order);
    StatesFrame(|states|, present, Entries(order, EncodeState(states)).value);
  }

  /** Whatever the iteration orders, loading a saved file adds exactly the saved offsets and states. */
  lemma SaveLoad(s: Storage, o: Orders, present: Storage)
    requires Keepable(s) && OffsetsFit(s.offsets) && OrdersOf(s, o)
    ensures Saved(s, o).Ok?
    ensures Loaded(present, Some(Saved(s, o).value)) ==
            Ok(Storage(present.offsets + s.offsets, present.states + s.states))
  {
    OffsetsAreNotEmpty(s.offsets, o.offsets);
    hide EncodeOffsets, EncodeStates, TakeOffsets, TakeStates, KeepableOffsets, KeepableStates, OffsetsFit, Enumerates;
    StatesRoundTrip(s.states, o.states, present.states);
    OffsetsRoundTrip(s.offsets, o.offsets, present.offsets, EncodeStates(s.states, o.states).value);
  }

  lemma OffsetsAreNotEmpty(offsets: map<Bytestring, Offsets.Offset>, order: seq<Bytestring>)
    ensures EncodeOffsets(offsets, order).Ok? ==> |EncodeOffsets(offsets, order).value| >= 4
  {
    hide Entries;
  }

  // ---------------------------------------------------------------------------------------------
  // What can come out of a file
  // ---------------------------------------------------------------------------------------------

  lemma OffsetsAreKeepable(buffer: Bytestring)
    requires TakeOffsets(map[], buffer).Ok?
    ensures KeepableOffsets(TakeOffsets(map[], buffer).value.0)
  {
    hide SliceUint32, SliceSized, Offsets.Decode, Offsets.Storable;
    var good := (key: Bytestring, o: Offsets.Offset) => |key| < UINT32 && Offsets.Storable(o);
    forall b: Bytestring | DecodeOffset()(b).Ok? ensures good(DecodeOffset()(b).value.0, DecodeOffset()(b).value.1) {
      Offsets.DecodedIsStorable(SliceSized(SliceSized(b).value.1).value.0);
    }
    var (n, rest) := SliceUint32(buffer).value;
    FilledAll(n, map[], rest, DecodeOffset(), good);
  }

  lemma StatesAreKeepable(buffer: Bytestring)
    requires TakeStates(map[], buffer).Ok?
    ensures KeepableStates(TakeStates(map[], buffer).value.0)
  {
    hide SliceUint32, SliceSized;
    var good := (name: Bytestring, data: Bytestring) => |name| < UINT32 && |data| < UINT32;
    assert forall b: Bytestring :: DecodeState()(b).Ok? ==> good(DecodeState()(b).value.0, DecodeState()(b).value.1);
    var (n, rest) := SliceUint32(buffer).value;
    FilledAll(n, map[], rest, DecodeState(), good);
  }

  lemma LoadedIsKeepable(file: Bytestring)
    requires file != [] && Loaded(Storage(map[], map[]), Some(file)).Ok?
    ensures Keepable(Loaded(Storage(map[], map[]), Some(file)).value)
  {
    hide TakeOffsets, TakeStates, KeepableOffsets, KeepableStates;
    OffsetsAreKeepable(file);
    StatesAreKeepable(TakeOffsets(map[], file).value.1);
  }

  /** A storage comes back from its file, in a fresh storage, if and only if every name, every state and both counts
      fit into 32 bits and every offset survives its own format. */
  lemma SaveLoadExactly(s: Storage, o: Orders)
    requires OffsetsFit(s.offsets) && OrdersOf(s, o)
    ensures Saved(s, o).Ok? && Loaded(Storage(map[], map[]), Some(Saved(s, o).value)) == Ok(s) <==> Keepable(s)
  {
    OffsetsAreNotEmpty(s.offsets, o.offsets);
    hide EncodeOffsets, EncodeStates, Loaded, Keepable, OffsetsFit, OrdersOf;
    if Keepable(s) {
      SaveLoad(s, o, Storage(map[], map[]));
      assert map[] + s.offsets == s.offsets && map[] + s.states == s.states;
    } else if Saved(s, o).Ok? && Loaded(Storage(map[], map[]), Some(Saved(s, o).value)) == Ok(s) {
      LoadedIsKeepable(Saved(s, o).value);
    }
  }

  const EMPTY_OFFSET := Offsets.Offset(0, false, false, None, 0, [], 0)

  /** The storage after an acknowledgement: the offset of the slot, or a new one, with a new position and time. */
  function Acknowledged(s: Storage, slot: Bytestring, lsn: Uint64, timestamp: Int64): Storage {
    var offset := if slot in s.offsets then s.offsets[slot] else EMPTY_OFFSET;
    s.(offsets := s.offsets[slot := offset.(lsn := lsn, timestamp := timestamp)])
  }

  lemma AcknowledgedKeeps(s: Storage, slot: Bytestring, lsn: Uint64, timestamp: Int64)
    requires Keepable(s) && OffsetsFit(s.offsets) && |slot| < UINT32 && |s.offsets| + 1 < UINT32
    ensures Keepable(Acknowledged(s, slot, lsn, timestamp)) && OffsetsFit(Acknowledged(s, slot, lsn, timestamp).offsets)
  {
    hide Offsets.Encode, KeepableStates, KeepableOffsets, OffsetsFit;
    var offset := if slot in s.offsets then s.offsets[slot] else EMPTY_OFFSET;
    assert |Offsets.Encode(offset)| < UINT32 && Offsets.Storable(offset) by { OffsetOf(s.offsets, slot); }
    SameSize(offset, lsn, timestamp);
    OneOffset(s.offsets, slot, offset.(lsn := lsn, timestamp := timestamp));
  }

  lemma OffsetOf(offsets: map<Bytestring, Offsets.Offset>, slot: Bytestring)
    requires KeepableOffsets(offsets) && OffsetsFit(offsets)
    ensures var offset := if slot in offsets then offsets[slot] else EMPTY_OFFSET;
            |Offsets.Encode(offset)| < UINT32 && Offsets.Storable(offset)
  {
    hide Offsets.Encode;
    SameSize(EMPTY_OFFSET, 0, 0);
  }

  lemma OneOffset(offsets: map<Bytestring, Offsets.Offset>, slot: Bytestring, offset: Offsets.Offset)
    requires KeepableOffsets(offsets) && OffsetsFit(offsets) && |slot| < UINT32 && |offsets| + 1 < UINT32
    requires Offsets.Storable(offset) && |Offsets.Encode(offset)| < UINT32
    ensures KeepableOffsets(offsets[slot := offset]) && OffsetsFit(offsets[slot := offset])
  {
    hide Offsets.Encode, Offsets.Storable;
    assert offsets[slot := offset].Keys == offsets.Keys + {slot};
  }

  /** Position and time have a fixed size. */
  lemma SameSize(offset: Offsets.Offset, lsn: Uint64, timestamp: Int64)
    ensures |Offsets.Encode(offset.(lsn := lsn, timestamp := timestamp))| == |Offsets.Encode(offset)|
    ensures |Offsets.Encode(EMPTY_OFFSET)| == 23
  {
    hide Offsets.Encode;
    Offsets.SizeIsRight(offset);
    Offsets.SizeIsRight(offset.(lsn := lsn, timestamp := timestamp));
    Offsets.SizeIsRight(EMPTY_OFFSET);
  }

  /** An acknowledged position survives saving and loading, together with everything else in the storage. */
  lemma AcknowledgedSurvives(s: Storage, slot: Bytestring, lsn: Uint64, timestamp: Int64, o: Orders)
    requires Keepable(s) && OffsetsFit(s.offsets) && |slot| < UINT32 && |s.offsets| + 1 < UINT32
    requires OrdersOf(Acknowledged(s, slot, lsn, timestamp), o)
    ensures var s' := Acknowledged(s, slot, lsn, timestamp);
            && Saved(s', o).Ok? && Loaded(Storage(map[], map[]), Some(Saved(s', o).value)) == Ok(s')
            && s'.offsets[slot].lsn == lsn
  {
    hide Saved, Loaded, Keepable, OffsetsFit, OrdersOf;
    AcknowledgedKeeps(s, slot, lsn, timestamp);
    SaveLoadExactly(Acknowledged(s, slot, lsn, timestamp), o);
  }

  // ---------------------------------------------------------------------------------------------
  // The storage as an object
  // ---------------------------------------------------------------------------------------------

  class FileStateStorage {
    var offsets: map<Bytestring, Offsets.Offset>
    var encodedStates: map<Bytestring, Bytestring>

    function Contents(): Storage
      reads this
    {
      Storage(offsets, encodedStates)
    }

    constructor ()
      ensures Contents() == Storage(map[], map[])
    {
      offsets := map[];
      encodedStates := map[];
    }

    /** The bytes that go to the file; the orders are whatever the iterations pick. */
    method Save() returns (data: Bytestring, ghost o: Orders)
      ensures OrdersOf(Contents(), o) && Saved(Contents(), o) == Ok(data)
      ensures OffsetsFit(offsets) ==>
                (Loaded(Storage(map[], map[]), Some(data)) == Ok(Contents()) <==> Keepable(Contents()))
    {
      hide Entries, EncodeOffset, EncodeState, BigEndian, Enumerates;
      data := BigEndian(|offsets| % UINT32, 4);
      ghost var order;
      data, order := AppendOffsets(data);
      ghost var first := data;
      data := data + BigEndian(|encodedStates| % UINT32, 4);
      ghost var order';
      data, order' := AppendStates(data);
      Regroup(first, BigEndian(|encodedStates| % UINT32, 4), Entries(order', EncodeState(encodedStates)).value);
      o := Orders(order, order');
      if OffsetsFit(offsets) {
        SaveLoadExactly(Contents(), o);
      }
    }

    method AppendOffsets(start: Bytestring) returns (data: Bytestring, ghost order: seq<Bytestring>)
      ensures Enumerates(order, offsets.Keys)
      ensures Wrote(Entries(order, EncodeOffset(offsets)), Ok(()), start, data)
    {
      hide Entries, Enumerates, Underway, Sized, Offsets.Encode;
      data := start;
      order := [];
      var todo := offsets.Keys;
      Begin(todo, EncodeOffset(offsets), start);
      while todo != {}
        invariant todo <= offsets.Keys && Underway(order, offsets.Keys, todo, EncodeOffset(offsets), start, data)
        decreases |todo|
      {
        var key :| key in todo;
        var valueBytes := Offsets.MarshalBinary(offsets[key]);
        ghost var before := data;
        data := data + Sized(key);
        data := data + Sized(valueBytes[..]);
        Regroup(before, Sized(key), Sized(valueBytes[..]));
        Advance(order, offsets.Keys, todo, EncodeOffset(offsets), start, before, data, key);
        order := order + [key];
        todo := todo - {key};
      }
      Finish(order, offsets.Keys, EncodeOffset(offsets), start, data);
    }

    method AppendStates(start: Bytestring) returns (data: Bytestring, ghost order: seq<Bytestring>)
      ensures Enumerates(order, encodedStates.Keys)
      ensures Wrote(Entries(order, EncodeState(encodedStates)), Ok(()), start, data)
    {
      hide Entries, Enumerates, Underway, Sized;
      data := start;
      order := [];
      var todo := encodedStates.Keys;
      Begin(todo, EncodeState(encodedStates), start);
      while todo != {}
        invariant todo <= encodedStates.Keys
        invariant Underway(order, encodedStates.Keys, todo, EncodeState(encodedStates), start, data)
        decreases |todo|
      {
        var name :| name in todo;
        ghost var before := data;
        data := data + Sized(name);
        data := data + Sized(encodedStates[name]);
        Regroup(before, Sized(name), Sized(encodedStates[name]));
        Advance(order, encodedStates.Keys, todo, EncodeState(encodedStates), start, before, data, name);
        order := order + [name];
        todo := todo - {name};
      }
      Finish(order, encodedStates.Keys, EncodeState(encodedStates), start, data);
    }

    /** Loads what the file holds; after a fault the process is gone. */
    method Load(file: Option<Bytestring>) returns (r: Result<()>)
      modifies this
      ensures match Loaded(old(Contents()), file)
              case Ok(s) => r.Ok? && Contents() == s
              case Err => r == Err
              case Panic => r == Panic
    {
      hide Filled;
      if file.None? || file.value == [] {
        offsets := map[];
        return Ok(());
      }
      var rest :- LoadOffsets(file.value);
      rest :- LoadStates(rest);
      r := Ok(());
    }

    method LoadOffsets(buffer: Bytestring) returns (r: Result<Bytestring>)
      modifies this
      ensures encodedStates == old(encodedStates)
      ensures match TakeOffsets(old(offsets), buffer)
              case Ok((filled, rest)) => r == Ok(rest) && offsets == filled
              case Err => r == Err
              case Panic => r == Panic
    {
      hide SliceUint32, SliceSized, Offsets.Decode;
      var count :- SliceUint32(buffer);
      var (n, unread) := count;
      var i := 0;
      while i < n
        invariant 0 <= i <= n && encodedStates == old(encodedStates)
        invariant Filled(n, old(offsets), count.1, DecodeOffset()) == Filled(n - i, offsets, unread, DecodeOffset())
      {
        assert DecodeOffset()(unread) == TakeOffset(unread);
        var key :- SliceSized(unread);
        var data :- SliceSized(key.1);
        var value :- Offsets.UnmarshalBinary(data.0);
        offsets := offsets[key.0 := value];
        unread := data.1;
        i := i + 1;
      }
      r := Ok(unread);
    }

    method LoadStates(buffer: Bytestring) returns (r: Result<Bytestring>)
      modifies this
      ensures offsets == old(offsets)
      ensures match TakeStates(old(encodedStates), buffer)
              case Ok((filled, rest)) => r == Ok(rest) && encodedStates == filled
              case Err => r == Err
              case Panic => r == Panic
    {
      hide SliceUint32, SliceSized;
      var count :- SliceUint32(buffer);
      var (n, unread) := count;
      var i := 0;
      while i < n
        invariant 0 <= i <= n && offsets == old(offsets)
        invariant Filled(n, old(encodedStates), count.1, DecodeState()) ==
                  Filled(n - i, encodedStates, unread, DecodeState())
      {
        assert DecodeState()(unread) == TakeState(unread);
        var name :- SliceSized(unread);
        var data :- SliceSized(name.1);
        encodedStates := encodedStates[name.0 := data.0];
        unread := data.1;
        i := i + 1;
      }
      r := Ok(unread);
    }
  }

  /** One offset and one state: a count, the lengths in front of slot name and offset, a count, and the lengths in
      front of name and state. */
  lemma OneOfEach(slot: Bytestring, offset: Offsets.Offset, name: Bytestring, state: Bytestring)
    ensures Saved(Storage(map[slot := offset], map[name := state]), Orders([slot], [name])) ==
            Ok(BigEndian(1, 4) + (Sized(slot) + Sized(Offsets.Encode(offset)))
               + (BigEndian(1, 4) + (Sized(name) + Sized(state))))
  {
    hide BigEndian, Sized, Entries, Offsets.Encode;
    assert |map[slot := offset]| == 1 == |map[name := state]|;
    OneEntry(slot, EncodeOffset(map[slot := offset]));
    OneEntry(name, EncodeState(map[name := state]));
  }
}
