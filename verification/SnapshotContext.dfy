/** The snapshot context as an object, writing to and reading from the buffers. */
module SnapshotContexts {
  import opened Wrappers
  import opened Bytes
  import opened Buffers
  import opened Marshallers
  import opened MapCodec
  import opened Watermarks

  // ---------------------------------------------------------------------------------------------
  // Writing, in the order in which the iteration happens to pick the keys
  // ---------------------------------------------------------------------------------------------

  method PutTypes(buffer: WriteBuffer, types: map<Bytestring, Uint32>) returns (ghost order: seq<Bytestring>)
    modifies buffer
    ensures Enumerates(order, types.Keys)
    ensures Wrote(Entries(order, EncodeType(types)), Ok(()), old(buffer.bytes), buffer.bytes)
  {
    hide Sized, Underway, Enumerates, Entries;
    order := [];
    var todo := types.Keys;
    Begin(todo, EncodeType(types), buffer.bytes);
    while todo != {}
      invariant todo <= types.Keys
      invariant Underway(order, types.Keys, todo, EncodeType(types), old(buffer.bytes), buffer.bytes)
      decreases |todo|
    {
      var column :| column in todo;
      ghost var before := buffer.bytes;
      buffer.PutBytes(column);
      buffer.PutUint32(types[column]);
      Regroup(before, Sized(column), BigEndian(types[column], 4));
      Advance(order, types.Keys, todo, EncodeType(types), old(buffer.bytes), before, buffer.bytes, column);
      order := order + [column];
      todo := todo - {column};
    }
    Finish(order, types.Keys, EncodeType(types), old(buffer.bytes), buffer.bytes);
  }

  /** One column: name and value. */
  method PutColumn(buffer: WriteBuffer, types: map<Bytestring, Uint32>, values: map<Bytestring, Value>,
                   column: Bytestring)
    returns (r: Result<()>)
    requires column in values
    modifies buffer
    ensures Wrote(EncodeColumn(types, values)(column), r, old(buffer.bytes), buffer.bytes)
  {
    hide Sized, Marshal;
    ghost var before := buffer.bytes;
    buffer.PutBytes(column);
    if column !in types {
      return Err;
    }
    r := BinaryMarshall(buffer, types[column], values[column]);
    assert r.Ok? ==> buffer.bytes == before + (Sized(column) + Marshal(types[column], values[column]).value);
  }

  method PutColumns(buffer: WriteBuffer, types: map<Bytestring, Uint32>, values: map<Bytestring, Value>)
    returns (r: Result<()>, ghost order: seq<Bytestring>)
    modifies buffer
    ensures Enumerates(order, values.Keys)
    ensures Wrote(Entries(order, EncodeColumn(types, values)), r, old(buffer.bytes), buffer.bytes)
  {
    hide EncodeColumn, Underway, Enumerates, Entries;
    order := [];
    ghost var encode := EncodeColumn(types, values);
    var todo := values.Keys;
    Begin(todo, encode, buffer.bytes);
    while todo != {}
      invariant todo <= values.Keys
      invariant Underway(order, values.Keys, todo, encode, old(buffer.bytes), buffer.bytes)
      decreases |todo|
    {
      var column :| column in todo;
      ghost var before := buffer.bytes;
      r := PutColumn(buffer, types, values, column);
      if r.IsFailure() {
        order := Abandon(order, values.Keys, todo, encode, old(buffer.bytes), before, column);
        return;
      }
      Advance(order, values.Keys, todo, encode, old(buffer.bytes), before, buffer.bytes, column);
      order := order + [column];
      todo := todo - {column};
    }
    Finish(order, values.Keys, encode, old(buffer.bytes), buffer.bytes);
    r := Ok(());
  }

  method PutHead(buffer: WriteBuffer, w: Watermark) returns (ghost types: seq<Bytestring>)
    modifies buffer
    ensures Enumerates(types, w.dataTypes.Keys)
    ensures Wrote(EncodeHead(w, types), Ok(()), old(buffer.bytes), buffer.bytes)
  {
    hide Enumerates, Entries, EncodeType, Bool, BigEndian;
    ghost var start := buffer.bytes;
    buffer.PutBool(w.complete);
    buffer.PutUint32(|w.dataTypes| % UINT32);
    ghost var count := BigEndian(|w.dataTypes| % UINT32, 4);
    Regroup(start, Bool(w.complete), count);
    ghost var middle := buffer.bytes;
    types := PutTypes(buffer, w.dataTypes);
    WroteThen(Ok(Bool(w.complete) + count), Entries(types, EncodeType(w.dataTypes)), Ok(()), start, middle,
              buffer.bytes);
  }

  method PutLow(buffer: WriteBuffer, w: Watermark) returns (r: Result<()>, ghost low: seq<Bytestring>)
    modifies buffer
    ensures Enumerates(low, w.low.Keys)
    ensures Wrote(EncodeLow(w, low), r, old(buffer.bytes), buffer.bytes)
  {
    hide Enumerates, Entries, EncodeColumn, Bool;
    ghost var start := buffer.bytes;
    buffer.PutBool(w.low != map[]);
    low := SomeOrder(w.low.Keys);
    r := Ok(());
    if w.low != map[] {
      ghost var middle := buffer.bytes;
      r, low := PutColumns(buffer, w.dataTypes, w.low);
      WroteThen(Ok(Bool(true)), Entries(low, EncodeColumn(w.dataTypes, w.low)), r, start, middle, buffer.bytes);
    }
  }

  method PutWatermark(buffer: WriteBuffer, w: Watermark) returns (r: Result<()>, ghost o: Orders)
    modifies buffer
    ensures OrdersOf(w, o)
    ensures Wrote(EncodeWatermark(w, o), r, old(buffer.bytes), buffer.bytes)
  {
    hide Enumerates, Entries, EncodeHead, EncodeColumn, EncodeLow;
    ghost var start := buffer.bytes;
    ghost var types := PutHead(buffer, w);
    ghost var middle := buffer.bytes;
    ghost var high;
    ghost var low := SomeOrder(w.low.Keys);
    r, high := PutColumns(buffer, w.dataTypes, w.high);
    ghost var columns := Entries(high, EncodeColumn(w.dataTypes, w.high));
    WroteThen(EncodeHead(w, types), columns, r, start, middle, buffer.bytes);
    o := Orders(types, high, low);
    if r.IsFailure() {
      return;
    }
    middle := buffer.bytes;
    r, low := PutLow(buffer, w);
    WroteThen(Then(EncodeHead(w, types), columns), EncodeLow(w, low), r, start, middle, buffer.bytes);
    o := Orders(types, high, low);
  }

  lemma SomeOrder(keys: set<Bytestring>) returns (order: seq<Bytestring>)
    ensures Enumerates(order, keys)
  {
    order := Complete([], {}, keys);
    assert {} + keys == keys;
  }

  // ---------------------------------------------------------------------------------------------
  // Reading
  // ---------------------------------------------------------------------------------------------

  method ReadType(buffer: ReadBuffer) returns (r: Result<(Bytestring, Uint32)>)
    modifies buffer
    ensures GotEntry(TakeType(old(buffer.bytes)), r, buffer.bytes)
  {
    hide TakeSized, TakeUint;
    Limits();
    var column :- buffer.ReadBytes();
    var oid :- buffer.ReadUint(4);
    r := Ok((column, oid));
  }

  method ReadColumn(foreign: Foreign, buffer: ReadBuffer, types: map<Bytestring, Uint32>)
    returns (r: Result<(Bytestring, Value)>)
    modifies buffer
    ensures GotEntry(TakeColumn(foreign, types, old(buffer.bytes)), r, buffer.bytes)
  {
    hide TakeSized, Unmarshal;
    var column :- buffer.ReadBytes();
    if column !in types {
      return Err;
    }
    var value :- BinaryUnmarshall(foreign, buffer, types[column]);
    r := Ok((column, value));
  }

  /** As `Got`, for an entry of a map. */
  ghost predicate GotEntry<V>(parsed: Result<(Bytestring, V, Bytestring)>, r: Result<(Bytestring, V)>,
                              after: Bytestring) {
    match r
    case Ok((key, value)) => parsed == Ok((key, value, after))
    case Err => parsed == Err
    case Panic => parsed == Panic
  }

  method ReadTypes(buffer: ReadBuffer, n: nat) returns (r: Result<map<Bytestring, Uint32>>)
    modifies buffer
    ensures Got(Filled(n, map[], old(buffer.bytes), DecodeType()), r, buffer.bytes)
  {
    hide TakeType;
    var types: map<Bytestring, Uint32> := map[];
    var i := 0;
    while i < n
      invariant 0 <= i <= n
      invariant Filled(n, map[], old(buffer.bytes), DecodeType()) == Filled(n - i, types, buffer.bytes, DecodeType())
    {
      var entry :- ReadType(buffer);
      types := types[entry.0 := entry.1];
      i := i + 1;
    }
    r := Ok(types);
  }

  method ReadColumns(foreign: Foreign, buffer: ReadBuffer, n: nat, types: map<Bytestring, Uint32>)
    returns (r: Result<map<Bytestring, Value>>)
    modifies buffer
    ensures Got(Filled(n, map[], old(buffer.bytes), DecodeColumn(foreign, types)), r, buffer.bytes)
  {
    hide TakeColumn;
    var values: map<Bytestring, Value> := map[];
    ghost var decode := DecodeColumn(foreign, types);
    var i := 0;
    while i < n
      invariant 0 <= i <= n
      invariant Filled(n, map[], old(buffer.bytes), decode) == Filled(n - i, values, buffer.bytes, decode)
    {
      var entry :- ReadColumn(foreign, buffer, types);
      values := values[entry.0 := entry.1];
      i := i + 1;
    }
    r := Ok(values);
  }

  method ReadWatermark(foreign: Foreign, buffer: ReadBuffer) returns (r: Result<Watermark>)
    modifies buffer
    ensures Got(TakeWatermark(foreign, old(buffer.bytes)), r, buffer.bytes)
  {
    hide TakeBool, TakeUint, Filled, DecodeType, DecodeColumn;
    var complete :- buffer.ReadBool();
    var n :- buffer.ReadUint(4);
    var types :- ReadTypes(buffer, n);
    var high :- ReadColumns(foreign, buffer, n, types);
    var available :- buffer.ReadBool();
    var low: map<Bytestring, Value> := map[];
    if available {
      low :- ReadColumns(foreign, buffer, n, types);
    }
    r := Ok(Watermark(complete, types, high, low));
  }

  // ---------------------------------------------------------------------------------------------
  // The object
  // ---------------------------------------------------------------------------------------------

  class SnapshotContext {
    var name: Bytestring
    var complete: bool
    var watermarks: map<Bytestring, Watermark>

    function Contents(): Context
      reads this
    {
      Context(name, complete, watermarks)
    }

    constructor (name: Bytestring)
      ensures Contents() == Context(name, false, map[])
    {
      this.name := name;
      this.complete := false;
      this.watermarks := map[];
    }

    /** The order of the tables and of their columns is whatever the iteration picks. */
    method MarshalBinary(ghost foreign: Foreign) returns (r: Result<Bytestring>, ghost o: ContextOrders)
      ensures ContextOrdersOf(Contents(), o)
      ensures r == Encode(Contents(), o)
      ensures WellFormedContext(foreign, Contents()) ==> r.Ok? && Decode(foreign, map[], r.value) == Ok(Contents())
    {
      hide WellFormedContext, Decode, Encode;
      r, o := Marshalled();
      if WellFormedContext(foreign, Contents()) {
        ContextRoundTrip(foreign, Contents(), o);
      }
    }

    /** The loops of the encoder. */
    method Marshalled() returns (r: Result<Bytestring>, ghost o: ContextOrders)
      ensures ContextOrdersOf(Contents(), o)
      ensures r == Encode(Contents(), o)
    {
      hide Sized, Bool, BigEndian, Enumerates, Entries, EncodeTable, Picked;
      var buffer := new WriteBuffer();
      buffer.PutBytes(name);
      buffer.PutBool(complete);
      buffer.PutUint32(|watermarks| % UINT32);
      ghost var frame := Sized(name) + Bool(complete) + BigEndian(|watermarks| % UINT32, 4);
      assert buffer.bytes == frame;
      var put;
      put, o := PutTables(buffer, watermarks);
      PickedAll(Contents(), o);
      if put.IsFailure() {
        return put.PropagateFailure(), o;
      }
      r := Ok(buffer.bytes);
    }

    /** Reads into the object; after an error its fields no longer matter. */
    method UnmarshalBinary(foreign: Foreign, data: Bytestring) returns (r: Result<()>)
      modifies this
      ensures match Decode(foreign, old(watermarks), data)
              case Ok(c) => r.Ok? && Contents() == c
              case Err => r == Err
              case Panic => r == Panic
    {
      hide TakeSized, TakeBool, TakeUint, TakeTable;
      ghost var present := watermarks;
      var buffer := new ReadBuffer(data);
      name :- buffer.ReadBytes();
      complete :- buffer.ReadBool();
      var n :- buffer.ReadUint(4);
      ghost var tables := buffer.bytes;
      var i := 0;
      while i < n
        invariant 0 <= i <= n && fresh(buffer)
        invariant name == TakeSized(data).value.0 && complete == TakeBool(TakeSized(data).value.1).value.0
        invariant Filled(n, present, tables, DecodeTable(foreign)) ==
                  Filled(n - i, watermarks, buffer.bytes, DecodeTable(foreign))
      {
        var entry :- ReadTable(foreign, buffer);
        watermarks := watermarks[entry.0 := entry.1];
        i := i + 1;
      }
      r := Ok(());
    }
  }

  method ReadTable(foreign: Foreign, buffer: ReadBuffer) returns (r: Result<(Bytestring, Watermark)>)
    modifies buffer
    ensures GotEntry(TakeTable(foreign, old(buffer.bytes)), r, buffer.bytes)
  {
    hide TakeSized, TakeWatermark;
    var table :- buffer.ReadBytes();
    var w :- ReadWatermark(foreign, buffer);
    r := Ok((table, w));
  }

  /** Orders of the columns of every table. */
  ghost predicate Picked(watermarks: map<Bytestring, Watermark>, columns: map<Bytestring, Orders>) {
    forall table :: table in watermarks ==> table in columns && OrdersOf(watermarks[table], columns[table])
  }

  lemma PickedAll(c: Context, o: ContextOrders)
    requires Enumerates(o.tables, c.watermarks.Keys) && Picked(c.watermarks, o.columns)
    ensures ContextOrdersOf(c, o)
  {
  }

  lemma PickedAgain(watermarks: map<Bytestring, Watermark>, columns: map<Bytestring, Orders>, table: Bytestring,
                    picked: Orders)
    requires Picked(watermarks, columns) && table in watermarks && OrdersOf(watermarks[table], picked)
    ensures Picked(watermarks, columns[table := picked])
  {
  }

  method PutTable(buffer: WriteBuffer, table: Bytestring, w: Watermark) returns (r: Result<()>, ghost o: Orders)
    modifies buffer
    ensures OrdersOf(w, o)
    ensures Wrote(Then(Ok(Sized(table)), EncodeWatermark(w, o)), r, old(buffer.bytes), buffer.bytes)
  {
    hide Sized, OrdersOf, EncodeWatermark;
    ghost var before := buffer.bytes;
    buffer.PutBytes(table);
    ghost var middle := buffer.bytes;
    r, o := PutWatermark(buffer, w);
    WroteThen(Ok(Sized(table)), EncodeWatermark(w, o), r, before, middle, buffer.bytes);
  }

  method PutTables(buffer: WriteBuffer, watermarks: map<Bytestring, Watermark>)
    returns (r: Result<()>, ghost o: ContextOrders)
    modifies buffer
    ensures Enumerates(o.tables, watermarks.Keys) && Picked(watermarks, o.columns)
    ensures Wrote(Entries(o.tables, EncodeTable(watermarks, o.columns)), r, old(buffer.bytes), buffer.bytes)
  {
    hide Sized, Underway, Enumerates, Entries, OrdersOf, EncodeWatermark, Picked;
    ghost var order := [];
    ghost var columns := AnyOrders(watermarks, watermarks.Keys);
    assert Picked(watermarks, columns) by { AllPicked(watermarks, columns); }
    var todo := watermarks.Keys;
    Begin(todo, EncodeTable(watermarks, columns), buffer.bytes);
    while todo != {}
      invariant todo <= watermarks.Keys && Picked(watermarks, columns)
      invariant Underway(order, watermarks.Keys, todo, EncodeTable(watermarks, columns), old(buffer.bytes),
                         buffer.bytes)
      decreases |todo|
    {
      var table :| table in todo;
      ghost var before := buffer.bytes;
      ghost var picked;
      r, picked := PutTable(buffer, table, watermarks[table]);
      Repick(order, watermarks, todo, columns, table, picked, old(buffer.bytes), before);
      PickedAgain(watermarks, columns, table, picked);
      columns := columns[table := picked];
      if r.IsFailure() {
        order := Abandon(order, watermarks.Keys, todo, EncodeTable(watermarks, columns), old(buffer.bytes), before,
                         table);
        o := ContextOrders(order, columns);
        return;
      }
      Advance(order, watermarks.Keys, todo, EncodeTable(watermarks, columns), old(buffer.bytes), before, buffer.bytes,
              table);
      order := order + [table];
      todo := todo - {table};
    }
    Finish(order, watermarks.Keys, EncodeTable(watermarks, columns), old(buffer.bytes), buffer.bytes);
    o := ContextOrders(order, columns);
    r := Ok(());
  }

  lemma AllPicked(watermarks: map<Bytestring, Watermark>, columns: map<Bytestring, Orders>)
    requires forall table :: table in watermarks.Keys ==>
              table in columns && OrdersOf(watermarks[table], columns[table])
    ensures Picked(watermarks, columns)
  {
  }

  lemma {:induction false} AnyOrders(watermarks: map<Bytestring, Watermark>, tables: set<Bytestring>)
    returns (columns: map<Bytestring, Orders>)
    requires tables <= watermarks.Keys
    ensures forall table :: table in tables ==> table in columns && OrdersOf(watermarks[table], columns[table])
    decreases |tables|
  {
    columns := map[];
    if tables != {} {
      var table :| table in tables;
      columns := AnyOrders(watermarks, tables - {table});
      var w := watermarks[table];
      var types := SomeOrder(w.dataTypes.Keys);
      var high := SomeOrder(w.high.Keys);
      var low := SomeOrder(w.low.Keys);
      columns := columns[table := Orders(types, high, low)];
    }
  }

  /** The orders picked for a table do not matter to the tables before it. */
  lemma Repick(order: seq<Bytestring>, watermarks: map<Bytestring, Watermark>, todo: set<Bytestring>,
               columns: map<Bytestring, Orders>, table: Bytestring, picked: Orders, before: Bytestring,
               after: Bytestring)
    requires Underway(order, watermarks.Keys, todo, EncodeTable(watermarks, columns), before, after) && table in todo
    ensures Underway(order, watermarks.Keys, todo, EncodeTable(watermarks, columns[table := picked]), before, after)
  {
    hide Entries, EncodeWatermark, Sized;
    assert table !in order;
    SameEntries(order, EncodeTable(watermarks, columns), EncodeTable(watermarks, columns[table := picked]));
  }

  lemma {:induction false} SameEntries(
      order: seq<Bytestring>, encode: Bytestring -> Result<Bytestring>, encode': Bytestring -> Result<Bytestring>)
    requires forall i :: 0 <= i < |order| ==> encode(order[i]) == encode'(order[i])
    ensures Entries(order, encode) == Entries(order, encode')
  {
    if order != [] {
      SameEntries(order[..|order| - 1], encode, encode');
    }
  }
}
