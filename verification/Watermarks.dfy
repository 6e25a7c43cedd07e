/** The snapshot context: progress of a snapshot by table, and its binary form. */
module Watermarks {
  import opened Wrappers
  import opened Bytes
  import opened Buffers
  import opened Marshallers
  import opened MapCodec

  datatype Watermark = Watermark(
    complete: bool,
    dataTypes: map<Bytestring, Uint32>,
    high: map<Bytestring, Value>,
    low: map<Bytestring, Value>)

  datatype Context = Context(name: Bytestring, complete: bool, watermarks: map<Bytestring, Watermark>)

  /** The iteration orders of the three maps of a watermark. */
  datatype Orders = Orders(types: seq<Bytestring>, high: seq<Bytestring>, low: seq<Bytestring>)

  datatype ContextOrders = ContextOrders(tables: seq<Bytestring>, columns: map<Bytestring, Orders>)

  ghost predicate OrdersOf(w: Watermark, o: Orders) {
    && Enumerates(o.types, w.dataTypes.Keys)
    && Enumerates(o.high, w.high.Keys)
    && Enumerates(o.low, w.low.Keys)
  }

  ghost predicate ContextOrdersOf(c: Context, o: ContextOrders) {
    && Enumerates(o.tables, c.watermarks.Keys)
    && forall table :: table in c.watermarks ==> table in o.columns && OrdersOf(c.watermarks[table], o.columns[table])
  }

  // ---------------------------------------------------------------------------------------------
  // Writing
  // ---------------------------------------------------------------------------------------------

  function EncodeType(types: map<Bytestring, Uint32>): Bytestring -> Result<Bytestring> {
    column => if column in types then Ok(Sized(column) + BigEndian(types[column], 4)) else Err
  }

  function EncodeColumn(types: map<Bytestring, Uint32>, values: map<Bytestring, Value>):
    Bytestring -> Result<Bytestring>
  {
    column =>
      if column in types && column in values then Then(Ok(Sized(column)), Marshal(types[column], values[column]))
      else Err
  }

  function EncodeHead(w: Watermark, types: seq<Bytestring>): Result<Bytestring> {
    Then(Ok(Bool(w.complete) + BigEndian(|w.dataTypes| % UINT32, 4)), Entries(types, EncodeType(w.dataTypes)))
  }

  function EncodeLow(w: Watermark, low: seq<Bytestring>): Result<Bytestring> {
    if w.low == map[] then Ok(Bool(false)) else Then(Ok(Bool(true)), Entries(low, EncodeColumn(w.dataTypes, w.low)))
  }

  function EncodeWatermark(w: Watermark, o: Orders): Result<Bytestring> {
    Then(Then(EncodeHead(w, o.types), Entries(o.high, EncodeColumn(w.dataTypes, w.high))), EncodeLow(w, o.low))
  }

  function EncodeTable(watermarks: map<Bytestring, Watermark>, columns: map<Bytestring, Orders>):
    Bytestring -> Result<Bytestring>
  {
    table =>
      if table in watermarks && table in columns then
        Then(Ok(Sized(table)), EncodeWatermark(watermarks[table], columns[table]))
      else Err
  }

  function Encode(c: Context, o: ContextOrders): Result<Bytestring> {
    Then(Ok(Sized(c.name) + Bool(c.complete) + BigEndian(|c.watermarks| % UINT32, 4)),
         Entries(o.tables, EncodeTable(c.watermarks, o.columns)))
  }

  // ---------------------------------------------------------------------------------------------
  // Reading
  // ---------------------------------------------------------------------------------------------

  function DecodeType(): Bytestring -> Result<(Bytestring, Uint32, Bytestring)> {
    buffer => TakeType(buffer)
  }

  function TakeType(buffer: Bytestring): Result<(Bytestring, Uint32, Bytestring)> {
    Limits();
    var (column, afterColumn) :- TakeSized(buffer);
    var (oid, rest) :- TakeUint(afterColumn, 4);
    Ok((column, oid, rest))
  }

  function DecodeColumn(foreign: Foreign, types: map<Bytestring, Uint32>):
    Bytestring -> Result<(Bytestring, Value, Bytestring)>
  {
    buffer => TakeColumn(foreign, types, buffer)
  }

  function TakeColumn(foreign: Foreign, types: map<Bytestring, Uint32>, buffer: Bytestring):
    Result<(Bytestring, Value, Bytestring)>
  {
    var (column, afterColumn) :- TakeSized(buffer);
    if column !in types then Err
    else
      var (value, rest) :- Unmarshal(foreign, types[column], afterColumn);
      Ok((column, value, rest))
  }

  function TakeHead(buffer: Bytestring): Result<(bool, nat, map<Bytestring, Uint32>, Bytestring)> {
    var (complete, afterComplete) :- TakeBool(buffer);
    var (n, afterCount) :- TakeUint(afterComplete, 4);
    var (types, rest) :- Filled(n, map[], afterCount, DecodeType());
    Ok((complete, n, types, rest))
  }

  function TakeLow(foreign: Foreign, n: nat, types: map<Bytestring, Uint32>, buffer: Bytestring):
    Result<(map<Bytestring, Value>, Bytestring)>
  {
    var (available, afterAvailable) :- TakeBool(buffer);
    if available then Filled(n, map[], afterAvailable, DecodeColumn(foreign, types)) else Ok((map[], afterAvailable))
  }

  function TakeWatermark(foreign: Foreign, buffer: Bytestring): Result<(Watermark, Bytestring)> {
    var (complete, n, types, afterHead) :- TakeHead(buffer);
    var (high, afterHigh) :- Filled(n, map[], afterHead, DecodeColumn(foreign, types));
    var (low, rest) :- TakeLow(foreign, n, types, afterHigh);
    Ok((Watermark(complete, types, high, low), rest))
  }

  function DecodeTable(foreign: Foreign): Bytestring -> Result<(Bytestring, Watermark, Bytestring)> {
    buffer => TakeTable(foreign, buffer)
  }

  function TakeTable(foreign: Foreign, buffer: Bytestring): Result<(Bytestring, Watermark, Bytestring)> {
    var (table, afterTable) :- TakeSized(buffer);
    var (w, rest) :- TakeWatermark(foreign, afterTable);
    Ok((table, w, rest))
  }

  /** Reads into a context that already has the watermarks `present`; bytes behind the last table are ignored. */
  function Decode(foreign: Foreign, present: map<Bytestring, Watermark>, data: Bytestring): Result<Context> {
    var (name, afterName) :- TakeSized(data);
    var (complete, afterComplete) :- TakeBool(afterName);
    var (n, afterCount) :- TakeUint(afterComplete, 4);
    var (watermarks, _) :- Filled(n, present, afterCount, DecodeTable(foreign));
    Ok(Context(name, complete, watermarks))
  }

  // ---------------------------------------------------------------------------------------------
  // The round trip
  // ---------------------------------------------------------------------------------------------

  ghost predicate ReadBack(foreign: Foreign, types: map<Bytestring, Uint32>, values: map<Bytestring, Value>) {
    && values.Keys == types.Keys
    && forall column :: column in values ==> ReadsBack(foreign, types[column], values[column])
  }

  /** The high watermark covers the columns of the index, the low watermark covers them or is not set yet,
      and every value has the Go type of its column. */
  ghost predicate WellFormed(foreign: Foreign, w: Watermark) {
    && |w.dataTypes| < UINT32
    && (forall column :: column in w.dataTypes ==> |column| < UINT32)
    && ReadBack(foreign, w.dataTypes, w.high)
    && (w.low == map[] || ReadBack(foreign, w.dataTypes, w.low))
  }

  ghost predicate WellFormedContext(foreign: Foreign, c: Context) {
    && |c.name| < UINT32
    && |c.watermarks| < UINT32
    && forall table :: table in c.watermarks ==> |table| < UINT32 && WellFormed(foreign, c.watermarks[table])
  }

  lemma TypeInverts(types: map<Bytestring, Uint32>, column: Bytestring)
    requires column in types && |column| < UINT32
    ensures Inverts(EncodeType(types), DecodeType(), column, types[column])
  {
    hide TakeSized, TakeUint, Sized;
    Limits();
    var encoded := EncodeType(types)(column).value;
    forall rest: Bytestring ensures DecodeType()(encoded + rest) == Ok((column, types[column], rest)) {
      assert encoded + rest == Sized(column) + (BigEndian(types[column], 4) + rest);
      SizedRoundTrip(column, BigEndian(types[column], 4) + rest);
      UintRoundTrip(types[column], 4, rest);
    }
  }

  lemma ColumnInverts(foreign: Foreign, types: map<Bytestring, Uint32>, values: map<Bytestring, Value>,
                      column: Bytestring)
    requires column in types && column in values && |column| < UINT32
    requires ReadsBack(foreign, types[column], values[column])
    ensures Inverts(EncodeColumn(types, values), DecodeColumn(foreign, types), column, values[column])
  {
    hide TakeSized, Sized, Marshal, Unmarshal, ReadsBack;
    var oid, value := types[column], values[column];
    MarshalRoundTrip(foreign, oid, value, []);
    var encoded := EncodeColumn(types, values)(column).value;
    forall rest: Bytestring ensures DecodeColumn(foreign, types)(encoded + rest) == Ok((column, value, rest)) {
      assert encoded + rest == Sized(column) + (Marshal(oid, value).value + rest);
      SizedRoundTrip(column, Marshal(oid, value).value + rest);
      MarshalRoundTrip(foreign, oid, value, rest);
    }
  }

  lemma TypesRoundTrip(types: map<Bytestring, Uint32>, order: seq<Bytestring>, rest: Bytestring)
    requires Enumerates(order, types.Keys)
    requires forall column :: column in types ==> |column| < UINT32
    ensures Entries(order, EncodeType(types)).Ok?
    ensures Filled(|types|, map[], Entries(order, EncodeType(types)).value + rest, DecodeType()) == Ok((types, rest))
  {
    hide Entries, Filled, EncodeType, DecodeType, Inverts;
    forall column | column in types ensures Inverts(EncodeType(types), DecodeType(), column, types[column]) {
      TypeInverts(types, column);
    }
    MapRoundTrip(order, types, map[], rest, EncodeType(types), DecodeType());
    assert map[] + types == types;
  }

  lemma HeadFrame(complete: bool, n: nat, entries: Bytestring, rest: Bytestring)
    requires n < UINT32
    ensures var filled := Filled(n, map[], entries + rest, DecodeType());
            TakeHead(Bool(complete) + BigEndian(n, 4) + entries + rest) ==
            if filled.Ok? then Ok((complete, n, filled.value.0, filled.value.1)) else filled.PropagateFailure()
  {
    hide TakeUint, TakeBool, Bool, Filled, DecodeType, BigEndian;
    Limits();
    var count := BigEndian(n, 4);
    Regroup(Bool(complete) + count, entries, rest);
    Regroup(Bool(complete), count, entries + rest);
    BoolRoundTrip(complete, count + (entries + rest));
    UintRoundTrip(n, 4, entries + rest);
  }

  lemma HeadRoundTrip(w: Watermark, types: seq<Bytestring>, rest: Bytestring)
    requires Enumerates(types, w.dataTypes.Keys) && |w.dataTypes| < UINT32
    requires forall column :: column in w.dataTypes ==> |column| < UINT32
    ensures EncodeHead(w, types).Ok?
    ensures TakeHead(EncodeHead(w, types).value + rest) == Ok((w.complete, |w.dataTypes|, w.dataTypes, rest))
  {
    hide TakeHead, Bool, Entries, Filled, EncodeType, DecodeType, Enumerates, BigEndian;
    TypesRoundTrip(w.dataTypes, types, rest);
    var entries := Entries(types, EncodeType(w.dataTypes)).value;
    HeadFrame(w.complete, |w.dataTypes|, entries, rest);
  }

  lemma ColumnsRoundTrip(foreign: Foreign, types: map<Bytestring, Uint32>, values: map<Bytestring, Value>,
                         order: seq<Bytestring>, rest: Bytestring)
    requires ReadBack(foreign, types, values) && Enumerates(order, values.Keys)
    requires forall column :: column in types ==> |column| < UINT32
    ensures Entries(order, EncodeColumn(types, values)).Ok?
    ensures Filled(|types|, map[], Entries(order, EncodeColumn(types, values)).value + rest,
                   DecodeColumn(foreign, types)) ==
            Ok((values, rest))
  {
    hide Entries, Filled, EncodeColumn, DecodeColumn, Inverts;
    forall column | column in values
      ensures Inverts(EncodeColumn(types, values), DecodeColumn(foreign, types), column, values[column])
    {
      assert column in types.Keys;
      ColumnInverts(foreign, types, values, column);
    }
    MapRoundTrip(order, values, map[], rest, EncodeColumn(types, values), DecodeColumn(foreign, types));
    assert map[] + values == values;
    assert |types| == |types.Keys| == |values.Keys| == |values|;
  }

  lemma LowRoundTrip(foreign: Foreign, w: Watermark, low: seq<Bytestring>, rest: Bytestring)
    requires WellFormed(foreign, w) && Enumerates(low, w.low.Keys)
    ensures EncodeLow(w, low).Ok?
    ensures TakeLow(foreign, |w.dataTypes|, w.dataTypes, EncodeLow(w, low).value + rest) == Ok((w.low, rest))
  {
    hide TakeBool, Bool, Entries, Filled, EncodeColumn, DecodeColumn, ReadBack, Enumerates;
    if w.low == map[] {
      BoolRoundTrip(false, rest);
    } else {
      ColumnsRoundTrip(foreign, w.dataTypes, w.low, low, rest);
      var entries := Entries(low, EncodeColumn(w.dataTypes, w.low)).value;
      Regroup(Bool(true), entries, rest);
      BoolRoundTrip(true, entries + rest);
    }
  }

  lemma WatermarkRoundTrip(foreign: Foreign, w: Watermark, o: Orders, rest: Bytestring)
    requires WellFormed(foreign, w) && OrdersOf(w, o)
    ensures EncodeWatermark(w, o).Ok?
    ensures TakeWatermark(foreign, EncodeWatermark(w, o).value + rest) == Ok((w, rest))
  {
    LowRoundTrip(foreign, w, o.low, rest);
    hide Entries, Filled, EncodeColumn, DecodeColumn, EncodeHead, TakeHead, EncodeLow, TakeLow, ReadBack, Enumerates;
    var low := EncodeLow(w, o.low).value;
    ColumnsRoundTrip(foreign, w.dataTypes, w.high, o.high, low + rest);
    var high := Entries(o.high, EncodeColumn(w.dataTypes, w.high)).value;
    HeadRoundTrip(w, o.types, high + (low + rest));
    var head := EncodeHead(w, o.types).value;
    Regroup(head + high, low, rest);
    Regroup(head, high, low + rest);
  }

  lemma TableInverts(foreign: Foreign, watermarks: map<Bytestring, Watermark>, columns: map<Bytestring, Orders>,
                     table: Bytestring)
    requires table in watermarks && table in columns && |table| < UINT32
    requires WellFormed(foreign, watermarks[table]) && OrdersOf(watermarks[table], columns[table])
    ensures Inverts(EncodeTable(watermarks, columns), DecodeTable(foreign), table, watermarks[table])
  {
    hide TakeSized, Sized, EncodeWatermark, TakeWatermark, WellFormed, OrdersOf;
    var w, o := watermarks[table], columns[table];
    WatermarkRoundTrip(foreign, w, o, []);
    var encoded := EncodeTable(watermarks, columns)(table).value;
    forall rest: Bytestring ensures DecodeTable(foreign)(encoded + rest) == Ok((table, w, rest)) {
      assert encoded + rest == Sized(table) + (EncodeWatermark(w, o).value + rest);
      SizedRoundTrip(table, EncodeWatermark(w, o).value + rest);
      WatermarkRoundTrip(foreign, w, o, rest);
    }
  }

  lemma TablesRoundTrip(foreign: Foreign, c: Context, o: ContextOrders)
    requires WellFormedContext(foreign, c) && ContextOrdersOf(c, o)
    ensures Entries(o.tables, EncodeTable(c.watermarks, o.columns)).Ok?
    ensures Filled(|c.watermarks|, map[], Entries(o.tables, EncodeTable(c.watermarks, o.columns)).value,
                   DecodeTable(foreign)) == Ok((c.watermarks, []))
  {
    hide Entries, Filled, EncodeTable, DecodeTable, Inverts, WellFormed, OrdersOf, Enumerates;
    forall table | table in c.watermarks
      ensures Inverts(EncodeTable(c.watermarks, o.columns), DecodeTable(foreign), table, c.watermarks[table])
    {
      TableInverts(foreign, c.watermarks, o.columns, table);
    }
    MapRoundTrip(o.tables, c.watermarks, map[], [], EncodeTable(c.watermarks, o.columns), DecodeTable(foreign));
    var tables := Entries(o.tables, EncodeTable(c.watermarks, o.columns)).value;
    assert tables + [] == tables;
    assert map[] + c.watermarks == c.watermarks;
  }

  lemma FrameRoundTrip(foreign: Foreign, present: map<Bytestring, Watermark>, name: Bytestring, complete: bool, n: nat,
                       tables: Bytestring)
    requires |name| < UINT32 && n < UINT32
    ensures var filled := Filled(n, present, tables, DecodeTable(foreign));
            Decode(foreign, present, Sized(name) + Bool(complete) + BigEndian(n, 4) + tables) ==
            if filled.Ok? then Ok(Context(name, complete, filled.value.0)) else filled.PropagateFailure()
  {
    hide TakeSized, Sized, TakeBool, Bool, TakeUint, Filled, DecodeTable, BigEndian;
    Limits();
    var count := BigEndian(n, 4);
    Regroup(Sized(name), Bool(complete), count);
    Regroup(Sized(name), Bool(complete) + count, tables);
    Regroup(Bool(complete), count, tables);
    SizedRoundTrip(name, Bool(complete) + (count + tables));
    BoolRoundTrip(complete, count + tables);
    UintRoundTrip(n, 4, tables);
  }

  /** Whatever the iteration orders of all the maps, a well-formed context is written without an error, and reading
      the bytes into a fresh context gives the context back. */
  lemma ContextRoundTrip(foreign: Foreign, c: Context, o: ContextOrders)
    requires WellFormedContext(foreign, c) && ContextOrdersOf(c, o)
    ensures Encode(c, o).Ok?
    ensures Decode(foreign, map[], Encode(c, o).value) == Ok(c)
  {
    hide Sized, Bool, Entries, Filled, EncodeTable, DecodeTable, BigEndian, ContextOrdersOf, WellFormed, Decode;
    TablesRoundTrip(foreign, c, o);
    var tables := Entries(o.tables, EncodeTable(c.watermarks, o.columns)).value;
    FrameRoundTrip(foreign, map[], c.name, c.complete, |c.watermarks|, tables);
  }

  // ---------------------------------------------------------------------------------------------
  // What can come out of the decoder
  // ---------------------------------------------------------------------------------------------

  ghost predicate Typed(foreign: Foreign, types: map<Bytestring, Uint32>, values: map<Bytestring, Value>) {
    forall column :: column in values ==>
      column in types && ReadsBack(foreign, types[column], values[column])
  }

  ghost predicate Readable(foreign: Foreign, w: Watermark) {
    && |w.dataTypes| < UINT32
    && (forall column :: column in w.dataTypes ==> |column| < UINT32)
    && Typed(foreign, w.dataTypes, w.high)
    && Typed(foreign, w.dataTypes, w.low)
  }

  ghost predicate ReadableContext(foreign: Foreign, c: Context) {
    && |c.name| < UINT32
    && |c.watermarks| < UINT32
    && forall table :: table in c.watermarks ==> |table| < UINT32 && Readable(foreign, c.watermarks[table])
  }

  lemma SizedIsShort(buffer: Bytestring)
    requires TakeSized(buffer).Ok?
    ensures |TakeSized(buffer).value.0| < UINT32
  {
    Limits();
  }

  lemma TypesAreReadable(n: nat, buffer: Bytestring)
    requires Filled(n, map[], buffer, DecodeType()).Ok?
    ensures var types := Filled(n, map[], buffer, DecodeType()).value.0;
            |types| <= n && forall column :: column in types ==> |column| < UINT32
  {
    hide TakeSized;
    var good := (column: Bytestring, oid: Uint32) => |column| < UINT32;
    forall b: Bytestring | DecodeType()(b).Ok? ensures good(DecodeType()(b).value.0, DecodeType()(b).value.1) {
      SizedIsShort(b);
    }
    FilledAll(n, map[], buffer, DecodeType(), good);
  }

  lemma ColumnsAreTyped(foreign: Foreign, n: nat, types: map<Bytestring, Uint32>, buffer: Bytestring)
    requires Filled(n, map[], buffer, DecodeColumn(foreign, types)).Ok?
    ensures Typed(foreign, types, Filled(n, map[], buffer, DecodeColumn(foreign, types)).value.0)
  {
    hide TakeSized, Unmarshal, ReadsBack;
    var good := (column: Bytestring, v: Value) => column in types && ReadsBack(foreign, types[column], v);
    var decode := DecodeColumn(foreign, types);
    forall b: Bytestring | decode(b).Ok? ensures good(decode(b).value.0, decode(b).value.1) {
      var (column, rest) := TakeSized(b).value;
      KindIsFixed(foreign, types[column], rest);
    }
    FilledAll(n, map[], buffer, decode, good);
  }

  lemma WatermarkIsReadable(foreign: Foreign, buffer: Bytestring)
    requires TakeWatermark(foreign, buffer).Ok?
    ensures Readable(foreign, TakeWatermark(foreign, buffer).value.0)
  {
    hide TakeUint, TakeBool, Filled, DecodeType, DecodeColumn, Typed;
    Limits();
    var n := TakeUint(TakeBool(buffer).value.1, 4).value.0;
    TypesAreReadable(n, TakeUint(TakeBool(buffer).value.1, 4).value.1);
    var (_, _, types, afterHead) := TakeHead(buffer).value;
    ColumnsAreTyped(foreign, n, types, afterHead);
    var afterHigh := Filled(n, map[], afterHead, DecodeColumn(foreign, types)).value.1;
    var (available, afterAvailable) := TakeBool(afterHigh).value;
    if available {
      ColumnsAreTyped(foreign, n, types, afterAvailable);
    } else {
      assert Typed(foreign, types, map[]) by { NothingIsTyped(foreign, types); }
    }
  }

  lemma NothingIsTyped(foreign: Foreign, types: map<Bytestring, Uint32>)
    ensures Typed(foreign, types, map[])
  {
  }

  lemma DecodedIsReadable(foreign: Foreign, data: Bytestring)
    requires Decode(foreign, map[], data).Ok?
    ensures ReadableContext(foreign, Decode(foreign, map[], data).value)
  {
    hide TakeSized, TakeUint, TakeBool, Filled, TakeWatermark, Readable;
    Limits();
    SizedIsShort(data);
    var good := (table: Bytestring, w: Watermark) => |table| < UINT32 && Readable(foreign, w);
    var decode := DecodeTable(foreign);
    forall b: Bytestring | decode(b).Ok? ensures good(decode(b).value.0, decode(b).value.1) {
      SizedIsShort(b);
      WatermarkIsReadable(foreign, TakeSized(b).value.1);
    }
    var afterName := TakeSized(data).value.1;
    var (n, afterCount) := TakeUint(TakeBool(afterName).value.1, 4).value;
    FilledAll(n, map[], afterCount, decode, good);
  }

  // ---------------------------------------------------------------------------------------------
  // Watermarks that do not cover their columns
  // ---------------------------------------------------------------------------------------------

  /** The high watermark has a value for every column of the index, the low watermark for every column or none. */
  ghost predicate Covers(w: Watermark) {
    && w.high.Keys == w.dataTypes.Keys
    && (w.low == map[] || w.low.Keys == w.dataTypes.Keys)
  }

  ghost predicate Covered(c: Context) {
    forall table :: table in c.watermarks ==> Covers(c.watermarks[table])
  }

  /** No column can be mistaken: none is empty and, if there are low values, none has 16 megabytes. */
  ghost predicate PlainColumns(w: Watermark) {
    && [] !in w.dataTypes
    && (w.low != map[] ==> forall column :: column in w.dataTypes ==> |column| < 0x100_0000)
  }

  /** Table names have less than 256 bytes, and a watermark that does not cover its columns has plain ones; if it has
      low values, none of its columns is named like a table. */
  ghost predicate PlainNames(c: Context) {
    forall table :: table in c.watermarks ==>
      && |table| < 256
      && (!Covers(c.watermarks[table]) ==>
            && PlainColumns(c.watermarks[table])
            && (c.watermarks[table].low != map[] ==> c.watermarks[table].dataTypes.Keys !! c.watermarks.Keys))
  }

  /** What follows a watermark: nothing, or a table with a short name that is none of the columns. */
  ghost predicate NextIsTable(w: Watermark, rest: Bytestring) {
    rest == [] || exists table, more :: IsTable(w, rest, table, more)
  }

  ghost predicate IsTable(w: Watermark, rest: Bytestring, table: Bytestring, more: Bytestring) {
    rest == Sized(table) + more && |table| < 256 && (w.low != map[] ==> table !in w.dataTypes)
  }

  lemma ShortName(table: Bytestring)
    requires |table| < 256
    ensures |Sized(table)| >= 4 && Sized(table)[..3] == [0, 0, 0]
  {
    var n := |table|;
    assert n / 256 == 0 && BigEndian(0, 3) == [0, 0, 0];
    assert BigEndian(n, 4) == BigEndian(0, 3) + [n];
  }

  lemma NextIsShort(w: Watermark, rest: Bytestring)
    requires NextIsTable(w, rest) && rest != []
    ensures |rest| >= 4 && rest[..3] == [0, 0, 0]
  {
    hide Sized;
    var table, more :| IsTable(w, rest, table, more);
    ShortName(table);
    assert rest[..3] == Sized(table)[..3];
  }

  /** The flag of a missing low watermark is taken for the length of an empty name. */
  lemma EmptyName(foreign: Foreign, w: Watermark, rest: Bytestring)
    requires [] !in w.dataTypes && NextIsTable(w, rest)
    ensures TakeColumn(foreign, w.dataTypes, [0] + rest) == Err
  {
    hide NextIsTable;
    var buffer := [0] + rest;
    if rest != [] {
      NextIsShort(w, rest);
    }
    var after := if rest == [] then [] else rest[3..];
    assert Take(buffer, 4) == Ok(([0, 0, 0, 0], after)) by {
      if rest == [] {
        assert buffer + seq(3, _ => 0) == [0, 0, 0, 0];
      } else {
        assert rest[0] == rest[..3][0] && rest[1] == rest[..3][1] && rest[2] == rest[..3][2];
        assert buffer[..4] == [0, 0, 0, 0] && buffer[4..] == rest[3..];
      }
    }
    assert Bytes.Value([0, 0, 0, 0]) == 0 by {
      assert BigEndian(0, 4) == [0, 0, 0, 0];
      BigEndianRoundTrip(0, 4);
    }
    assert TakeSized(buffer) == Take(after, 0);
  }

  lemma LongLength(b: Bytestring)
    requires |b| == 4 && b[0] == 1
    ensures Bytes.Value(b) >= 0x100_0000
  {
    Limits();
    MostSignificantFirst(b[..1], b[1..]);
    assert b == b[..1] + b[1..] && b[..1] == [1] && [1][..0] == [];
    assert Bytes.Value([1]) == 1;
  }

  /** The flag of a low watermark is taken for the first byte of the length of a name. */
  lemma LongColumn(foreign: Foreign, types: map<Bytestring, Uint32>, rest: Bytestring)
    requires forall column :: column in types ==> |column| < 0x100_0000
    ensures TakeColumn(foreign, types, [1] + rest) == Err
  {
    hide Unmarshal;
    var buffer := [1] + rest;
    var (length, after) := Take(buffer, 4).value;
    assert |length| == 4 && length[0] == 1;
    LongLength(length);
    var name := Take(after, Bytes.Value(length));
    if name.Ok? {
      assert |name.value.0| == Bytes.Value(length);
    }
  }

  /** The name of the next table is taken for a column. */
  lemma TableForColumn(foreign: Foreign, w: Watermark, rest: Bytestring)
    requires NextIsTable(w, rest) && w.low != map[]
    ensures TakeColumn(foreign, w.dataTypes, rest) == Err
  {
    hide Sized;
    if rest != [] {
      var table, more :| IsTable(w, rest, table, more);
      SizedRoundTrip(table, more);
    } else {
      assert TakeUint(rest, 4) == Err;
    }
  }

  lemma FewerKeys(foreign: Foreign, types: map<Bytestring, Uint32>, values: map<Bytestring, Value>)
    requires Typed(foreign, types, values)
    ensures |values| <= |types| && (|values| == |types| <==> values.Keys == types.Keys)
  {
    hide ReadsBack;
    assert |values| == |values.Keys| && |types| == |types.Keys|;
    var more := types.Keys - values.Keys;
    assert types.Keys == values.Keys + more;
    assert more == {} ==> values.Keys == types.Keys;
  }

  /** Some entries are read, but the next one is not. */
  lemma FilledThenFails<V>(n: nat, more: nat, buffer: Bytestring,
                           decode: Bytestring -> Result<(Bytestring, V, Bytestring)>)
    requires more > 0 && Filled(n, map[], buffer, decode).Ok? && decode(Filled(n, map[], buffer, decode).value.1) == Err
    ensures Filled(n + more, map[], buffer, decode) == Err
  {
    FilledInTwo(n, more, map[], buffer, decode);
  }

  lemma TypedAreWritten(foreign: Foreign, types: map<Bytestring, Uint32>, values: map<Bytestring, Value>,
                        order: seq<Bytestring>, rest: Bytestring)
    requires Typed(foreign, types, values) && Enumerates(order, values.Keys)
    requires forall column :: column in types ==> |column| < UINT32
    ensures Entries(order, EncodeColumn(types, values)).Ok?
    ensures var filled := Filled(|values|, map[], Entries(order, EncodeColumn(types, values)).value + rest,
                                 DecodeColumn(foreign, types));
            filled.Ok? && filled.value.1 == rest
  {
    hide Entries, Filled, EncodeColumn, DecodeColumn, Inverts, ReadsBack;
    var encode, decode := EncodeColumn(types, values), DecodeColumn(foreign, types);
    forall column | column in values ensures Inverts(encode, decode, column, values[column]) {
      ColumnInverts(foreign, types, values, column);
    }
    MapRoundTrip(order, values, map[], rest, encode, decode);
  }

  /** Typed values are written; fewer of them than columns are read together with what follows. */
  lemma FewerColumns(foreign: Foreign, types: map<Bytestring, Uint32>, values: map<Bytestring, Value>,
                     order: seq<Bytestring>, rest: Bytestring)
    requires Typed(foreign, types, values) && Enumerates(order, values.Keys)
    requires forall column :: column in types ==> |column| < UINT32
    ensures Entries(order, EncodeColumn(types, values)).Ok?
    ensures values.Keys != types.Keys && TakeColumn(foreign, types, rest) == Err ==>
              Filled(|types|, map[], Entries(order, EncodeColumn(types, values)).value + rest,
                     DecodeColumn(foreign, types)) == Err
  {
    hide Entries, Filled, EncodeColumn, TakeColumn, Enumerates, Typed;
    TypedAreWritten(foreign, types, values, order, rest);
    FewerKeys(foreign, types, values);
    if values.Keys != types.Keys && TakeColumn(foreign, types, rest) == Err {
      FilledThenFails(|values|, |types| - |values|, Entries(order, EncodeColumn(types, values)).value + rest,
                      DecodeColumn(foreign, types));
    }
  }

  lemma ReadableEncodes(foreign: Foreign, w: Watermark, o: Orders)
    requires Readable(foreign, w) && OrdersOf(w, o)
    ensures EncodeHead(w, o.types).Ok? && Entries(o.high, EncodeColumn(w.dataTypes, w.high)).Ok?
    ensures EncodeLow(w, o.low).Ok?
    ensures EncodeWatermark(w, o).Ok?
  {
    hide Entries, EncodeHead, EncodeColumn, Typed, Enumerates;
    HeadRoundTrip(w, o.types, []);
    FewerColumns(foreign, w.dataTypes, w.high, o.high, []);
    FewerColumns(foreign, w.dataTypes, w.low, o.low, []);
  }

  lemma HighIsMissing(foreign: Foreign, w: Watermark, o: Orders, rest: Bytestring)
    requires Readable(foreign, w) && OrdersOf(w, o) && PlainColumns(w) && NextIsTable(w, rest)
    requires w.high.Keys != w.dataTypes.Keys
    ensures EncodeLow(w, o.low).Ok? && Entries(o.high, EncodeColumn(w.dataTypes, w.high)).Ok?
    ensures var high := Entries(o.high, EncodeColumn(w.dataTypes, w.high)).value;
            Filled(|w.dataTypes|, map[], high + (EncodeLow(w, o.low).value + rest),
                   DecodeColumn(foreign, w.dataTypes)) == Err
  {
    hide Entries, Filled, EncodeColumn, TakeColumn, Typed, Enumerates, NextIsTable;
    ReadableEncodes(foreign, w, o);
    var low := EncodeLow(w, o.low).value;
    if w.low == map[] {
      EmptyName(foreign, w, rest);
    } else {
      var entries := Entries(o.low, EncodeColumn(w.dataTypes, w.low)).value;
      Regroup([1], entries, rest);
      LongColumn(foreign, w.dataTypes, entries + rest);
    }
    FewerColumns(foreign, w.dataTypes, w.high, o.high, low + rest);
  }

  lemma LowIsMissing(foreign: Foreign, w: Watermark, o: Orders, rest: Bytestring)
    requires Readable(foreign, w) && OrdersOf(w, o) && NextIsTable(w, rest)
    requires w.low != map[] && w.low.Keys != w.dataTypes.Keys
    ensures EncodeLow(w, o.low).Ok?
    ensures TakeLow(foreign, |w.dataTypes|, w.dataTypes, EncodeLow(w, o.low).value + rest) == Err
  {
    hide TakeBool, Bool, Entries, Filled, EncodeColumn, DecodeColumn, TakeColumn, Typed, Enumerates, NextIsTable;
    TableForColumn(foreign, w, rest);
    FewerColumns(foreign, w.dataTypes, w.low, o.low, rest);
    var entries := Entries(o.low, EncodeColumn(w.dataTypes, w.low)).value;
    Regroup(Bool(true), entries, rest);
    BoolRoundTrip(true, entries + rest);
  }

  /** A watermark that does not cover its columns is written, but not read again. */
  lemma UncoveredFails(foreign: Foreign, w: Watermark, o: Orders, rest: Bytestring)
    requires Readable(foreign, w) && OrdersOf(w, o) && !Covers(w) && PlainColumns(w) && NextIsTable(w, rest)
    ensures EncodeWatermark(w, o).Ok? && TakeWatermark(foreign, EncodeWatermark(w, o).value + rest) == Err
  {
    hide Entries, Filled, EncodeColumn, DecodeColumn, EncodeHead, TakeHead, EncodeLow, TakeLow, Typed, Enumerates,
      NextIsTable, PlainColumns, ReadsBack;
    ReadableEncodes(foreign, w, o);
    var head, low := EncodeHead(w, o.types).value, EncodeLow(w, o.low).value;
    var high := Entries(o.high, EncodeColumn(w.dataTypes, w.high)).value;
    HeadRoundTrip(w, o.types, high + (low + rest));
    Regroup(head + high, low, rest);
    Regroup(head, high, low + rest);
    if w.high.Keys != w.dataTypes.Keys {
      HighIsMissing(foreign, w, o, rest);
    } else {
      assert ReadBack(foreign, w.dataTypes, w.high) by { TypedCovers(foreign, w); }
      ColumnsRoundTrip(foreign, w.dataTypes, w.high, o.high, low + rest);
      LowIsMissing(foreign, w, o, rest);
    }
  }

  lemma TypedCovers(foreign: Foreign, w: Watermark)
    requires Readable(foreign, w)
    ensures w.high.Keys == w.dataTypes.Keys ==> ReadBack(foreign, w.dataTypes, w.high)
    ensures Covers(w) <==> WellFormed(foreign, w)
  {
    hide ReadsBack;
  }

  // ---------------------------------------------------------------------------------------------
  // Contexts with such watermarks
  // ---------------------------------------------------------------------------------------------

  lemma TableEncodes(foreign: Foreign, c: Context, o: ContextOrders, table: Bytestring)
    requires ReadableContext(foreign, c) && ContextOrdersOf(c, o) && table in c.watermarks
    ensures EncodeWatermark(c.watermarks[table], o.columns[table]).Ok?
    ensures EncodeTable(c.watermarks, o.columns)(table) ==
            Ok(Sized(table) + EncodeWatermark(c.watermarks[table], o.columns[table]).value)
  {
    hide Readable, OrdersOf, EncodeWatermark, Sized;
    ReadableEncodes(foreign, c.watermarks[table], o.columns[table]);
  }

  lemma FollowedByTable(foreign: Foreign, c: Context, o: ContextOrders, w: Watermark, order: seq<Bytestring>)
    requires ReadableContext(foreign, c) && ContextOrdersOf(c, o) && PlainNames(c)
    requires w.low != map[] ==> w.dataTypes.Keys !! c.watermarks.Keys
    requires forall i :: 0 <= i < |order| ==> order[i] in c.watermarks
    ensures Entries(order, EncodeTable(c.watermarks, o.columns)).Ok?
    ensures NextIsTable(w, Entries(order, EncodeTable(c.watermarks, o.columns)).value)
  {
    hide Readable, OrdersOf, EncodeTable, EncodeWatermark, Sized, Covers, PlainColumns;
    if order != [] {
      var encode := EncodeTable(c.watermarks, o.columns);
      forall i | 0 <= i < |order| ensures encode(order[i]).Ok? {
        TableEncodes(foreign, c, o, order[i]);
      }
      EntriesFirst(order, encode);
      TableEncodes(foreign, c, o, order[0]);
      var body := EncodeWatermark(c.watermarks[order[0]], o.columns[order[0]]).value;
      var others := Entries(order[1..], encode).value;
      Regroup(Sized(order[0]), body, others);
      assert order[0] in c.watermarks.Keys;
      assert IsTable(w, Entries(order, encode).value, order[0], body + others);
    }
  }

  /** The table at `k` is the first that does not cover its columns. */
  lemma {:induction false} FirstUncovered(c: Context, order: seq<Bytestring>) returns (k: nat)
    requires forall i :: 0 <= i < |order| ==> order[i] in c.watermarks
    requires exists i :: 0 <= i < |order| && !Covers(c.watermarks[order[i]])
    ensures k < |order| && !Covers(c.watermarks[order[k]])
    ensures forall i :: 0 <= i < k ==> Covers(c.watermarks[order[i]])
  {
    hide Covers;
    var n := |order| - 1;
    if i :| 0 <= i < n && !Covers(c.watermarks[order[i]]) {
      assert order[..n][i] == order[i];
      k := FirstUncovered(c, order[..n]);
    } else {
      k := n;
    }
  }

  lemma TablesBeforeRead(foreign: Foreign, c: Context, o: ContextOrders, k: nat, rest: Bytestring)
    requires ReadableContext(foreign, c) && ContextOrdersOf(c, o) && k <= |o.tables|
    requires forall i :: 0 <= i < k ==> o.tables[i] in c.watermarks && Covers(c.watermarks[o.tables[i]])
    ensures Entries(o.tables[..k], EncodeTable(c.watermarks, o.columns)).Ok?
    ensures var filled := Filled(k, map[], Entries(o.tables[..k], EncodeTable(c.watermarks, o.columns)).value + rest,
                                 DecodeTable(foreign));
            filled.Ok? && filled.value.1 == rest
  {
    hide Readable, Covers, WellFormed, OrdersOf, EncodeTable, DecodeTable, Inverts, Entries, Filled;
    var encode := EncodeTable(c.watermarks, o.columns);
    var before := o.tables[..k];
    forall i | 0 <= i < k ensures Inverts(encode, DecodeTable(foreign), before[i], c.watermarks[before[i]]) {
      TypedCovers(foreign, c.watermarks[before[i]]);
      TableInverts(foreign, c.watermarks, o.columns, before[i]);
    }
    FilledFromEntries(before, c.watermarks, map[], rest, encode, DecodeTable(foreign));
  }

  lemma UncoveredTableFails(foreign: Foreign, c: Context, o: ContextOrders, table: Bytestring, rest: Bytestring)
    requires ReadableContext(foreign, c) && ContextOrdersOf(c, o) && PlainNames(c)
    requires table in c.watermarks && !Covers(c.watermarks[table]) && NextIsTable(c.watermarks[table], rest)
    ensures EncodeTable(c.watermarks, o.columns)(table).Ok?
    ensures DecodeTable(foreign)(EncodeTable(c.watermarks, o.columns)(table).value + rest) == Err
  {
    hide Sized, TakeSized, EncodeWatermark, TakeWatermark, Readable, Covers, PlainColumns, OrdersOf, NextIsTable;
    TableEncodes(foreign, c, o, table);
    UncoveredFails(foreign, c.watermarks[table], o.columns[table], rest);
    var body := EncodeWatermark(c.watermarks[table], o.columns[table]).value;
    Regroup(Sized(table), body, rest);
    SizedRoundTrip(table, body + rest);
  }

  lemma KeysAreListed(c: Context, o: ContextOrders)
    requires ContextOrdersOf(c, o)
    ensures |o.tables| == |c.watermarks|
    ensures forall i :: 0 <= i < |o.tables| ==> o.tables[i] in c.watermarks
    ensures forall table :: table in c.watermarks ==> exists i :: 0 <= i < |o.tables| && o.tables[i] == table
  {
    hide OrdersOf;
    EnumerationSize(o.tables, c.watermarks.Keys);
    assert |c.watermarks| == |c.watermarks.Keys|;
    assert forall i :: 0 <= i < |o.tables| ==> o.tables[i] in o.tables;
  }

  lemma FailsFrom(foreign: Foreign, c: Context, o: ContextOrders, k: nat)
    requires ReadableContext(foreign, c) && ContextOrdersOf(c, o) && PlainNames(c) && k < |o.tables|
    requires forall i :: 0 <= i < |o.tables| ==> o.tables[i] in c.watermarks
    requires !Covers(c.watermarks[o.tables[k]])
    ensures Entries(o.tables[k..], EncodeTable(c.watermarks, o.columns)).Ok?
    ensures DecodeTable(foreign)(Entries(o.tables[k..], EncodeTable(c.watermarks, o.columns)).value) == Err
  {
    hide Readable, Covers, PlainColumns, OrdersOf, EncodeTable, DecodeTable, Entries, NextIsTable, Enumerates;
    var encode := EncodeTable(c.watermarks, o.columns);
    var after := o.tables[k..];
    forall i | 0 <= i < |after| ensures encode(after[i]).Ok? {
      TableEncodes(foreign, c, o, after[i]);
    }
    EntriesFirst(after, encode);
    FollowedByTable(foreign, c, o, c.watermarks[after[0]], after[1..]);
    UncoveredTableFails(foreign, c, o, after[0], Entries(after[1..], encode).value);
  }

  lemma UncoveredIsListed(c: Context, o: ContextOrders) returns (k: nat)
    requires ContextOrdersOf(c, o) && !Covered(c)
    ensures |o.tables| == |c.watermarks| && (forall i :: 0 <= i < |o.tables| ==> o.tables[i] in c.watermarks)
    ensures k < |o.tables| && !Covers(c.watermarks[o.tables[k]])
    ensures forall i :: 0 <= i < k ==> Covers(c.watermarks[o.tables[i]])
  {
    hide Covers, OrdersOf, Enumerates;
    KeysAreListed(c, o);
    k := FirstUncovered(c, o.tables);
  }

  lemma AllEncode(foreign: Foreign, c: Context, o: ContextOrders, k: nat)
    requires ReadableContext(foreign, c) && ContextOrdersOf(c, o) && k <= |o.tables|
    requires forall i :: 0 <= i < |o.tables| ==> o.tables[i] in c.watermarks
    ensures var encode := EncodeTable(c.watermarks, o.columns);
            && Entries(o.tables, encode).Ok? && Entries(o.tables[..k], encode).Ok? && Entries(o.tables[k..], encode).Ok?
            && Entries(o.tables, encode).value ==
               Entries(o.tables[..k], encode).value + Entries(o.tables[k..], encode).value
  {
    hide Readable, OrdersOf, EncodeTable, Entries, Enumerates, EncodeWatermark, Sized;
    var encode := EncodeTable(c.watermarks, o.columns);
    forall i | 0 <= i < |o.tables| ensures encode(o.tables[i]).Ok? {
      TableEncodes(foreign, c, o, o.tables[i]);
    }
    EntriesInTwo(o.tables, k, encode);
  }

  lemma TablesFail(foreign: Foreign, c: Context, o: ContextOrders)
    requires ReadableContext(foreign, c) && ContextOrdersOf(c, o) && PlainNames(c) && !Covered(c)
    ensures Entries(o.tables, EncodeTable(c.watermarks, o.columns)).Ok?
    ensures Filled(|c.watermarks|, map[], Entries(o.tables, EncodeTable(c.watermarks, o.columns)).value,
                   DecodeTable(foreign)) == Err
  {
    hide Readable, Covers, PlainColumns, OrdersOf, EncodeTable, DecodeTable, Entries, Filled, Enumerates, PlainNames,
      Covered, ContextOrdersOf, ReadableContext;
    var encode := EncodeTable(c.watermarks, o.columns);
    var k := UncoveredIsListed(c, o);
    AllEncode(foreign, c, o, k);
    FailsFrom(foreign, c, o, k);
    var before, rest := Entries(o.tables[..k], encode).value, Entries(o.tables[k..], encode).value;
    TablesBeforeRead(foreign, c, o, k, rest);
    FilledThenFails(k, |o.tables| - k, before + rest, DecodeTable(foreign));
  }

  /** If any watermark of the context does not cover its columns, the context is written, but cannot be read back,
      whatever the iteration orders. */
  lemma UncoveredIsLost(foreign: Foreign, c: Context, o: ContextOrders)
    requires ReadableContext(foreign, c) && ContextOrdersOf(c, o) && PlainNames(c) && !Covered(c)
    ensures Encode(c, o).Ok? && Decode(foreign, map[], Encode(c, o).value) == Err
  {
    hide Sized, Bool, Entries, Filled, EncodeTable, DecodeTable, BigEndian, ContextOrdersOf, Readable, Decode, Covered,
      PlainNames;
    TablesFail(foreign, c, o);
    var tables := Entries(o.tables, EncodeTable(c.watermarks, o.columns)).value;
    FrameRoundTrip(foreign, map[], c.name, c.complete, |c.watermarks|, tables);
  }

  /** A context comes back if and only if every watermark covers its columns, every value has the Go type of its column
      and every name and count fits into 32 bits. Names are plain, unless all watermarks cover their columns. */
  lemma ContextRoundTripExactly(foreign: Foreign, c: Context, o: ContextOrders)
    requires ContextOrdersOf(c, o) && (Covered(c) || PlainNames(c))
    ensures Encode(c, o).Ok? && Decode(foreign, map[], Encode(c, o).value) == Ok(c) <==>
              ReadableContext(foreign, c) && Covered(c)
  {
    hide Encode, Decode, Readable, Covers, WellFormed, ContextOrdersOf, PlainNames;
    if ReadableContext(foreign, c) && Covered(c) {
      forall table | table in c.watermarks ensures WellFormed(foreign, c.watermarks[table]) {
        TypedCovers(foreign, c.watermarks[table]);
      }
      ContextRoundTrip(foreign, c, o);
    } else if Encode(c, o).Ok? && Decode(foreign, map[], Encode(c, o).value) == Ok(c) {
      DecodedIsReadable(foreign, Encode(c, o).value);
      UncoveredIsLost(foreign, c, o);
    }
  }

  /** A watermark as it is created: column types, but no high watermark yet. */
  ghost predicate Fresh(w: Watermark) {
    && w.high == map[] && w.low == map[] && w.dataTypes != map[] && [] !in w.dataTypes
    && |w.dataTypes| < UINT32
    && forall column :: column in w.dataTypes ==> |column| < UINT32
  }

  /** Every table reads back or is fresh, and has a short name. */
  ghost predicate ReadOrFresh(foreign: Foreign, c: Context) {
    && |c.name| < UINT32 && |c.watermarks| < UINT32
    && forall table :: table in c.watermarks ==>
         |table| < 256 && (WellFormed(foreign, c.watermarks[table]) || Fresh(c.watermarks[table]))
  }

  lemma FreshIsUncovered(foreign: Foreign, w: Watermark)
    requires WellFormed(foreign, w) || Fresh(w)
    ensures Readable(foreign, w)
    ensures Covers(w) <==> WellFormed(foreign, w)
    ensures Fresh(w) ==> !Covers(w)
    ensures !Covers(w) ==> PlainColumns(w) && w.low == map[]
  {
    hide ReadsBack;
    if Fresh(w) {
      var column :| column in w.dataTypes;
      assert column in w.dataTypes.Keys && column !in w.high.Keys;
    }
  }

  /** If any table of the context is fresh, the context cannot be read back, whatever the iteration orders. */
  lemma FreshWatermarkIsLost(foreign: Foreign, c: Context, o: ContextOrders, table: Bytestring)
    requires ReadOrFresh(foreign, c) && ContextOrdersOf(c, o) && table in c.watermarks && Fresh(c.watermarks[table])
    ensures Encode(c, o).Ok? && Decode(foreign, map[], Encode(c, o).value) == Err
  {
    hide Encode, Decode, WellFormed, Fresh, Readable, Covers, PlainColumns, ContextOrdersOf;
    forall t | t in c.watermarks
      ensures Readable(foreign, c.watermarks[t])
      ensures !Covers(c.watermarks[t]) ==> PlainColumns(c.watermarks[t]) && c.watermarks[t].low == map[]
    {
      FreshIsUncovered(foreign, c.watermarks[t]);
    }
    FreshIsUncovered(foreign, c.watermarks[table]);
    UncoveredIsLost(foreign, c, o);
  }

  /** One table with one column: the name of the snapshot, its completeness, a count, the name of the table, its
      completeness, a count, the column and its type, the column and its high value, and the column and its low value
      behind a flag. */
  lemma OneTable(c: Context, table: Bytestring, w: Watermark, column: Bytestring)
    requires c.watermarks == map[table := w] && w.dataTypes.Keys == w.high.Keys == w.low.Keys == {column}
    requires Marshal(w.dataTypes[column], w.high[column]).Ok? && Marshal(w.dataTypes[column], w.low[column]).Ok?
    ensures var oid := w.dataTypes[column];
            var types := Bool(w.complete) + BigEndian(1, 4) + (Sized(column) + BigEndian(oid, 4));
            var high := Sized(column) + Marshal(oid, w.high[column]).value;
            var low := Bool(true) + (Sized(column) + Marshal(oid, w.low[column]).value);
            Encode(c, ContextOrders([table], map[table := Orders([column], [column], [column])])) ==
            Ok(Sized(c.name) + Bool(c.complete) + BigEndian(1, 4) + (Sized(table) + (types + high + low)))
  {
    hide BigEndian, Sized, Marshal, Bool, Entries, EncodeWatermark;
    var o := Orders([column], [column], [column]);
    OneColumn(w, column);
    OneEntry(table, EncodeTable(c.watermarks, map[table := o]));
    assert |c.watermarks| == 1;
  }

  lemma OneColumn(w: Watermark, column: Bytestring)
    requires w.dataTypes.Keys == w.high.Keys == w.low.Keys == {column}
    requires Marshal(w.dataTypes[column], w.high[column]).Ok? && Marshal(w.dataTypes[column], w.low[column]).Ok?
    ensures var oid := w.dataTypes[column];
            var types := Bool(w.complete) + BigEndian(1, 4) + (Sized(column) + BigEndian(oid, 4));
            var high := Sized(column) + Marshal(oid, w.high[column]).value;
            var low := Bool(true) + (Sized(column) + Marshal(oid, w.low[column]).value);
            EncodeWatermark(w, Orders([column], [column], [column])) == Ok(types + high + low)
  {
    hide BigEndian, Sized, Marshal, Bool, Entries;
    assert column in w.dataTypes.Keys && column in w.high.Keys && column in w.low.Keys;
    assert |w.dataTypes| == |w.dataTypes.Keys| == 1;
    OneEntry(column, EncodeType(w.dataTypes));
    OneEntry(column, EncodeColumn(w.dataTypes, w.high));
    OneEntry(column, EncodeColumn(w.dataTypes, w.low));
  }
}
