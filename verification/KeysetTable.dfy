/** Tables under an exported snapshot, the batch query on them, and the batches that follow from it. */
module KeysetTable {
  import opened Wrappers

  // ---------------------------------------------------------------------------------------------
  // Keys and tables
  // ---------------------------------------------------------------------------------------------

  /** Column values by column name; integers stand for any totally ordered column type. */
  type Values = map<string, int>

  type Key = seq<int>

  /** Row comparison of PostgreSQL, section 9.24.5 of its documentation: left to right, first difference decides. */
  predicate Less(a: Key, b: Key)
    requires |a| == |b|
  {
    a != [] && (a[0] < b[0] || (a[0] == b[0] && Less(a[1..], b[1..])))
  }

  lemma {:induction false} LessTransitive(a: Key, b: Key, c: Key)
    requires |a| == |b| == |c| && Less(a, b) && Less(b, c)
    ensures Less(a, c)
  {
    if a[0] == b[0] == c[0] {
      LessTransitive(a[1..], b[1..], c[1..]);
    }
  }

  lemma {:induction false} LessIrreflexive(a: Key)
    ensures !Less(a, a)
  {
    if a != [] {
      LessIrreflexive(a[1..]);
    }
  }

  /** The first column in which the keys differ decides. */
  lemma {:induction false} LessExactly(a: Key, b: Key)
    requires |a| == |b|
    ensures Less(a, b) <==> exists k :: 0 <= k < |a| && a[..k] == b[..k] && a[k] < b[k]
  {
    if a != [] {
      LessExactly(a[1..], b[1..]);
      if Less(a, b) {
        if a[0] < b[0] {
          assert a[..0] == b[..0];
        } else {
          var k :| 0 <= k < |a[1..]| && a[1..][..k] == b[1..][..k] && a[1..][k] < b[1..][k];
          assert a[..k + 1] == [a[0]] + a[1..][..k] && b[..k + 1] == [b[0]] + b[1..][..k];
          assert a[k + 1] < b[k + 1];
        }
      }
      if k :| 0 <= k < |a| && a[..k] == b[..k] && a[k] < b[k] {
        if k > 0 {
          assert a[0] == a[..k][0] == b[..k][0] == b[0];
          assert a[1..][..k - 1] == a[..k][1..] && b[1..][..k - 1] == b[..k][1..];
          assert a[1..][k - 1] < b[1..][k - 1];
        }
      }
    }
  }

  lemma {:induction false} LessTotal(a: Key, b: Key)
    requires |a| == |b|
    ensures a == b || Less(a, b) || Less(b, a)
  {
    if a != [] && a[0] == b[0] {
      LessTotal(a[1..], b[1..]);
      assert a == [a[0]] + a[1..] && b == [b[0]] + b[1..];
    }
  }

  /** The key of a set of values in the order of the index columns, if no column is missing. */
  function KeyOf(columns: seq<string>, values: Values): (key: Option<Key>)
    ensures key.Some? <==> forall i :: 0 <= i < |columns| ==> columns[i] in values
    ensures key.Some? ==> |key.value| == |columns|
  {
    if columns == [] then Some([])
    else if columns[0] !in values then None
    else
      var rest := KeyOf(columns[1..], values);
      if rest.None? then None else Some([values[columns[0]]] + rest.value)
  }

  /** The key holds the value of each column at the place of the column. */
  lemma {:induction false} KeyValues(columns: seq<string>, values: Values, i: nat)
    requires KeyOf(columns, values).Some? && i < |columns|
    ensures KeyOf(columns, values).value[i] == values[columns[i]]
  {
    if i > 0 {
      KeyValues(columns[1..], values, i - 1);
    }
  }

  function Pick(columns: seq<string>, values: Values): Values {
    map c | c in values && c in columns :: values[c]
  }

  /** Rows with equal keys have equal values in the index columns. */
  lemma SameKeySamePick(columns: seq<string>, a: Values, b: Values)
    requires KeyOf(columns, a).Some? && KeyOf(columns, a) == KeyOf(columns, b)
    ensures Pick(columns, a) == Pick(columns, b)
  {
    forall c | c in columns ensures c in a && c in b && a[c] == b[c] {
      var i :| 0 <= i < |columns| && columns[i] == c;
      KeyValues(columns, a, i);
      KeyValues(columns, b, i);
    }
  }

  lemma KeyOfPick(columns: seq<string>, values: Values)
    ensures KeyOf(columns, Pick(columns, values)) == KeyOf(columns, values)
  {
    var picked, key := KeyOf(columns, Pick(columns, values)), KeyOf(columns, values);
    assert forall i :: 0 <= i < |columns| ==> columns[i] in columns;
    if key.Some? {
      forall i | 0 <= i < |columns| ensures picked.value[i] == key.value[i] {
        KeyValues(columns, Pick(columns, values), i);
        KeyValues(columns, values, i);
      }
      assert picked.value == key.value;
    }
  }

  datatype Table = Table(columns: seq<string>, rows: seq<Values>) {

    /** The index columns are different, every row has them, and the rows are listed in ascending key order. Ties are
        allowed, as in an index over the dimensions of a hypertable. */
    ghost predicate Valid() {
      && columns != []
      && (forall i, j :: 0 <= i < j < |columns| ==> columns[i] != columns[j])
      && (forall i :: 0 <= i < |rows| ==> KeyOf(columns, rows[i]).Some?)
      && (forall i, j :: 0 <= i < j < |rows| ==> KeyAt(i) == KeyAt(j) || Less(KeyAt(i), KeyAt(j)))
    }

    ghost function KeyAt(i: nat): Key
      requires i < |rows| && KeyOf(columns, rows[i]).Some?
    {
      KeyOf(columns, rows[i]).value
    }

    /** No two rows have the same key, as in a primary key. */
    ghost predicate Unique()
      requires Valid()
    {
      forall i :: 0 < i < |rows| ==> KeyAt(i) != KeyAt(i - 1)
    }
  }

  // ---------------------------------------------------------------------------------------------
  // The high watermark query
  // ---------------------------------------------------------------------------------------------

  /** The query as it is written asks for the index columns as one tuple. In parentheses a single column is that
      column, while several columns are one composite field named row, which the row decoder gives some value or
      rejects. The query as it is intended asks for the columns one by one. */
  datatype HighQuery = AsWritten(composite: Option<int>) | AsIntended

  /** The values of the first row in descending order, nothing for an empty table; `None` is an error. */
  function HighWatermark(t: Table, query: HighQuery): Option<Values> {
    if t.rows == [] then Some(map[])
    else if query.AsIntended? || |t.columns| == 1 then Some(Pick(t.columns, t.rows[|t.rows| - 1]))
    else if query.composite.Some? then Some(map["row" := query.composite.value])
    else None
  }

  /** There is a highest row, and the query finds its key. */
  predicate Findable(t: Table, query: HighQuery) {
    t.rows != [] && (query.AsIntended? || |t.columns| == 1)
  }

  /** Unless the query finds the key of the highest row, the high watermark lacks a column of the index. */
  lemma HighWatermarkExactly(t: Table, query: HighQuery)
    requires t.Valid()
    ensures HighWatermark(t, query).Some? && KeyOf(t.columns, HighWatermark(t, query).value).Some? <==>
              Findable(t, query)
    ensures Findable(t, query) ==> HighWatermark(t, query).value == Pick(t.columns, t.rows[|t.rows| - 1])
  {
    if Findable(t, query) {
      KeyOfPick(t.columns, t.rows[|t.rows| - 1]);
    } else if t.rows == [] {
      assert t.columns[0] !in HighWatermark(t, query).value;
    } else {
      assert t.columns[0] != "row" || t.columns[1] != "row";
    }
  }

  // ---------------------------------------------------------------------------------------------
  // The batch query
  // ---------------------------------------------------------------------------------------------

  datatype Bounds = Bounds(low: Option<Key>, high: Key)

  predicate Within(b: Bounds, key: Key)
    requires |b.high| == |key| && (b.low.Some? ==> |b.low.value| == |key|)
  {
    (b.low.Some? ==> Less(b.low.value, key)) && (key == b.high || Less(key, b.high))
  }

  /** The rows from position `i` on that lie within the bounds, ascending. */
  function Matching(t: Table, b: Bounds, i: nat): seq<Values>
    requires |b.high| == |t.columns| && (b.low.Some? ==> |b.low.value| == |t.columns|)
    requires i <= |t.rows|
    decreases |t.rows| - i
  {
    if i == |t.rows| then []
    else
      var key := KeyOf(t.columns, t.rows[i]);
      (if key.Some? && Within(b, key.value) then [t.rows[i]] else []) + Matching(t, b, i + 1)
  }

  lemma {:induction false} MatchingLength(t: Table, b: Bounds, i: nat)
    requires |b.high| == |t.columns| && (b.low.Some? ==> |b.low.value| == |t.columns|)
    requires i <= |t.rows|
    ensures |Matching(t, b, i)| <= |t.rows| - i
    decreases |t.rows| - i
  {
    if i < |t.rows| {
      MatchingLength(t, b, i + 1);
    }
  }

  function Limit(rows: seq<Values>, n: nat): seq<Values> {
    if |rows| <= n then rows else rows[..n]
  }

  /** The first row behind position `e` whose key differs from the key of the row in front of `e`. */
  ghost function Skip(t: Table, e: nat): (p: nat)
    requires t.Valid() && e <= |t.rows|
    ensures e <= p <= |t.rows| && (e == 0 ==> p == 0)
    ensures e > 0 ==> t.KeyAt(p - 1) == t.KeyAt(e - 1)
    ensures 0 < p < |t.rows| ==> t.KeyAt(p) != t.KeyAt(p - 1)
    decreases |t.rows| - e
  {
    if e == 0 || e == |t.rows| || t.KeyAt(e) != t.KeyAt(e - 1) then e else Skip(t, e + 1)
  }

  /** No tie reaches across position `p`. */
  ghost predicate Between(t: Table, p: nat)
    requires t.Valid()
  {
    p <= |t.rows| && (0 < p < |t.rows| ==> t.KeyAt(p) != t.KeyAt(p - 1))
  }

  /** Bounds that cut the table after its first `p` rows and at its end. */
  ghost predicate CutsAt(t: Table, b: Bounds, p: nat)
    requires t.Valid()
  {
    && 0 < |t.rows| && Between(t, p)
    && b.high == t.KeyAt(|t.rows| - 1)
    && b.low == if p == 0 then None else Some(t.KeyAt(p - 1))
  }

  lemma WithinSuffix(t: Table, b: Bounds, p: nat, i: nat)
    requires t.Valid() && CutsAt(t, b, p) && i < |t.rows|
    ensures Within(b, t.KeyAt(i)) <==> p <= i
  {
    if p > 0 {
      var low := t.KeyAt(p - 1);
      LessIrreflexive(low);
      if i < p {
        if Less(low, t.KeyAt(i)) && i < p - 1 && t.KeyAt(i) != low {
          LessTransitive(low, t.KeyAt(i), low);
        }
      } else if i > p && t.KeyAt(p) != t.KeyAt(i) {
        LessTransitive(low, t.KeyAt(p), t.KeyAt(i));
      }
    }
  }

  lemma {:induction false} MatchingIsSuffix(t: Table, b: Bounds, p: nat, i: nat)
    requires t.Valid() && CutsAt(t, b, p) && i <= |t.rows|
    ensures Matching(t, b, i) == t.rows[if i <= p then p else i..]
    decreases |t.rows| - i
  {
    if i < |t.rows| {
      MatchingIsSuffix(t, b, p, i + 1);
      WithinSuffix(t, b, p, i);
      if p <= i {
        assert t.rows[i..] == [t.rows[i]] + t.rows[i + 1..];
      }
    }
  }

  // ---------------------------------------------------------------------------------------------
  // The batches of a snapshot
  // ---------------------------------------------------------------------------------------------

  /** One attempt to read a batch: the rows handed on from position `from`, and whether the
      new watermark was stored. */
  datatype Batch = Batch(from: nat, rows: seq<Values>, stored: bool) {
    function End(): nat { from + |rows| }
  }

  /** The length of a batch of at most `size` rows that starts after `p` rows. */
  function Length(t: Table, size: nat, p: nat): nat
    requires p <= |t.rows|
  {
    if |t.rows| - p <= size then |t.rows| - p else size
  }

  /** The batches from position `p` on if none of them fails: each starts at the first key above the last one. */
  ghost function Plan(t: Table, size: nat, p: nat): seq<Batch>
    requires t.Valid() && size > 0 && p <= |t.rows|
    decreases |t.rows| - p
  {
    if p == |t.rows| then []
    else
      var e := p + Length(t, size, p);
      [Batch(p, t.rows[p..e], true)] + Plan(t, size, Skip(t, e))
  }

  function RowsOf(batches: seq<Batch>): seq<Values> {
    if batches == [] then [] else batches[0].rows + RowsOf(batches[1..])
  }

  /** No tie reaches across the end of a full batch, counted from position `p`. */
  ghost predicate Untied(t: Table, size: nat, p: nat)
    requires t.Valid() && size > 0
    decreases |t.rows| - p
  {
    p + size < |t.rows| ==> Between(t, p + size) && Untied(t, size, p + size)
  }

  lemma PlanStep(t: Table, size: nat, p: nat)
    requires t.Valid() && size > 0 && p < |t.rows|
    ensures var e := p + Length(t, size, p);
            && Plan(t, size, p) == [Batch(p, t.rows[p..e], true)] + Plan(t, size, Skip(t, e))
            && RowsOf(Plan(t, size, p)) == t.rows[p..e] + RowsOf(Plan(t, size, Skip(t, e)))
  {
    hide Table.Valid, Skip, KeyOf;
    var e := p + Length(t, size, p);
    RowsOfFirst(Batch(p, t.rows[p..e], true), Plan(t, size, Skip(t, e)));
  }

  lemma RowsOfFirst(b: Batch, batches: seq<Batch>)
    ensures RowsOf([b] + batches) == b.rows + RowsOf(batches)
  {
    assert ([b] + batches)[1..] == batches;
  }

  lemma PlanEnd(t: Table, size: nat)
    requires t.Valid() && size > 0
    ensures RowsOf(Plan(t, size, |t.rows|)) == [] == t.rows[|t.rows|..]
  {
  }

  lemma SkipMeansTie(t: Table, e: nat)
    requires t.Valid() && e <= |t.rows|
    ensures Skip(t, e) == e <==> Between(t, e)
  {
  }

  lemma {:induction false} PlanShort(t: Table, size: nat, p: nat)
    requires t.Valid() && size > 0 && p <= |t.rows|
    ensures |RowsOf(Plan(t, size, p))| <= |t.rows| - p
    decreases |t.rows| - p
  {
    hide Table.Valid;
    if p < |t.rows| {
      hide Plan, RowsOf;
      PlanStep(t, size, p);
      PlanShort(t, size, Skip(t, p + Length(t, size, p)));
    }
  }

  lemma {:induction false} PlanRows(t: Table, size: nat, p: nat)
    requires t.Valid() && size > 0 && p <= |t.rows|
    ensures RowsOf(Plan(t, size, p)) == t.rows[p..] <==> Untied(t, size, p)
    decreases |t.rows| - p
  {
    hide Table.Valid, Skip, KeyOf, RowsOf, Plan, Between;
    if p == |t.rows| {
      PlanEnd(t, size);
    } else {
      var e := p + Length(t, size, p);
      var next := Skip(t, e);
      PlanStep(t, size, p);
      PlanShort(t, size, next);
      SkipMeansTie(t, e);
      SameSuffix(t.rows, p, e, RowsOf(Plan(t, size, next)));
      if next == e {
        PlanRows(t, size, e);
      }
    }
  }

  lemma SameSuffix(rows: seq<Values>, p: nat, e: nat, tail: seq<Values>)
    requires p <= e <= |rows|
    ensures rows[p..e] + tail == rows[p..] <==> tail == rows[e..]
  {
    assert rows[p..] == rows[p..e] + rows[e..];
    if rows[p..e] + tail == rows[p..] {
      assert tail == (rows[p..e] + tail)[e - p..] && rows[e..] == rows[p..][e - p..];
    }
  }

  /** The end of the `k`th full batch, as long as nothing has been skipped. */
  function Boundary(size: nat, k: nat): nat {
    size * k
  }

  ghost predicate NoTieAtBoundary(t: Table, size: nat)
    requires t.Valid()
  {
    forall k: nat :: 1 <= k && Boundary(size, k) < |t.rows| ==> Between(t, Boundary(size, k))
  }

  lemma {:induction false} UntiedFrom(t: Table, size: nat, j: nat)
    requires t.Valid() && size > 0
    ensures Untied(t, size, Boundary(size, j)) <==>
              forall k: nat :: j < k && Boundary(size, k) < |t.rows| ==> Between(t, Boundary(size, k))
    decreases |t.rows| - Boundary(size, j)
  {
    hide Table.Valid, Between, Boundary;
    var p := Boundary(size, j);
    BoundaryNext(size, j);
    if p + size < |t.rows| {
      UntiedFrom(t, size, j + 1);
    } else {
      forall k: nat | j < k ensures Boundary(size, k) >= |t.rows| {
        BoundaryGrows(size, j + 1, k);
      }
    }
  }

  lemma BoundaryNext(size: nat, j: nat)
    ensures Boundary(size, j + 1) == Boundary(size, j) + size
  {
  }

  lemma BoundaryGrows(size: nat, j: nat, k: nat)
    requires j <= k
    ensures Boundary(size, j) <= Boundary(size, k)
  {
    assert size * k == size * j + size * (k - j);
  }

  /** Reading all batches hands on the table, every row once and in order, if and only if at every multiple of the batch
      length the key differs from the key of the row before. */
  lemma PlanKeepsAllRows(t: Table, size: nat)
    requires t.Valid() && size > 0
    ensures RowsOf(Plan(t, size, 0)) == t.rows <==> NoTieAtBoundary(t, size)
  {
    PlanRows(t, size, 0);
    UntiedFrom(t, size, 0);
    assert Boundary(size, 0) == 0 && t.rows[0..] == t.rows;
  }

  lemma UniqueHasNoTies(t: Table, size: nat)
    requires t.Valid() && t.Unique()
    ensures NoTieAtBoundary(t, size)
  {
  }

  // ---------------------------------------------------------------------------------------------
  // Two tables
  // ---------------------------------------------------------------------------------------------

  /** Eleven rows, the last two at the same time. */
  function Measurements(): Table {
    Table(["time"], seq(11, i => map["time" := if i < 10 then i else 9]))
  }

  lemma MeasurementKeys()
    ensures Measurements().Valid()
    ensures forall i :: 0 <= i < 11 ==> Measurements().KeyAt(i) == [if i < 10 then i else 9]
  {
    var t := Measurements();
    forall i | 0 <= i < 11 ensures KeyOf(t.columns, t.rows[i]) == Some([if i < 10 then i else 9]) {
      assert t.columns[0] in t.rows[i];
      var key := KeyOf(t.columns, t.rows[i]).value;
      KeyValues(t.columns, t.rows[i], 0);
      assert key == [if i < 10 then i else 9];
    }
  }

  /** In batches of ten the last row is never read: the first batch ends at the highest key. */
  lemma LastMeasurementIsLost()
    ensures Measurements().Valid()
    ensures Plan(Measurements(), 10, 0) == [Batch(0, Measurements().rows[..10], true)]
    ensures RowsOf(Plan(Measurements(), 10, 0)) != Measurements().rows
  {
    var t := Measurements();
    MeasurementKeys();
    assert Skip(t, 10) == Skip(t, 11) == 11;
    assert t.rows[0..10] == t.rows[..10];
    assert Plan(t, 10, 0)[1..] == [];
  }

  /** A table whose index has two columns. */
  function Devices(): Table {
    Table(["device", "time"], [map["device" := 1, "time" := 1]])
  }

  /** The query as it is written finds no high watermark for it, the intended one does. */
  lemma TwoColumnsAreNotFound(composite: Option<int>)
    ensures Devices().Valid()
    ensures HighWatermark(Devices(), AsWritten(composite)).Some? ==>
              KeyOf(Devices().columns, HighWatermark(Devices(), AsWritten(composite)).value).None?
    ensures KeyOf(Devices().columns, HighWatermark(Devices(), AsIntended).value) == Some([1, 1])
  {
    var t := Devices();
    assert t.columns[0] in t.rows[0] && t.columns[1] in t.rows[0];
    HighWatermarkExactly(t, AsWritten(composite));
    KeyOfPick(t.columns, t.rows[0]);
    KeyValues(t.columns, t.rows[0], 0);
    KeyValues(t.columns, t.rows[0], 1);
    assert KeyOf(t.columns, t.rows[0]).value == [1, 1];
  }
}
