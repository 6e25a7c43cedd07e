/** The resumable snapshot of one table: batches of rows above a low watermark, up to the highest key
    of an exported snapshot, with the watermark stored only after a batch has been read completely. */
module KeysetSnapshot {
  import opened Wrappers
  import opened KeysetTable

  // ---------------------------------------------------------------------------------------------
  // Watermarks
  // ---------------------------------------------------------------------------------------------

  /** A watermark as it is kept in the stored snapshot context. */
  datatype Mark = Mark(complete: bool, high: Values, low: Values)

  ghost predicate Covers(high: Values, low: Values) {
    forall c :: c in high ==> c in low && low[c] == high[c]
  }

  class Watermark {
    var complete: bool
    var high: Values
    var low: Values

    constructor (mark: Mark)
      ensures complete == mark.complete && high == mark.high && low == mark.low
    {
      complete, high, low := mark.complete, mark.high, mark.low;
    }

    method SetLowWatermark(values: Values)
      modifies this`low, this`complete
      ensures low == values && (complete <==> Covers(high, low))
    {
      low := values;
      var todo := high.Keys;
      complete := true;
      while todo != {}
        invariant todo <= high.Keys
        invariant complete <==> forall c :: c in high && c !in todo ==> c in low && low[c] == high[c]
      {
        var c :| c in todo;
        if c !in low || high[c] != low[c] {
          complete := false;
          break;
        }
        todo := todo - {c};
      }
    }
  }

  lemma {:induction false} CoversDecidesKey(columns: seq<string>, high: Values, low: Values)
    requires Covers(high, low) && KeyOf(columns, high).Some?
    ensures KeyOf(columns, low) == KeyOf(columns, high)
  {
    if columns != [] {
      assert columns[0] in high;
      assert KeyOf(columns[1..], high).Some?;
      CoversDecidesKey(columns[1..], high, low);
    }
  }

  // ---------------------------------------------------------------------------------------------
  // The snapshotter
  // ---------------------------------------------------------------------------------------------

  /** The attempt fails after handing on this many rows and ends the process; the restarted process
      finds the snapshot context that was saved last, or an earlier one. */
  datatype Fault = Fault(rows: nat, saved: Option<nat>)

  datatype Attempt = Finished | Requeued | Failed

  class Snapshotter {
    const table: Table
    const query: HighQuery
    const batchSize: nat
    var stored: Option<Mark>
    var saved: seq<Option<Mark>>
    var log: seq<Batch>

    constructor (table: Table, query: HighQuery, batchSize: nat)
      ensures this.table == table && this.query == query && this.batchSize == batchSize
      ensures stored == None && saved == [None] && log == []
    {
      this.table := table;
      this.query := query;
      this.batchSize := batchSize;
      stored := None;
      saved := [None];
      log := [];
    }

    /** The end of a snapshot context transaction. */
    method Store(mark: Mark)
      modifies this`stored, this`saved
      ensures stored == Some(mark) && saved == old(saved) + [stored]
    {
      stored := Some(mark);
      saved := saved + [stored];
    }

    /** The stored context says that the first `p` rows are done. */
    ghost predicate DoneUpTo(mark: Option<Mark>, p: nat)
      requires table.Valid()
    {
      match mark
      case None => p == 0
      case Some(Mark(complete, high, low)) =>
        && 0 < |table.rows| && Between(table, p)
        && high == Pick(table.columns, table.rows[|table.rows| - 1])
        && low == (if p == 0 then map[] else Pick(table.columns, table.rows[p - 1]))
        && complete == (p == |table.rows|)
    }

    /** A context without a usable high watermark: no batch query can be made from it. */
    predicate Doomed(mark: Option<Mark>) {
      mark.None? || KeyOf(table.columns, mark.value.high).None?
    }

    predicate AllDoomed(marks: seq<Option<Mark>>) {
      forall i :: 0 <= i < |marks| ==> Doomed(marks[i])
    }

    /** Fetches the result of the batch query through a cursor, `batchSize` rows at a time. */
    method SnapshotTableWithCursor(w: Watermark, result: seq<Values>, failAfter: Option<nat>)
      returns (failed: bool, emitted: seq<Values>)
      requires batchSize >= 1
      modifies w
      ensures failed == (failAfter.Some? && failAfter.value <= |result|)
      ensures emitted == if failed then result[..failAfter.value] else result
      ensures w.high == old(w.high)
      ensures emitted == [] ==> w.low == old(w.low) && w.complete == old(w.complete)
      ensures emitted != [] ==> w.low == Pick(table.columns, emitted[|emitted| - 1])
                                && w.complete == Covers(w.high, w.low)
    {
      emitted := [];
      while true
        invariant emitted <= result && w.high == old(w.high)
        invariant failAfter.Some? ==> |emitted| <= failAfter.value
        invariant emitted == [] ==> w.low == old(w.low) && w.complete == old(w.complete)
        invariant emitted != [] ==> w.low == Pick(table.columns, emitted[|emitted| - 1])
                                    && w.complete == Covers(w.high, w.low)
        decreases |result| - |emitted|
      {
        var count := 0;
        ghost var start := |emitted|;
        while count < batchSize && |emitted| < |result|
          invariant emitted <= result && w.high == old(w.high) && |emitted| == start + count
          invariant count <= batchSize
          invariant failAfter.Some? ==> |emitted| <= failAfter.value
          invariant emitted == [] ==> w.low == old(w.low) && w.complete == old(w.complete)
          invariant emitted != [] ==> w.low == Pick(table.columns, emitted[|emitted| - 1])
                                      && w.complete == Covers(w.high, w.low)
          decreases |result| - |emitted|
        {
          if failAfter == Some(|emitted|) {
            return true, emitted;
          }
          var row := result[|emitted|];
          w.SetLowWatermark(Pick(table.columns, row));
          emitted := emitted + [row];
          count := count + 1;
        }
        if count == 0 || count < batchSize {
          break;
        }
      }
      assert emitted == result;
      failed := failAfter == Some(|emitted|);
    }

    /** The bounds of the next batch, or nothing if a watermark lacks an index column. */
    function NextBounds(mark: Mark): (bounds: Option<Bounds>)
      ensures bounds.Some? ==> |bounds.value.high| == |table.columns|
      ensures bounds.Some? && bounds.value.low.Some? ==> |bounds.value.low.value| == |table.columns|
    {
      var high := KeyOf(table.columns, mark.high);
      var low := KeyOf(table.columns, mark.low);
      if high.None? then None
      else if mark.low == map[] then Some(Bounds(None, high.value))
      else if low.None? then None
      else Some(Bounds(low, high.value))
    }

    /** After `p` rows the bounds cut the table exactly there. */
    lemma NextBoundsCut(mark: Mark, p: nat)
      requires table.Valid() && DoneUpTo(Some(mark), p)
      ensures p <= |table.rows| && NextBounds(mark).Some? && CutsAt(table, NextBounds(mark).value, p)
    {
      var columns := table.columns;
      KeyOfPick(columns, table.rows[|table.rows| - 1]);
      if p > 0 {
        KeyOfPick(columns, table.rows[p - 1]);
        assert columns[0] in columns && columns[0] in mark.low;
      }
    }

    /** The low watermark covers the high one exactly when no higher key follows. */
    lemma CompleteAtEnd(e: nat)
      requires table.Valid() && 1 <= e <= |table.rows|
      ensures Covers(Pick(table.columns, table.rows[|table.rows| - 1]), Pick(table.columns, table.rows[e - 1])) <==>
              Skip(table, e) == |table.rows|
    {
      var columns, n, q := table.columns, |table.rows|, Skip(table, e);
      var high, low := Pick(columns, table.rows[n - 1]), Pick(columns, table.rows[e - 1]);
      KeyOfPick(columns, table.rows[n - 1]);
      KeyOfPick(columns, table.rows[e - 1]);
      if q == n {
        SameKeySamePick(columns, table.rows[n - 1], table.rows[e - 1]);
      } else if Covers(high, low) {
        CoversDecidesKey(columns, high, low);
        HigherKeyFollows(q);
      }
    }

    lemma HigherKeyFollows(q: nat)
      requires table.Valid() && 0 < q < |table.rows| && table.KeyAt(q) != table.KeyAt(q - 1)
      ensures table.KeyAt(q - 1) != table.KeyAt(|table.rows| - 1)
    {
      var n := |table.rows|;
      LessIrreflexive(table.KeyAt(q - 1));
      if table.KeyAt(q) != table.KeyAt(n - 1) {
        LessTransitive(table.KeyAt(q - 1), table.KeyAt(q), table.KeyAt(n - 1));
      }
    }

    function BatchLength(p: nat): nat
      requires p <= |table.rows|
    {
      Length(table, 10 * batchSize, p)
    }

    /** The attempt fails because of the fault, not because of the table. */
    predicate Faulty(failAfter: Option<nat>, p: nat)
      requires p <= |table.rows|
    {
      failAfter.Some? && failAfter.value <= BatchLength(p)
    }

    /** What an attempt that starts after `p` rows hands on. */
    function BatchAt(p: nat, failAfter: Option<nat>): Batch
      requires p <= |table.rows|
    {
      if Faulty(failAfter, p) then Batch(p, table.rows[p..p + failAfter.value], false)
      else Batch(p, table.rows[p..p + BatchLength(p)], true)
    }

    /** Where the snapshot goes on after the attempt. */
    ghost function NextAt(p: nat, failAfter: Option<nat>): (q: nat)
      requires table.Valid() && p <= |table.rows|
      ensures p <= q <= |table.rows| && (Faulty(failAfter, p) ==> q == p)
      ensures Between(table, p) ==> Between(table, q)
    {
      if Faulty(failAfter, p) then p else Skip(table, p + BatchLength(p))
    }

    lemma BatchQuery(mark: Mark, p: nat)
      requires table.Valid() && DoneUpTo(Some(mark), p)
      ensures p <= |table.rows| && NextBounds(mark).Some?
      ensures |Matching(table, NextBounds(mark).value, 0)| == |table.rows| - p
      ensures Limit(Matching(table, NextBounds(mark).value, 0), 10 * batchSize) == table.rows[p..p + BatchLength(p)]
    {
      hide Table.Valid, CutsAt, DoneUpTo, Matching, NextBounds, KeyOf;
      NextBoundsCut(mark, p);
      MatchingIsSuffix(table, NextBounds(mark).value, p, 0);
      assert table.rows[p..][..BatchLength(p)] == table.rows[p..p + BatchLength(p)];
    }

    /** What is skipped does not change the low watermark. */
    lemma SkipKeepsPick(e: nat)
      requires table.Valid() && 0 < e <= |table.rows|
      ensures Pick(table.columns, table.rows[Skip(table, e) - 1]) == Pick(table.columns, table.rows[e - 1])
    {
      SameKeySamePick(table.columns, table.rows[Skip(table, e) - 1], table.rows[e - 1]);
    }

    lemma DoneAfterBatch(mark: Mark, p: nat, after: Mark)
      requires table.Valid() && DoneUpTo(Some(mark), p)
      requires after.high == mark.high
      requires BatchLength(p) == 0 ==> after == mark
      requires BatchLength(p) > 0 ==>
                 && after.low == Pick(table.columns, table.rows[p + BatchLength(p) - 1])
                 && after.complete == Covers(after.high, after.low)
      ensures DoneUpTo(Some(after), Skip(table, p + BatchLength(p)))
    {
      hide Table.Valid, KeyOf, Covers, Pick, Skip;
      var e := p + BatchLength(p);
      SkipMeansTie(table, p);
      if BatchLength(p) > 0 {
        CompleteAtEnd(e);
        SkipKeepsPick(e);
      }
    }

    /** The context was stored when at most `p` rows were done. */
    ghost predicate Passed(mark: Option<Mark>, p: nat)
      requires table.Valid()
    {
      exists q: nat :: q <= p && DoneUpTo(mark, q)
    }

    ghost predicate AllPassed(marks: seq<Option<Mark>>, p: nat)
      requires table.Valid()
    {
      marks != [] && forall i :: 0 <= i < |marks| ==> Passed(marks[i], p)
    }

    lemma PassedNow(marks: seq<Option<Mark>>, mark: Option<Mark>, p: nat, q: nat)
      requires table.Valid() && (marks == [] || AllPassed(marks, p)) && p <= q && DoneUpTo(mark, q)
      ensures AllPassed(marks + [mark], q)
    {
      forall i | 0 <= i < |marks + [mark]| ensures Passed((marks + [mark])[i], q) {
        if i < |marks| {
          assert Passed(marks[i], p);
        }
      }
    }

    lemma BatchRows(p: nat, failAfter: Option<nat>, emitted: seq<Values>)
      requires p <= |table.rows|
      requires var result := table.rows[p..p + BatchLength(p)];
               emitted == if Faulty(failAfter, p) then result[..failAfter.value] else result
      ensures Batch(p, emitted, !Faulty(failAfter, p)) == BatchAt(p, failAfter)
    {
    }

    /** The transaction of a batch: works on a decoded copy of the watermark. */
    method ReadBatch(mark: Mark, failAfter: Option<nat>, ghost p: nat)
      returns (success: bool, batch: Option<Batch>, after: Mark)
      requires table.Valid() && batchSize >= 1
      requires DoneUpTo(Some(mark), p) || Doomed(Some(mark))
      ensures success ==> batch.Some?
      ensures Doomed(Some(mark)) ==> !success && batch.None?
      ensures DoneUpTo(Some(mark), p) ==>
                && success == !Faulty(failAfter, p)
                && batch == Some(BatchAt(p, failAfter))
                && (success ==> DoneUpTo(Some(after), NextAt(p, failAfter)))
    {
      hide DoneUpTo, Matching, Limit, Covers, Pick, Table.Valid;
      if DoneUpTo(Some(mark), p) {
        BatchQuery(mark, p);
      }
      var bounds := NextBounds(mark);
      if bounds.None? {
        return false, None, mark;
      }
      var w := new Watermark(mark);
      var matching := Matching(table, bounds.value, 0);
      MatchingLength(table, bounds.value, 0);
      var failed, emitted := SnapshotTableWithCursor(w, Limit(matching, 10 * batchSize), failAfter);
      success := !failed;
      batch := Some(Batch(|table.rows| - |matching|, emitted, success));
      after := Mark(w.complete, w.high, w.low);
      if DoneUpTo(Some(mark), p) {
        BatchRows(p, failAfter, emitted);
        if success {
          DoneAfterBatch(mark, p, after);
        }
      }
    }

    method FetchTableSnapshotBatch(failAfter: Option<nat>, ghost p: nat) returns (success: bool)
      requires table.Valid() && batchSize >= 1
      requires DoneUpTo(stored, p) || Doomed(stored)
      modifies this`stored, this`saved, this`log
      ensures !success ==> stored == old(stored) && saved == old(saved)
      ensures Doomed(old(stored)) ==> !success && log == old(log)
      ensures old(stored).Some? && DoneUpTo(old(stored), p) ==>
                && success == !Faulty(failAfter, p)
                && log == old(log) + [BatchAt(p, failAfter)]
                && (success ==> DoneUpTo(stored, NextAt(p, failAfter)) && saved == old(saved) + [stored])
    {
      hide DoneUpTo, Table.Valid, NextAt, BatchAt, Faulty;
      if stored.None? {
        return false;
      }
      var ok, batch, after := ReadBatch(stored.value, failAfter, p);
      if batch.Some? {
        log := log + [batch.value];
      }
      if ok {
        Store(after);
      }
      return ok;
    }

    /** The first transaction: a new watermark, and the high watermark if it is new or a batch has been read before.
        An error of the query, or a high watermark with a column of no known type, leaves the context as it was. */
    method PrepareWatermark(nextSnapshotFetch: bool, ghost p: nat) returns (success: bool)
      requires table.Valid()
      requires if Findable(table, query) then DoneUpTo(stored, p) && AllPassed(saved, p)
               else Doomed(stored) && AllDoomed(saved)
      modifies this`stored, this`saved
      ensures success ==> stored.Some?
      ensures if Findable(table, query) then success && DoneUpTo(stored, p) && AllPassed(saved, p)
              else Doomed(stored) && AllDoomed(saved)
    {
      HighWatermarkExactly(table, query);
      var mark := if stored.None? then Mark(false, map[], map[]) else stored.value;
      if stored.None? || nextSnapshotFetch {
        var high := HighWatermark(table, query);
        if high.None? {
          return false;
        }
        mark := mark.(high := high.value);
      }
      if exists c :: c in mark.high && c !in table.columns {
        return false;
      }
      Store(mark);
      if Findable(table, query) {
        PassedNow(old(saved), stored, p, p);
      }
      return true;
    }

    /** One task of the snapshotter for the table: prepare the watermark, read a batch, go on or finish. */
    method SnapshotBaseTable(nextSnapshotFetch: bool, failAfter: Option<nat>, ghost p: nat) returns (r: Attempt)
      requires table.Valid() && batchSize >= 1
      requires if Findable(table, query) then DoneUpTo(stored, p) && AllPassed(saved, p)
               else Doomed(stored) && AllDoomed(saved)
      modifies this`stored, this`saved, this`log
      ensures !Findable(table, query) ==> r.Failed? && log == old(log) && Doomed(stored) && AllDoomed(saved)
      ensures Findable(table, query) ==>
                && p <= |table.rows|
                && r.Failed? == Faulty(failAfter, p)
                && log == old(log) + [BatchAt(p, failAfter)]
                && DoneUpTo(stored, NextAt(p, failAfter))
                && AllPassed(saved, NextAt(p, failAfter))
                && (r.Finished? <==> !r.Failed? && NextAt(p, failAfter) == |table.rows|)
    {
      hide Table.Valid, BatchAt, Doomed, AllPassed;
      var prepared := PrepareWatermark(nextSnapshotFetch, p);
      if !prepared {
        return Failed;
      }
      ghost var before := saved;
      var success := FetchTableSnapshotBatch(failAfter, p);
      if !success {
        return Failed;
      }
      if Findable(table, query) {
        PassedNow(before, stored, p, NextAt(p, failAfter));
      }
      if stored.value.complete {
        return Finished;
      }
      return Requeued;
    }

    /** The process ends and starts again with the context that was saved last, or with an earlier one. */
    method Restart(version: Option<nat>, ghost p: nat) returns (ghost q: nat)
      requires table.Valid()
      requires if Findable(table, query) then DoneUpTo(stored, p) && AllPassed(saved, p)
               else Doomed(stored) && AllDoomed(saved)
      modifies this`stored, this`saved
      ensures q <= p && (version.None? ==> q == p)
      ensures if Findable(table, query) then DoneUpTo(stored, q) && AllPassed(saved, q)
              else Doomed(stored) && AllDoomed(saved)
    {
      if version.None? || version.value >= |saved| {
        return p;
      }
      stored := saved[version.value];
      q := 0;
      if Findable(table, query) {
        assert Passed(stored, p);
        q :| q <= p && DoneUpTo(stored, q);
        PassedNow([], stored, 0, q);
      }
      assert [] + [stored] == [stored];
      saved := [stored];
    }

    /** A batch continues the log; without a fault it makes progress. */
    lemma BatchExtends(before: seq<Batch>, p: nat, failAfter: Option<nat>)
      requires table.Valid() && Between(table, p) && batchSize >= 1
      requires Resumable(before, table, p)
      ensures var b, q := BatchAt(p, failAfter), NextAt(p, failAfter);
              && b.stored == !Faulty(failAfter, p)
              && (b.stored && p < |table.rows| ==> p < q)
              && Resumable(before + [b], table, q)
    {
      hide Table.Valid, Resumable, KeyOf;
      ResumableAppend(before, table, p, BatchAt(p, failAfter), NextAt(p, failAfter));
    }

    /** Stored batches are those of the plan. */
    lemma BatchOfPlan(before: seq<Batch>, p: nat, failAfter: Option<nat>)
      requires table.Valid() && batchSize >= 1 && p < |table.rows|
      requires StoredBatches(before) + Plan(table, 10 * batchSize, p) == Plan(table, 10 * batchSize, 0)
      ensures StoredBatches(before + [BatchAt(p, failAfter)]) + Plan(table, 10 * batchSize, NextAt(p, failAfter)) ==
              Plan(table, 10 * batchSize, 0)
    {
      hide Table.Valid, Plan, Skip, KeyOf, RowsOf, Between, StoredBatches;
      var size, b := 10 * batchSize, BatchAt(p, failAfter);
      StoredLast(before, b);
      if b.stored {
        PlanStep(table, size, p);
        Associates(StoredBatches(before), [b], Plan(table, size, NextAt(p, failAfter)));
      } else {
        assert StoredBatches(before) + [] == StoredBatches(before);
      }
    }

    /** The whole snapshot of the table under a schedule of faults: it finishes exactly if the high watermark query
        finds the key of a highest row. As long as restarts find the context that was stored last, the stored batches
        are those of a run without faults, and they are the whole table exactly if no tie reaches across the end of a
        full batch. */
    method RunSnapshot(faults: seq<Fault>) returns (finished: bool)
      requires table.Valid() && batchSize >= 1
      requires stored == None && saved == [None] && log == []
      modifies this`stored, this`saved, this`log
      ensures finished <==> Findable(table, query)
      ensures !finished ==> log == []
      ensures finished ==> Resumable(log, table, |table.rows|) && log != [] && log[|log| - 1].stored
      ensures finished && (forall i :: 0 <= i < |faults| ==> faults[i].saved.None?) ==>
                && StoredBatches(log) == Plan(table, 10 * batchSize, 0)
                && (RowsOf(StoredBatches(log)) == table.rows <==> NoTieAtBoundary(table, 10 * batchSize))
      ensures finished && faults == [] ==> log == Plan(table, 10 * batchSize, 0)
    {
      hide Table.Valid, Plan, Resumable, BatchAt, NextAt, AllPassed, RowsOf, NoTieAtBoundary, StoredBatches;
      ghost var p: nat := 0;
      var todo, next := faults, false;
      ghost var latest := forall i :: 0 <= i < |faults| ==> faults[i].saved.None?;
      ghost var plan := Plan(table, 10 * batchSize, 0);
      PlanKeepsAllRows(table, 10 * batchSize);
      StartsEmpty(table);
      PassedNow([], None, 0, 0);
      assert [] + [None] == saved;
      while true
        invariant if Findable(table, query) then DoneUpTo(stored, p) && AllPassed(saved, p) && p < |table.rows|
                  else Doomed(stored) && AllDoomed(saved) && log == [] && p == 0
        invariant p <= |table.rows| && Between(table, p) && Resumable(log, table, p)
        invariant latest ==> (forall i :: 0 <= i < |todo| ==> todo[i].saved.None?)
                             && StoredBatches(log) + Plan(table, 10 * batchSize, p) == plan
        invariant faults == [] ==> todo == [] && AllStored(log)
        decreases |todo|, |table.rows| - p
      {
        var failAfter := if todo == [] then None else Some(todo[0].rows);
        ghost var before := log;
        var r := SnapshotBaseTable(next, failAfter, p);
        if Findable(table, query) {
          BatchExtends(before, p, failAfter);
          BatchStored(before, p, failAfter);
          if latest {
            BatchOfPlan(before, p, failAfter);
          }
        }
        if r.Finished? {
          PlanIsOver(table, 10 * batchSize, log);
          return true;
        }
        if r.Failed? {
          if todo == [] {
            return false;
          }
          ghost var q := Restart(todo[0].saved, p);
          if Findable(table, query) {
            GoesBack(log, table, p, q);
          }
          p := q;
        } else {
          p := NextAt(p, failAfter);
        }
        next := !r.Failed?;
        if todo != [] {
          todo := todo[1..];
        }
      }
    }

    lemma BatchStored(before: seq<Batch>, p: nat, failAfter: Option<nat>)
      requires p <= |table.rows|
      ensures var log := before + [BatchAt(p, failAfter)];
              && log[|log| - 1].stored == !Faulty(failAfter, p)
              && (AllStored(before) && failAfter.None? ==> AllStored(log))
    {
    }
  }

  // ---------------------------------------------------------------------------------------------
  // What the log of a finished snapshot says
  // ---------------------------------------------------------------------------------------------

  /** The rows of a batch are consecutive rows of the table. */
  predicate IsSlice(b: Batch, rows: seq<Values>) {
    b.End() <= |rows| && b.rows == rows[b.from..b.End()]
  }

  /** After a stored batch the snapshot goes on at the next key above the batch, after a failed one it goes back. */
  ghost predicate Follows(t: Table, b: Batch, p: nat)
    requires t.Valid() && b.End() <= |t.rows|
  {
    if b.stored then p == Skip(t, b.End()) else p <= b.from
  }

  predicate AllStored(log: seq<Batch>) {
    forall i :: 0 <= i < |log| ==> log[i].stored
  }

  function StoredBatches(log: seq<Batch>): seq<Batch> {
    if log == [] then []
    else
      var n := |log| - 1;
      StoredBatches(log[..n]) + if log[n].stored then [log[n]] else []
  }

  lemma Associates(a: seq<Batch>, b: seq<Batch>, c: seq<Batch>)
    ensures (a + b) + c == a + (b + c)
  {
  }

  lemma StoredLast(log: seq<Batch>, b: Batch)
    ensures StoredBatches(log + [b]) == StoredBatches(log) + if b.stored then [b] else []
  {
    assert (log + [b])[..|log|] == log;
  }

  lemma {:induction false} AllAreStored(log: seq<Batch>)
    requires AllStored(log)
    ensures StoredBatches(log) == log
  {
    if log != [] {
      AllAreStored(log[..|log| - 1]);
    }
  }

  /** At the end of the table nothing of the plan is left. */
  lemma PlanIsOver(t: Table, size: nat, log: seq<Batch>)
    requires t.Valid() && size > 0
    ensures StoredBatches(log) + Plan(t, size, |t.rows|) == StoredBatches(log)
    ensures AllStored(log) ==> StoredBatches(log) == log
  {
    if AllStored(log) {
      AllAreStored(log);
    }
  }

  /** The log hands on the rows without a gap but for ties, and the snapshot may go on after `p` rows. */
  ghost predicate Resumable(log: seq<Batch>, t: Table, p: nat)
    requires t.Valid()
  {
    && (forall i :: 0 <= i < |log| ==> IsSlice(log[i], t.rows))
    && (log != [] ==> log[0].from == 0)
    && (forall i :: 0 < i < |log| ==> Follows(t, log[i - 1], log[i].from))
    && (if log == [] then p == 0 else Follows(t, log[|log| - 1], p))
  }

  lemma ResumableAppend(log: seq<Batch>, t: Table, p: nat, b: Batch, q: nat)
    requires t.Valid() && Resumable(log, t, p)
    requires b.from == p && IsSlice(b, t.rows) && Follows(t, b, q)
    ensures Resumable(log + [b], t, q)
  {
    hide Table.Valid, Skip;
    var all := log + [b];
    assert forall i :: 0 <= i < |log| ==> all[i] == log[i];
    forall i | 0 < i < |all| ensures Follows(t, all[i - 1], all[i].from) {
      if i < |log| {
        assert Follows(t, log[i - 1], log[i].from);
      }
    }
  }

  lemma StartsEmpty(t: Table)
    requires t.Valid()
    ensures Resumable([], t, 0) && StoredBatches([]) == []
  {
  }

  lemma GoesBack(log: seq<Batch>, t: Table, p: nat, q: nat)
    requires t.Valid() && Resumable(log, t, p) && q <= p
    requires log != [] && !log[|log| - 1].stored
    ensures Resumable(log, t, q)
  {
  }

  /** Some batch hands on the row. */
  ghost predicate HandedOn(log: seq<Batch>, t: Table, i: nat)
    requires i < |t.rows|
  {
    exists b :: 0 <= b < |log| && log[b].from <= i < log[b].End() && log[b].rows[i - log[b].from] == t.rows[i]
  }

  /** The only rows that are skipped have the same key as the row before them. */
  lemma {:induction false} OnlyTiesAreSkipped(log: seq<Batch>, t: Table, p: nat, i: nat)
    requires t.Valid() && Resumable(log, t, p) && i < p <= |t.rows|
    ensures HandedOn(log, t, i) || (i > 0 && t.KeyAt(i) == t.KeyAt(i - 1))
  {
    hide Table.Valid, Skip, KeyOf;
    var n := |log| - 1;
    var last := log[n];
    if last.from <= i < last.End() {
      assert last.rows[i - last.from] == t.rows[i];
    } else if last.End() <= i {
      SkippedAreTies(t, last.End(), i);
    } else {
      assert forall b :: 0 <= b < n ==> log[..n][b] == log[b];
      OnlyTiesAreSkipped(log[..n], t, last.from, i);
      if HandedOn(log[..n], t, i) {
        var b :| 0 <= b < n && log[..n][b].from <= i < log[..n][b].End()
                 && log[..n][b].rows[i - log[..n][b].from] == t.rows[i];
        assert log[b] == log[..n][b];
      }
    }
  }

  lemma {:induction false} SkippedAreTies(t: Table, e: nat, i: nat)
    requires t.Valid() && 0 < e <= |t.rows| && e <= i < Skip(t, e)
    ensures t.KeyAt(i) == t.KeyAt(i - 1)
    decreases i - e
  {
    if e < i {
      SkippedAreTies(t, e + 1, i);
    }
  }

  /** With unique keys no row is skipped. */
  lemma NoRowSkipped(log: seq<Batch>, t: Table, p: nat, i: nat)
    requires t.Valid() && t.Unique() && Resumable(log, t, p) && i < p <= |t.rows|
    ensures HandedOn(log, t, i)
  {
    OnlyTiesAreSkipped(log, t, p, i);
  }

  // ---------------------------------------------------------------------------------------------
  // The snapshot as it is written, and as it is intended
  // ---------------------------------------------------------------------------------------------

  /** As the high watermark query is written, the snapshot finishes exactly for non-empty tables whose index has one
      column; any other table never hands on a row. */
  method SnapshotAsWritten(table: Table, composite: Option<int>, batchSize: nat, faults: seq<Fault>)
    returns (finished: bool, log: seq<Batch>)
    requires table.Valid() && batchSize >= 1
    ensures finished <==> table.rows != [] && |table.columns| == 1
    ensures !finished ==> log == []
    ensures finished && (forall i :: 0 <= i < |faults| ==> faults[i].saved.None?) ==>
              (RowsOf(StoredBatches(log)) == table.rows <==> NoTieAtBoundary(table, 10 * batchSize))
  {
    hide Table.Valid, NoTieAtBoundary, RowsOf, StoredBatches, Plan, Resumable;
    var s := new Snapshotter(table, AsWritten(composite), batchSize);
    finished := s.RunSnapshot(faults);
    log := s.log;
  }

  /** With a query for the separate columns, and unique keys, every non-empty table is snapshotted: under any faults
      every row is handed on, and as long as restarts find the context stored last, the stored batches hand on every row
      exactly once and in order. */
  method SnapshotAsIntended(table: Table, batchSize: nat, faults: seq<Fault>) returns (finished: bool, log: seq<Batch>)
    requires table.Valid() && table.Unique() && batchSize >= 1
    ensures finished <==> table.rows != []
    ensures finished ==> forall i :: 0 <= i < |table.rows| ==> HandedOn(log, table, i)
    ensures finished && (forall i :: 0 <= i < |faults| ==> faults[i].saved.None?) ==>
              RowsOf(StoredBatches(log)) == table.rows
  {
    hide Table.Valid, NoTieAtBoundary, RowsOf, StoredBatches, Plan, Resumable, Table.Unique, HandedOn;
    var s := new Snapshotter(table, AsIntended, batchSize);
    finished := s.RunSnapshot(faults);
    log := s.log;
    UniqueHasNoTies(table, 10 * batchSize);
    if finished {
      forall i | 0 <= i < |table.rows| ensures HandedOn(log, table, i) {
        NoRowSkipped(log, table, |table.rows|, i);
      }
    }
  }

  // ---------------------------------------------------------------------------------------------
  // Two tables
  // ---------------------------------------------------------------------------------------------

  /** The snapshot of a table with a tie at the end of a batch finishes without its last row. */
  method SnapshotMeasurements(composite: Option<int>) returns (finished: bool, log: seq<Batch>)
    ensures finished && log == [Batch(0, Measurements().rows[..10], true)]
    ensures RowsOf(log) != Measurements().rows
  {
    LastMeasurementIsLost();
    var s := new Snapshotter(Measurements(), AsWritten(composite), 1);
    finished := s.RunSnapshot([]);
    log := s.log;
  }

  /** The snapshot of a table whose index has two columns never reads a row, however often it is started again. */
  method SnapshotDevices(composite: Option<int>, batchSize: nat, faults: seq<Fault>)
    returns (finished: bool, log: seq<Batch>)
    requires batchSize >= 1
    ensures !finished && log == []
  {
    TwoColumnsAreNotFound(composite);
    var s := new Snapshotter(Devices(), AsWritten(composite), batchSize);
    finished := s.RunSnapshot(faults);
    log := s.log;
  }
}
