/** Row events of a chunk are held back while the chunk is snapshotted, and released when the snapshot
    has finished, unless the snapshot already contains them. */
module ChunkHold {
  import opened Wrappers
  import opened Queues

  const CAPACITY: nat := 1_000_000

  /** A row event; the position identifies it. */
  datatype Row = Row(pos: nat, chunk: Option<string>, walEnd: nat)

  datatype Event =
    | Started(chunk: string)
    | Finished(chunk: string, snapshot: nat)
    | Arrived(rowChunk: Option<string>, walEnd: nat)

  /** Finishing a snapshot that is not running dereferences nil; a full queue blocks the dispatcher. */
  datatype Health = Running | Crashed | Blocked

  datatype State = State(health: Health, queues: map<string, seq<Row>>, executed: seq<Row>)

  function Initial(): State {
    State(Running, map[], [])
  }

  /** The held rows the snapshot does not contain yet. */
  function Released(queue: seq<Row>, snapshot: nat): seq<Row> {
    if queue == [] then []
    else
      var n := |queue| - 1;
      Released(queue[..n], snapshot) + if queue[n].walEnd >= snapshot then [queue[n]] else []
  }

  function StartedEvent(s: State, chunk: string): State {
    s.(queues := s.queues[chunk := []])
  }

  function FinishedEvent(s: State, chunk: string, snapshot: nat): State {
    if chunk !in s.queues then s.(health := Crashed)
    else s.(queues := s.queues - {chunk}, executed := s.executed + Released(s.queues[chunk], snapshot))
  }

  function ArrivedEvent(s: State, row: Row): State {
    if row.chunk.None? || row.chunk.value !in s.queues then s.(executed := s.executed + [row])
    else
      var queue := s.queues[row.chunk.value];
      if |queue| >= CAPACITY then s.(health := Blocked)
      else s.(queues := s.queues[row.chunk.value := queue + [row]])
  }

  function Step(s: State, pos: nat, ev: Event): State {
    if s.health != Running then s else
      match ev
      case Started(chunk) => StartedEvent(s, chunk)
      case Finished(chunk, snapshot) => FinishedEvent(s, chunk, snapshot)
      case Arrived(chunk, walEnd) => ArrivedEvent(s, Row(pos, chunk, walEnd))
  }

  function Run(evs: seq<Event>): State {
    if evs == [] then Initial()
    else Step(Run(Past(evs)), |evs| - 1, Latest(evs))
  }

  function Past(evs: seq<Event>): seq<Event>
    requires evs != []
  {
    evs[..|evs| - 1]
  }

  function Latest(evs: seq<Event>): Event
    requires evs != []
  {
    evs[|evs| - 1]
  }

  // ---------------------------------------------------------------------------------------------
  // One chunk at a time
  // ---------------------------------------------------------------------------------------------

  /** The chunk is being snapshotted after these events. */
  predicate Snapshotting(evs: seq<Event>, chunk: string) {
    evs != [] && match Latest(evs)
    case Started(c) => c == chunk || Snapshotting(Past(evs), chunk)
    case Finished(c, _) => c != chunk && Snapshotting(Past(evs), chunk)
    case Arrived(_, _) => Snapshotting(Past(evs), chunk)
  }

  function RowAt(evs: seq<Event>, i: nat): Row
    requires i < |evs| && evs[i].Arrived?
  {
    Row(i, evs[i].rowChunk, evs[i].walEnd)
  }

  predicate IsRowOf(evs: seq<Event>, i: nat, chunk: string)
    requires i < |evs|
  {
    evs[i].Arrived? && evs[i].rowChunk == Some(chunk)
  }

  /** The rows waiting for the running snapshot of the chunk. */
  function Waiting(evs: seq<Event>, chunk: string): seq<Row> {
    if evs == [] || !Snapshotting(evs, chunk) || Latest(evs) == Started(chunk) then []
    else
      Waiting(Past(evs), chunk) + if IsRowOf(evs, |evs| - 1, chunk) then [RowAt(evs, |evs| - 1)] else []
  }

  /** The rows of the chunk that have run. */
  function Ran(evs: seq<Event>, chunk: string): seq<Row> {
    if evs == [] then []
    else
      Ran(Past(evs), chunk) +
      match Latest(evs)
      case Finished(c, snapshot) => if c == chunk then Released(Waiting(Past(evs), chunk), snapshot) else []
      case Arrived(_, _) =>
        if IsRowOf(evs, |evs| - 1, chunk) && !Snapshotting(Past(evs), chunk) then [RowAt(evs, |evs| - 1)] else []
      case Started(_) => []
  }

  /** The rows of a chunk, or those without one. */
  function Project(rows: seq<Row>, chunk: Option<string>): seq<Row> {
    if rows == [] then []
    else
      var n := |rows| - 1;
      Project(rows[..n], chunk) + if rows[n].chunk == chunk then [rows[n]] else []
  }

  lemma ProjectOne(row: Row, chunk: Option<string>)
    ensures Project([row], chunk) == if row.chunk == chunk then [row] else []
  {
  }

  lemma {:induction false} ProjectConcat(a: seq<Row>, b: seq<Row>, chunk: Option<string>)
    ensures Project(a + b, chunk) == Project(a, chunk) + Project(b, chunk)
  {
    if b == [] {
      assert a + b == a;
    } else {
      assert (a + b)[..|a + b| - 1] == a + b[..|b| - 1];
      ProjectConcat(a, b[..|b| - 1], chunk);
    }
  }

  lemma {:induction false} ReleasedOf(queue: seq<Row>, snapshot: nat, owner: string, chunk: Option<string>)
    requires forall i :: 0 <= i < |queue| ==> queue[i].chunk == Some(owner)
    ensures Project(Released(queue, snapshot), chunk) == if chunk == Some(owner) then Released(queue, snapshot) else []
  {
    hide Released, Project;
    if queue == [] {
      NothingReleased(snapshot, chunk);
    } else {
      var n := |queue| - 1;
      ReleasedOf(queue[..n], snapshot, owner, chunk);
      ReleasedLast(queue, snapshot);
      ProjectConcat(Released(queue[..n], snapshot), [queue[n]], chunk);
      ProjectOne(queue[n], chunk);
      assert Released(queue[..n], snapshot) + [] == Released(queue[..n], snapshot);
      assert queue[n].chunk == Some(owner);
    }
  }

  lemma NothingReleased(snapshot: nat, chunk: Option<string>)
    ensures Released([], snapshot) == [] == Project([], chunk)
  {
  }

  lemma ReleasedLast(queue: seq<Row>, snapshot: nat)
    requires queue != []
    ensures var n := |queue| - 1;
            Released(queue, snapshot) ==
            Released(queue[..n], snapshot) + if queue[n].walEnd >= snapshot then [queue[n]] else []
  {
  }

  lemma {:induction false} WaitingOwned(evs: seq<Event>, chunk: string)
    ensures forall i :: 0 <= i < |Waiting(evs, chunk)| ==> Waiting(evs, chunk)[i].chunk == Some(chunk)
  {
    if evs != [] {
      WaitingOwned(Past(evs), chunk);
    }
  }

  /** The handler keeps every chunk as if it were the only one. */
  ghost predicate Separates(evs: seq<Event>, s: State) {
    forall chunk ::
      && (chunk in s.queues <==> Snapshotting(evs, chunk))
      && (chunk in s.queues ==> s.queues[chunk] == Waiting(evs, chunk))
      && Project(s.executed, Some(chunk)) == Ran(evs, chunk)
  }

  lemma SeparatesStep(evs: seq<Event>, s: State)
    requires evs != [] && s.health == Running && Separates(Past(evs), s)
    requires Step(s, |evs| - 1, Latest(evs)).health == Running
    ensures Separates(evs, Step(s, |evs| - 1, Latest(evs)))
  {
    var s' := Step(s, |evs| - 1, Latest(evs));
    forall chunk
      ensures chunk in s'.queues <==> Snapshotting(evs, chunk)
      ensures chunk in s'.queues ==> s'.queues[chunk] == Waiting(evs, chunk)
      ensures Project(s'.executed, Some(chunk)) == Ran(evs, chunk)
    {
      SeparatesChunk(evs, s, chunk);
    }
  }

  lemma SeparatesChunk(evs: seq<Event>, s: State, chunk: string)
    requires evs != [] && s.health == Running && Separates(Past(evs), s)
    requires Step(s, |evs| - 1, Latest(evs)).health == Running
    ensures var s' := Step(s, |evs| - 1, Latest(evs));
            && (chunk in s'.queues <==> Snapshotting(evs, chunk))
            && (chunk in s'.queues ==> s'.queues[chunk] == Waiting(evs, chunk))
            && Project(s'.executed, Some(chunk)) == Ran(evs, chunk)
  {
    hide Project, Released;
    match Latest(evs) {
      case Started(_) =>
      case Finished(owner, snapshot) =>
        WaitingOwned(Past(evs), owner);
        ReleasedOf(s.queues[owner], snapshot, owner, Some(chunk));
        ProjectConcat(s.executed, Released(s.queues[owner], snapshot), Some(chunk));
      case Arrived(rowChunk, walEnd) =>
        ProjectConcat(s.executed, [Row(|evs| - 1, rowChunk, walEnd)], Some(chunk));
        ProjectOne(Row(|evs| - 1, rowChunk, walEnd), Some(chunk));
    }
  }

  /** An event the handler survives. */
  predicate Survives(past: seq<Event>, ev: Event) {
    match ev
    case Started(_) => true
    case Finished(chunk, _) => Snapshotting(past, chunk)
    case Arrived(Some(chunk), _) => Snapshotting(past, chunk) ==> |Waiting(past, chunk)| < CAPACITY
    case Arrived(None, _) => true
  }

  /** The handler runs through the events exactly when snapshots are finished only while they run and no
      queue exceeds its capacity; then every chunk sees exactly its own history. */
  lemma {:induction false} ChunksAreSeparate(evs: seq<Event>)
    ensures Run(evs).health == Running <==> forall i :: 0 <= i < |evs| ==> Survives(evs[..i], evs[i])
    ensures Run(evs).health == Running ==> Separates(evs, Run(evs))
  {
    if evs != [] {
      var past := Past(evs);
      ChunksAreSeparate(past);
      assert forall i :: 0 <= i < |past| ==> past[..i] == evs[..i];
      if Run(past).health == Running {
        SurvivesStep(past, Run(past), Latest(evs));
        if Run(evs).health == Running {
          SeparatesStep(evs, Run(past));
        }
      }
    }
  }

  lemma SurvivesStep(past: seq<Event>, s: State, ev: Event)
    requires s.health == Running && Separates(past, s)
    ensures Step(s, |past|, ev).health == Running <==> Survives(past, ev)
  {
  }

  // ---------------------------------------------------------------------------------------------
  // The fate of a row
  // ---------------------------------------------------------------------------------------------

  predicate Controls(ev: Event, chunk: string) {
    !ev.Arrived? && ev.chunk == chunk
  }

  /** No snapshot of the chunk starts or finishes after position `i` and before `n`. */
  predicate Undisturbed(evs: seq<Event>, chunk: string, i: nat, n: nat)
    requires n <= |evs|
  {
    forall k :: i < k < n ==> !Controls(evs[k], chunk)
  }

  /** The snapshot that holds the row finishes at `f` and does not contain the row. */
  predicate ReleasedAt(evs: seq<Event>, chunk: string, i: nat, f: nat)
    requires i < |evs| && evs[i].Arrived?
  {
    && i < f < |evs|
    && evs[f].Finished? && evs[f].chunk == chunk && evs[f].snapshot <= evs[i].walEnd
    && Undisturbed(evs, chunk, i, f)
  }

  /** A row runs at once, or when the snapshot that was running when it arrived finishes without it. */
  ghost predicate Runs(evs: seq<Event>, chunk: string, i: nat)
    requires i < |evs| && evs[i].Arrived?
  {
    !Snapshotting(evs[..i], chunk) || exists f: nat :: ReleasedAt(evs, chunk, i, f)
  }

  lemma {:induction false} ReleasedMember(queue: seq<Row>, snapshot: nat, row: Row)
    ensures row in Released(queue, snapshot) <==> row in queue && row.walEnd >= snapshot
  {
    if queue != [] {
      var n := |queue| - 1;
      ReleasedMember(queue[..n], snapshot, row);
      assert queue == queue[..n] + [queue[n]];
    }
  }

  lemma {:induction false} StillWaiting(evs: seq<Event>, chunk: string, i: nat)
    requires i < |evs| && IsRowOf(evs, i, chunk)
    ensures RowAt(evs, i) in Waiting(evs, chunk) <==> Snapshotting(evs[..i], chunk) && Undisturbed(evs, chunk, i, |evs|)
  {
    var n := |evs| - 1;
    WaitingBelow(Past(evs), chunk);
    if i < n {
      assert Past(evs)[..i] == evs[..i];
      StillWaiting(Past(evs), chunk, i);
      UndisturbedStep(evs, chunk, i);
      if Undisturbed(evs, chunk, i, |evs|) {
        StaysSnapshotting(evs, chunk, i);
      }
    }
  }

  lemma UndisturbedStep(evs: seq<Event>, chunk: string, i: nat)
    requires evs != [] && i < |evs| - 1
    ensures Undisturbed(evs, chunk, i, |evs|) <==>
            Undisturbed(Past(evs), chunk, i, |evs| - 1) && !Controls(Latest(evs), chunk)
  {
    assert forall k :: 0 <= k < |evs| - 1 ==> Past(evs)[k] == evs[k];
  }

  /** Without a start or finish in between the chunk stays as it is. */
  lemma {:induction false} StaysSnapshotting(evs: seq<Event>, chunk: string, i: nat)
    requires i < |evs| && evs[i].Arrived? && Undisturbed(evs, chunk, i, |evs|)
    ensures Snapshotting(evs, chunk) == Snapshotting(evs[..i], chunk)
  {
    if i == |evs| - 1 {
    } else {
      UndisturbedStep(evs, chunk, i);
      assert Past(evs)[..i] == evs[..i];
      StaysSnapshotting(Past(evs), chunk, i);
    }
  }

  lemma {:induction false} WaitingBelow(evs: seq<Event>, chunk: string)
    ensures forall i :: 0 <= i < |Waiting(evs, chunk)| ==> Waiting(evs, chunk)[i].pos < |evs|
  {
    if evs != [] {
      WaitingBelow(Past(evs), chunk);
    }
  }

  /** A row has run exactly when it was not held, or the snapshot holding it was the next to finish and
      had begun no later than the row; a snapshot that is started anew drops what it held. */
  lemma {:induction false} Fate(evs: seq<Event>, chunk: string, i: nat)
    requires i < |evs| && IsRowOf(evs, i, chunk)
    ensures RowAt(evs, i) in Ran(evs, chunk) <==> Runs(evs, chunk, i)
  {
    var n := |evs| - 1;
    InOrder(Past(evs), chunk);
    if i == n {
      ConcatAscending(Ran(Past(evs), chunk), Waiting(Past(evs), chunk), n);
      assert forall f: nat :: !ReleasedAt(evs, chunk, i, f);
    } else {
      assert Past(evs)[..i] == evs[..i];
      Fate(Past(evs), chunk, i);
      StillWaiting(Past(evs), chunk, i);
      ReleasedStep(evs, chunk, i);
      if Latest(evs).Finished? && Latest(evs).chunk == chunk {
        ReleasedMember(Waiting(Past(evs), chunk), Latest(evs).snapshot, RowAt(evs, i));
      }
    }
  }

  lemma ReleasedStep(evs: seq<Event>, chunk: string, i: nat)
    requires i < |evs| - 1 && IsRowOf(evs, i, chunk)
    ensures (exists f: nat :: ReleasedAt(evs, chunk, i, f)) <==>
            (exists f: nat :: ReleasedAt(Past(evs), chunk, i, f)) || ReleasedAt(evs, chunk, i, |evs| - 1)
    ensures ReleasedAt(evs, chunk, i, |evs| - 1) <==>
            && Latest(evs).Finished? && Latest(evs).chunk == chunk && Latest(evs).snapshot <= evs[i].walEnd
            && Undisturbed(Past(evs), chunk, i, |evs| - 1)
  {
    forall f | i < f < |evs| - 1
      ensures ReleasedAt(evs, chunk, i, f) == ReleasedAt(Past(evs), chunk, i, f)
    {
      assert forall k :: 0 <= k < |evs| - 1 ==> Past(evs)[k] == evs[k];
    }
    if exists f: nat :: ReleasedAt(evs, chunk, i, f) {
      var f: nat :| ReleasedAt(evs, chunk, i, f);
      assert f < |evs| - 1 ==> ReleasedAt(Past(evs), chunk, i, f);
    }
    if exists f: nat :: ReleasedAt(Past(evs), chunk, i, f) {
      var f: nat :| ReleasedAt(Past(evs), chunk, i, f);
      assert ReleasedAt(evs, chunk, i, f);
    }
    assert forall k :: 0 <= k < |evs| - 1 ==> Past(evs)[k] == evs[k];
  }

  ghost predicate Ascending(rows: seq<Row>, n: nat) {
    && (forall i, j :: 0 <= i < j < |rows| ==> rows[i].pos < rows[j].pos)
    && (forall i :: 0 <= i < |rows| ==> rows[i].pos < n)
  }

  function LineOf(evs: seq<Event>, chunk: string): seq<Row> {
    Ran(evs, chunk) + Waiting(evs, chunk)
  }

  /** How an event changes the line of a chunk. */
  lemma NextLine(evs: seq<Event>, chunk: string)
    requires evs != []
    ensures IsRowOf(evs, |evs| - 1, chunk) ==> LineOf(evs, chunk) == LineOf(Past(evs), chunk) + [RowAt(evs, |evs| - 1)]
    ensures Latest(evs) == Started(chunk) ==> LineOf(evs, chunk) == Ran(Past(evs), chunk)
    ensures Latest(evs).Finished? && Latest(evs).chunk == chunk ==>
              LineOf(evs, chunk) == Ran(Past(evs), chunk) + Released(Waiting(Past(evs), chunk), Latest(evs).snapshot)
    ensures !IsRowOf(evs, |evs| - 1, chunk) && !Controls(Latest(evs), chunk) ==>
              LineOf(evs, chunk) == LineOf(Past(evs), chunk)
  {
    if !Controls(Latest(evs), chunk) {
      assert Snapshotting(evs, chunk) == Snapshotting(Past(evs), chunk);
    }
  }

  /** The rows that have run, followed by those still waiting, are in arrival order: nothing runs twice and
      a held row runs before any later row of its chunk. */
  lemma {:induction false} InOrder(evs: seq<Event>, chunk: string)
    ensures Ascending(LineOf(evs, chunk), |evs|)
  {
    if evs != [] {
      var ran, waiting := Ran(Past(evs), chunk), Waiting(Past(evs), chunk);
      InOrder(Past(evs), chunk);
      NextLine(evs, chunk);
      ConcatAscending(ran, waiting, |evs| - 1);
      if Latest(evs).Finished? && Latest(evs).chunk == chunk {
        ReleasedLine(ran, waiting, Latest(evs).snapshot, |evs| - 1);
      }
    }
  }

  lemma ConcatAscending(a: seq<Row>, b: seq<Row>, n: nat)
    ensures Ascending(a + b, n) <==>
            Ascending(a, n) && Ascending(b, n) && forall i, j :: 0 <= i < |a| && 0 <= j < |b| ==> a[i].pos < b[j].pos
  {
    if Ascending(a + b, n) {
      assert forall i :: 0 <= i < |a| ==> a[i] == (a + b)[i];
      assert forall j :: 0 <= j < |b| ==> b[j] == (a + b)[|a| + j];
    }
  }

  lemma {:induction false} ReleasedAscending(queue: seq<Row>, snapshot: nat, n: nat)
    requires Ascending(queue, n)
    ensures Ascending(Released(queue, snapshot), n)
  {
    if queue != [] {
      hide Released;
      var m := |queue| - 1;
      ReleasedAscending(queue[..m], snapshot, queue[m].pos);
      ReleasedLast(queue, snapshot);
    }
  }

  lemma ReleasedLine(ran: seq<Row>, queue: seq<Row>, snapshot: nat, n: nat)
    requires Ascending(ran + queue, n)
    ensures Ascending(ran + Released(queue, snapshot), n)
  {
    var released := Released(queue, snapshot);
    ConcatAscending(ran, queue, n);
    ReleasedAscending(queue, snapshot, n);
    forall i, j | 0 <= i < |ran| && 0 <= j < |released| ensures ran[i].pos < released[j].pos {
      ReleasedMember(queue, snapshot, released[j]);
    }
    ConcatAscending(ran, released, n);
  }

  // ---------------------------------------------------------------------------------------------
  // What the handler has run
  // ---------------------------------------------------------------------------------------------

  lemma {:induction false} ProjectMember(rows: seq<Row>, chunk: Option<string>, row: Row)
    ensures row in Project(rows, chunk) <==> row in rows && row.chunk == chunk
  {
    if rows != [] {
      var n := |rows| - 1;
      ProjectMember(rows[..n], chunk, row);
      assert rows == rows[..n] + [rows[n]];
    }
  }

  /** The rows without a chunk, in arrival order. */
  function Unchunked(evs: seq<Event>): seq<Row> {
    if evs == [] then []
    else
      Unchunked(Past(evs)) +
      if Latest(evs).Arrived? && Latest(evs).rowChunk.None? then [RowAt(evs, |evs| - 1)] else []
  }

  lemma {:induction false} UnchunkedExactly(evs: seq<Event>)
    ensures Ascending(Unchunked(evs), |evs|)
    ensures forall i :: 0 <= i < |evs| && evs[i].Arrived? ==>
              (RowAt(evs, i) in Unchunked(evs) <==> evs[i].rowChunk.None?)
  {
    if evs != [] {
      var n := |evs| - 1;
      UnchunkedExactly(Past(evs));
      forall i | 0 <= i < |evs| && evs[i].Arrived? ensures RowAt(evs, i) in Unchunked(evs) <==> evs[i].rowChunk.None? {
        if i < n {
          assert RowAt(Past(evs), i) == RowAt(evs, i);
        }
      }
    }
  }

  lemma QueueOwned(evs: seq<Event>, s: State, chunk: string)
    requires Separates(evs, s) && chunk in s.queues
    ensures forall i :: 0 <= i < |s.queues[chunk]| ==> s.queues[chunk][i].chunk == Some(chunk)
  {
    WaitingOwned(evs, chunk);
  }

  lemma UnchunkedStep(evs: seq<Event>, s: State)
    requires evs != [] && s.health == Running && Separates(Past(evs), s)
    requires Step(s, |evs| - 1, Latest(evs)).health == Running && Project(s.executed, None) == Unchunked(Past(evs))
    ensures Project(Step(s, |evs| - 1, Latest(evs)).executed, None) == Unchunked(evs)
  {
    hide Project, Released, Separates;
    match Latest(evs) {
      case Started(_) =>
      case Finished(owner, snapshot) =>
        QueueOwned(Past(evs), s, owner);
        ReleasedOf(s.queues[owner], snapshot, owner, None);
        ProjectConcat(s.executed, Released(s.queues[owner], snapshot), None);
      case Arrived(rowChunk, walEnd) =>
        ProjectConcat(s.executed, [Row(|evs| - 1, rowChunk, walEnd)], None);
        ProjectOne(Row(|evs| - 1, rowChunk, walEnd), None);
    }
  }

  /** Rows without a chunk run once, all of them, in arrival order. */
  lemma {:induction false} UnchunkedRun(evs: seq<Event>)
    requires Run(evs).health == Running
    ensures Project(Run(evs).executed, None) == Unchunked(evs)
  {
    if evs != [] {
      UnchunkedRun(Past(evs));
      ChunksAreSeparate(Past(evs));
      UnchunkedStep(evs, Run(Past(evs)));
    }
  }

  /** As long as the handler survives, a row has run exactly if it has no chunk, no snapshot of its chunk was running
      when it arrived, or that snapshot finished next and does not contain it. The rows of a chunk, and those without
      one, have run in arrival order, each at most once. */
  lemma ExecutedExactly(evs: seq<Event>, i: nat)
    requires Run(evs).health == Running && i < |evs| && evs[i].Arrived?
    ensures RowAt(evs, i) in Run(evs).executed <==> evs[i].rowChunk.None? || Runs(evs, evs[i].rowChunk.value, i)
    ensures Ascending(Project(Run(evs).executed, evs[i].rowChunk), |evs|)
  {
    hide Runs, Run, Ascending, Unchunked;
    ProjectMember(Run(evs).executed, evs[i].rowChunk, RowAt(evs, i));
    if evs[i].rowChunk.None? {
      UnchunkedRun(evs);
      UnchunkedExactly(evs);
    } else {
      var chunk := evs[i].rowChunk.value;
      ChunksAreSeparate(evs);
      assert Project(Run(evs).executed, Some(chunk)) == Ran(evs, chunk);
      Fate(evs, chunk, i);
      InOrder(evs, chunk);
      ConcatAscending(Ran(evs, chunk), Waiting(evs, chunk), |evs|);
    }
  }

  ghost predicate AreRows(evs: seq<Event>, rows: seq<Row>) {
    forall k :: 0 <= k < |rows| ==>
      rows[k].pos < |evs| && evs[rows[k].pos].Arrived? && rows[k] == RowAt(evs, rows[k].pos)
  }

  ghost predicate HoldsRows(evs: seq<Event>, s: State) {
    AreRows(evs, s.executed) && forall chunk :: chunk in s.queues ==> AreRows(evs, s.queues[chunk])
  }

  lemma AreRowsLater(evs: seq<Event>, rows: seq<Row>)
    requires evs != [] && AreRows(Past(evs), rows)
    ensures AreRows(evs, rows)
  {
    assert forall k :: 0 <= k < |evs| - 1 ==> Past(evs)[k] == evs[k];
  }

  lemma ReleasedAreRows(evs: seq<Event>, queue: seq<Row>, snapshot: nat)
    requires AreRows(evs, queue)
    ensures AreRows(evs, Released(queue, snapshot))
  {
    var released := Released(queue, snapshot);
    forall k | 0 <= k < |released|
      ensures released[k].pos < |evs| && evs[released[k].pos].Arrived? && released[k] == RowAt(evs, released[k].pos)
    {
      ReleasedMember(queue, snapshot, released[k]);
      var i :| 0 <= i < |queue| && queue[i] == released[k];
    }
  }

  lemma HoldsRowsStep(evs: seq<Event>, s: State)
    requires evs != [] && HoldsRows(Past(evs), s)
    ensures HoldsRows(evs, Step(s, |evs| - 1, Latest(evs)))
  {
    hide AreRows, Released;
    assert AreRows(evs, []) by { NoRows(evs); }
    AreRowsLater(evs, s.executed);
    forall chunk | chunk in s.queues ensures AreRows(evs, s.queues[chunk]) {
      AreRowsLater(evs, s.queues[chunk]);
    }
    match Latest(evs) {
      case Started(_) =>
      case Finished(chunk, snapshot) =>
        if chunk in s.queues {
          ReleasedAreRows(evs, s.queues[chunk], snapshot);
          RowsAppend(evs, s.executed, Released(s.queues[chunk], snapshot));
        }
      case Arrived(_, _) =>
        var row := RowAt(evs, |evs| - 1);
        OneRow(evs);
        RowsAppend(evs, s.executed, [row]);
        if row.chunk.Some? && row.chunk.value in s.queues {
          RowsAppend(evs, s.queues[row.chunk.value], [row]);
        }
    }
  }

  lemma NoRows(evs: seq<Event>)
    ensures AreRows(evs, [])
  {
  }

  lemma OneRow(evs: seq<Event>)
    requires evs != [] && Latest(evs).Arrived?
    ensures AreRows(evs, [RowAt(evs, |evs| - 1)])
  {
  }

  lemma RowsAppend(evs: seq<Event>, a: seq<Row>, b: seq<Row>)
    requires AreRows(evs, a) && AreRows(evs, b)
    ensures AreRows(evs, a + b)
  {
  }

  lemma {:induction false} RunHoldsRows(evs: seq<Event>)
    ensures HoldsRows(evs, Run(evs))
  {
    if evs != [] {
      RunHoldsRows(Past(evs));
      hide HoldsRows, Step;
      HoldsRowsStep(evs, Run(Past(evs)));
    }
  }

  /** Two rows of one chunk keep their order under projection. */
  lemma {:induction false} ProjectedBefore(rows: seq<Row>, i: nat, j: nat) returns (a: nat, b: nat)
    requires i < j < |rows| && rows[i].chunk == rows[j].chunk
    ensures a < b < |Project(rows, rows[j].chunk)|
    ensures Project(rows, rows[j].chunk)[a] == rows[i] && Project(rows, rows[j].chunk)[b] == rows[j]
  {
    var n := |rows| - 1;
    if j < n {
      a, b := ProjectedBefore(rows[..n], i, j);
    } else {
      b := |Project(rows[..n], rows[j].chunk)|;
      ProjectMember(rows[..n], rows[j].chunk, rows[i]);
      assert rows[..n][i] == rows[i];
      a :| 0 <= a < b && Project(rows[..n], rows[j].chunk)[a] == rows[i];
    }
  }

  /** What has run are rows that arrived, each at most once. */
  lemma ExecutedOnce(evs: seq<Event>)
    requires Run(evs).health == Running
    ensures AreRows(evs, Run(evs).executed)
    ensures forall i, j :: 0 <= i < j < |Run(evs).executed| ==> Run(evs).executed[i].pos != Run(evs).executed[j].pos
  {
    hide Run, Project;
    var rows := Run(evs).executed;
    RunHoldsRows(evs);
    forall i, j | 0 <= i < j < |rows| ensures rows[i].pos != rows[j].pos {
      if rows[i].pos == rows[j].pos {
        assert rows[i] == RowAt(evs, rows[j].pos) == rows[j];
        var a, b := ProjectedBefore(rows, i, j);
        ExecutedExactly(evs, rows[j].pos);
      }
    }
  }

  // ---------------------------------------------------------------------------------------------
  // The handler as an object
  // ---------------------------------------------------------------------------------------------

  class EventQueues {
    var health: Health
    var eventQueues: map<string, Queue<Row>>
    var executed: seq<Row>

    ghost predicate Valid()
      reads this, eventQueues.Values
    {
      && (forall c :: c in eventQueues ==>
            eventQueues[c].Valid() && eventQueues[c].capacity == CAPACITY && !eventQueues[c].locked)
      && (forall c, d :: c in eventQueues && d in eventQueues && c != d ==> eventQueues[c] != eventQueues[d])
    }

    ghost function View(): State
      reads this, eventQueues.Values
    {
      State(health, map c | c in eventQueues :: eventQueues[c].contents, executed)
    }

    constructor ()
      ensures Valid() && View() == Initial()
    {
      health := Running;
      eventQueues := map[];
      executed := [];
    }

    method OnChunkSnapshotStartedEvent(chunk: string)
      requires Valid() && health == Running
      modifies this`eventQueues
      ensures Valid() && View() == StartedEvent(old(View()), chunk)
    {
      var queue := new Queue(CAPACITY);
      ghost var before := View();
      assert forall c :: c in eventQueues ==> eventQueues[c] != queue;
      eventQueues := eventQueues[chunk := queue];
      assert View().queues == before.queues[chunk := []];
    }

    /** Runs the popped rows the snapshot does not contain, until the queue is empty. */
    method DrainQueue(queue: Queue<Row>, snapshot: nat)
      requires queue.Valid()
      modifies this`executed, queue`contents
      ensures queue.Valid() && queue.contents == []
      ensures executed == old(executed) + Released(old(queue.contents), snapshot)
    {
      ghost var done: seq<Row> := [];
      while true
        invariant queue.Valid()
        invariant old(queue.contents) == done + queue.contents
        invariant executed == old(executed) + Released(done, snapshot)
        decreases |queue.contents|
      {
        var row := queue.Pop();
        if row.None? {
          break;
        }
        assert (done + [row.value])[..|done|] == done;
        done := done + [row.value];
        if row.value.walEnd >= snapshot {
          executed := executed + [row.value];
        }
      }
      assert done == old(queue.contents);
    }

    method OnChunkSnapshotFinishedEvent(chunk: string, snapshot: nat)
      requires Valid() && health == Running
      modifies this, eventQueues.Values
      ensures Valid() && View() == FinishedEvent(old(View()), chunk, snapshot)
    {
      if chunk !in eventQueues {
        health := Crashed;
        return;
      }
      var queue := eventQueues[chunk];
      DrainQueue(queue, snapshot);
      eventQueues := eventQueues - {chunk};
      queue.Lock();
      DrainQueue(queue, snapshot);
      assert View().queues == old(View()).queues - {chunk};
    }

    method EnqueueOrExecute(row: Row)
      requires Valid() && health == Running
      modifies this`health, this`executed, eventQueues.Values
      ensures Valid() && View() == ArrivedEvent(old(View()), row)
    {
      if row.chunk.Some? && row.chunk.value in eventQueues {
        var r := eventQueues[row.chunk.value].Push(row);
        if r.Blocks? {
          health := Blocked;
          return;
        }
        if r.Stored? {
          return;
        }
      }
      executed := executed + [row];
    }
  }
}
