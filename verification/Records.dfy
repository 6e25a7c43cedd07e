/** Which record tasks and finished transactions the pipeline produces, read off the calls of the tracker and the
    history of the chunks. */
module Records {
  import opened Wrappers
  import opened Wal
  import opened Pipeline
  import T = TransactionTracker
  import W = TransactionWindow
  import I = TransactionIsolation
  import C = ChunkHold
  import D = Dispatch

  // ---------------------------------------------------------------------------------------------
  // The history of the chunks
  // ---------------------------------------------------------------------------------------------

  /** What happens to the chunks; a row comes with the position of its message. */
  datatype Happening = Happening(event: C.Event, pos: nat)

  function EventsOf(hs: seq<Happening>): seq<C.Event> {
    seq(|hs|, i requires 0 <= i < |hs| => hs[i].event)
  }

  /** The rows of one delivered message. */
  function Arrivals(c: Config, call: Call): seq<Happening> {
    if !call.OnRecord? then []
    else
      var pos := call.entry.pos;
      var targets := c.targets(pos);
      seq(|targets|, i requires 0 <= i < |targets| => Happening(C.Arrived(targets[i], c.walEnd(pos)), pos))
  }

  /** The rows of all delivered messages, in the order of delivery. */
  function AllArrivals(c: Config, calls: seq<Call>): seq<Happening> {
    if calls == [] then [] else AllArrivals(c, calls[..|calls| - 1]) + Arrivals(c, calls[|calls| - 1])
  }

  /** The calls that the message at `n` makes the tracker do. */
  function CallsAt(c: Config, evs: seq<Event>, n: nat): seq<Call>
    requires n < |evs|
  {
    Drop(T.Run(c.tracker, c.maxSize, evs[..n + 1]).calls, |T.Run(c.tracker, c.maxSize, evs[..n]).calls|)
  }

  function HappeningsAt(c: Config, evs: seq<Event>, task: Task): seq<Happening> {
    match task
    case Logical(n, _) => if n < |evs| then AllArrivals(c, CallsAt(c, evs, n)) else []
    case SnapshotStarted(chunk) => [Happening(C.Started(chunk), 0)]
    case SnapshotFinished(chunk, snapshot) => [Happening(C.Finished(chunk, snapshot), 0)]
    case _ => []
  }

  /** What happens to the chunks while the jobs run one after the other. */
  function Happenings(c: Config, evs: seq<Event>, jobs: seq<D.Job<Task>>): seq<Happening> {
    if jobs == [] then []
    else Happenings(c, evs, jobs[..|jobs| - 1]) + HappeningsAt(c, evs, jobs[|jobs| - 1].task)
  }

  // ---------------------------------------------------------------------------------------------
  // The records
  // ---------------------------------------------------------------------------------------------

  function Named(hs: seq<Happening>, row: C.Row): C.Row {
    row.(pos := if row.pos < |hs| then hs[row.pos].pos else 0)
  }

  function NamedAll(hs: seq<Happening>, rows: seq<C.Row>): seq<C.Row> {
    seq(|rows|, i requires 0 <= i < |rows| => Named(hs, rows[i]))
  }

  /** The chunk of the row was being snapshotted when the row arrived. */
  predicate WasHeld(evs: seq<C.Event>, row: C.Row) {
    row.chunk.Some? && row.pos <= |evs| && C.Snapshotting(evs[..row.pos], row.chunk.value)
  }

  function RecordOf(hs: seq<Happening>, row: C.Row): Task {
    Record(Named(hs, row), WasHeld(EventsOf(hs), row))
  }

  function RecordsFor(hs: seq<Happening>, rows: seq<C.Row>): seq<Task> {
    seq(|rows|, i requires 0 <= i < |rows| => RecordOf(hs, rows[i]))
  }

  /** One record for every row that the history of the chunks has run. */
  function RecordsOf(hs: seq<Happening>): seq<Task> {
    RecordsFor(hs, C.Run(EventsOf(hs)).executed)
  }

  function OnlyRecords(tasks: seq<Task>): seq<Task> {
    if tasks == [] then []
    else
      var n := |tasks| - 1;
      OnlyRecords(tasks[..n]) + if tasks[n].Record? then [tasks[n]] else []
  }

  /** The positions of the transactions that are reported as finished. */
  function Ends(tasks: seq<Task>): seq<nat> {
    if tasks == [] then []
    else
      var n := |tasks| - 1;
      Ends(tasks[..n]) + if tasks[n].TransactionFinished? then [tasks[n].pos] else []
  }

  function Commits(calls: seq<Call>): seq<nat> {
    if calls == [] then []
    else
      var n := |calls| - 1;
      Commits(calls[..n]) + if calls[n].OnCommit? then [calls[n].entry.pos] else []
  }

  lemma {:induction false} TasksConcat(a: seq<Task>, b: seq<Task>)
    ensures OnlyRecords(a + b) == OnlyRecords(a) + OnlyRecords(b) && Ends(a + b) == Ends(a) + Ends(b)
  {
    if b == [] {
      assert a + b == a;
    } else {
      assert (a + b)[..|a + b| - 1] == a + b[..|b| - 1];
      TasksConcat(a, b[..|b| - 1]);
    }
  }

  lemma {:induction false} AllRecords(tasks: seq<Task>)
    requires forall i :: 0 <= i < |tasks| ==> tasks[i].Record?
    ensures OnlyRecords(tasks) == tasks && Ends(tasks) == []
  {
    if tasks != [] {
      AllRecords(tasks[..|tasks| - 1]);
    }
  }

  lemma {:induction false} CallsConcat(c: Config, a: seq<Call>, b: seq<Call>)
    ensures Commits(a + b) == Commits(a) + Commits(b) && AllArrivals(c, a + b) == AllArrivals(c, a) + AllArrivals(c, b)
  {
    if b == [] {
      assert a + b == a;
    } else {
      assert (a + b)[..|a + b| - 1] == a + b[..|b| - 1];
      CallsConcat(c, a, b[..|b| - 1]);
    }
  }

  // ---------------------------------------------------------------------------------------------
  // One happening
  // ---------------------------------------------------------------------------------------------

  /** The resolver holds what the history of the chunks says, with the positions of the messages. */
  ghost predicate Mirrors(hs: seq<Happening>, hold: C.State) {
    var s := C.Run(EventsOf(hs));
    && hold.health == s.health
    && hold.executed == NamedAll(hs, s.executed)
    && hold.queues.Keys == s.queues.Keys
    && forall chunk :: chunk in s.queues ==> hold.queues[chunk] == NamedAll(hs, s.queues[chunk])
  }

  lemma EventsOne(hs: seq<Happening>, h: Happening)
    ensures EventsOf(hs + [h]) == EventsOf(hs) + [h.event]
    ensures C.Past(EventsOf(hs + [h])) == EventsOf(hs) && C.Latest(EventsOf(hs + [h])) == h.event
    ensures C.Run(EventsOf(hs + [h])) == C.Step(C.Run(EventsOf(hs)), |hs|, h.event)
  {
    assert EventsOf(hs + [h]) == EventsOf(hs) + [h.event];
    assert C.Past(EventsOf(hs + [h])) == EventsOf(hs);
  }

  /** Rows that have arrived are not affected by what happens next. */
  lemma NamedLater(hs: seq<Happening>, h: Happening, rows: seq<C.Row>)
    requires C.AreRows(EventsOf(hs), rows)
    ensures NamedAll(hs + [h], rows) == NamedAll(hs, rows) && RecordsFor(hs + [h], rows) == RecordsFor(hs, rows)
  {
    EventsOne(hs, h);
    forall i | 0 <= i < |rows| ensures RecordOf(hs + [h], rows[i]) == RecordOf(hs, rows[i]) {
      assert EventsOf(hs + [h])[..rows[i].pos] == EventsOf(hs)[..rows[i].pos];
    }
    assert forall i :: 0 <= i < |rows| ==> Named(hs + [h], rows[i]) == Named(hs, rows[i]);
  }

  lemma NamedConcat(hs: seq<Happening>, a: seq<C.Row>, b: seq<C.Row>)
    ensures NamedAll(hs, a + b) == NamedAll(hs, a) + NamedAll(hs, b)
    ensures RecordsFor(hs, a + b) == RecordsFor(hs, a) + RecordsFor(hs, b)
  {
  }

  lemma {:induction false} NamedReleased(hs: seq<Happening>, queue: seq<C.Row>, snapshot: nat)
    ensures C.Released(NamedAll(hs, queue), snapshot) == NamedAll(hs, C.Released(queue, snapshot))
  {
    if queue != [] {
      var n := |queue| - 1;
      NamedReleased(hs, queue[..n], snapshot);
      assert NamedAll(hs, queue)[..n] == NamedAll(hs, queue[..n]);
    }
  }

  lemma OldRows(hs: seq<Happening>, h: Happening)
    ensures var s := C.Run(EventsOf(hs));
            && NamedAll(hs + [h], s.executed) == NamedAll(hs, s.executed)
            && RecordsFor(hs + [h], s.executed) == RecordsOf(hs)
            && forall chunk :: chunk in s.queues ==>
                 NamedAll(hs + [h], s.queues[chunk]) == NamedAll(hs, s.queues[chunk])
  {
    hide C.Run, NamedAll, RecordsFor, EventsOf, C.AreRows;
    var s := C.Run(EventsOf(hs));
    C.RunHoldsRows(EventsOf(hs));
    NamedLater(hs, h, s.executed);
    forall chunk | chunk in s.queues ensures NamedAll(hs + [h], s.queues[chunk]) == NamedAll(hs, s.queues[chunk]) {
      NamedLater(hs, h, s.queues[chunk]);
    }
  }

  lemma DeadStep(hs: seq<Happening>, h: Happening, hold: C.State)
    requires Mirrors(hs, hold) && hold.health != C.Running
    ensures Mirrors(hs + [h], hold) && RecordsOf(hs + [h]) == RecordsOf(hs)
  {
    hide C.Run, NamedAll, RecordsFor, EventsOf;
    OldRows(hs, h);
    EventsOne(hs, h);
  }

  lemma StartStep(hs: seq<Happening>, hold: C.State, chunk: string)
    requires Mirrors(hs, hold) && hold.health == C.Running
    ensures var h := Happening(C.Started(chunk), 0);
            Mirrors(hs + [h], C.StartedEvent(hold, chunk)) && RecordsOf(hs + [h]) == RecordsOf(hs)
  {
    hide C.Run, RecordsFor, EventsOf;
    var h := Happening(C.Started(chunk), 0);
    OldRows(hs, h);
    EventsOne(hs, h);
  }

  /** Rows that waited were held when they arrived. */
  lemma WaitedAreHeld(hs: seq<Happening>, chunk: string, snapshot: nat)
    requires var s := C.Run(EventsOf(hs));
             s.health == C.Running && chunk in s.queues
    ensures var h := Happening(C.Finished(chunk, snapshot), 0);
            var released := C.Released(C.Run(EventsOf(hs)).queues[chunk], snapshot);
            RecordsFor(hs + [h], released) == HeldRecords(NamedAll(hs + [h], released))
  {
    hide C.Run, C.Released, C.Snapshotting;
    var evs := EventsOf(hs);
    var h := Happening(C.Finished(chunk, snapshot), 0);
    var queue := C.Run(evs).queues[chunk];
    var released := C.Released(queue, snapshot);
    EventsOne(hs, h);
    C.RunHoldsRows(evs);
    C.ChunksAreSeparate(evs);
    C.WaitingOwned(evs, chunk);
    forall i | 0 <= i < |released| ensures WasHeld(EventsOf(hs + [h]), released[i]) {
      C.ReleasedMember(queue, snapshot, released[i]);
      var k :| 0 <= k < |queue| && queue[k] == released[i];
      assert released[i].chunk == Some(chunk) && released[i] == C.RowAt(evs, released[i].pos);
      C.StillWaiting(evs, chunk, released[i].pos);
      assert EventsOf(hs + [h])[..released[i].pos] == evs[..released[i].pos];
    }
  }

  lemma FinishStep(hs: seq<Happening>, hold: C.State, chunk: string, snapshot: nat)
    requires Mirrors(hs, hold) && hold.health == C.Running
    ensures var h := Happening(C.Finished(chunk, snapshot), 0);
            var hold' := C.FinishedEvent(hold, chunk, snapshot);
            && Mirrors(hs + [h], hold')
            && RecordsOf(hs + [h]) == RecordsOf(hs) + HeldRecords(Drop(hold'.executed, |hold.executed|))
  {
    hide C.Run, C.Released, RecordsFor, EventsOf, NamedAll;
    var h := Happening(C.Finished(chunk, snapshot), 0);
    var s := C.Run(EventsOf(hs));
    OldRows(hs, h);
    EventsOne(hs, h);
    if chunk in s.queues {
      var released := C.Released(s.queues[chunk], snapshot);
      NamedReleased(hs, s.queues[chunk], snapshot);
      C.RunHoldsRows(EventsOf(hs));
      C.ReleasedAreRows(EventsOf(hs), s.queues[chunk], snapshot);
      NamedLater(hs, h, released);
      NamedConcat(hs + [h], s.executed, released);
      WaitedAreHeld(hs, chunk, snapshot);
      assert Drop(hold.executed + NamedAll(hs, released), |hold.executed|) == NamedAll(hs, released);
    } else {
      assert HeldRecords(Drop(hold.executed, |hold.executed|)) == [];
    }
  }

  /** A row that runs at once was not held. */
  lemma AtOnce(hs: seq<Happening>, h: Happening)
    requires h.event.Arrived? && C.Run(EventsOf(hs)).health == C.Running
    requires h.event.rowChunk.Some? ==> h.event.rowChunk.value !in C.Run(EventsOf(hs)).queues
    ensures var row := C.Row(|hs|, h.event.rowChunk, h.event.walEnd);
            RecordsFor(hs + [h], [row]) == [Record(row.(pos := h.pos), false)]
    ensures NamedAll(hs + [h], [C.Row(|hs|, h.event.rowChunk, h.event.walEnd)]) ==
            [C.Row(h.pos, h.event.rowChunk, h.event.walEnd)]
  {
    hide C.Run, C.Snapshotting;
    EventsOne(hs, h);
    C.ChunksAreSeparate(EventsOf(hs));
    assert EventsOf(hs + [h])[..|hs|] == EventsOf(hs);
  }

  lemma ArriveStep(hs: seq<Happening>, hold: C.State, h: Happening)
    requires Mirrors(hs, hold) && h.event.Arrived?
    ensures var (hold', tasks) := Arrive(hold, C.Row(h.pos, h.event.rowChunk, h.event.walEnd));
            Mirrors(hs + [h], hold') && RecordsOf(hs + [h]) == RecordsOf(hs) + tasks
  {
    hide C.Run, RecordsFor, EventsOf, NamedAll;
    if hold.health != C.Running {
      DeadStep(hs, h, hold);
    } else {
      OldRows(hs, h);
      EventsOne(hs, h);
      var s := C.Run(EventsOf(hs));
      var row := C.Row(|hs|, h.event.rowChunk, h.event.walEnd);
      NamedLength(hs, s);
      if row.chunk.None? || row.chunk.value !in s.queues {
        AtOnce(hs, h);
        NamedConcat(hs + [h], s.executed, [row]);
      } else {
        NamedConcat(hs + [h], s.queues[row.chunk.value], [row]);
        NamedNew(hs, h);
      }
    }
  }

  lemma NamedNew(hs: seq<Happening>, h: Happening)
    requires h.event.Arrived?
    ensures NamedAll(hs + [h], [C.Row(|hs|, h.event.rowChunk, h.event.walEnd)]) ==
            [C.Row(h.pos, h.event.rowChunk, h.event.walEnd)]
  {
  }

  lemma NamedLength(hs: seq<Happening>, s: C.State)
    ensures forall chunk :: chunk in s.queues ==> |NamedAll(hs, s.queues[chunk])| == |s.queues[chunk]|
  {
  }

  // ---------------------------------------------------------------------------------------------
  // Whole messages and whole runs
  // ---------------------------------------------------------------------------------------------

  lemma {:induction false} ArriveAllSteps(hs: seq<Happening>, hold: C.State, more: seq<Happening>, rows: seq<C.Row>)
    requires Mirrors(hs, hold) && |more| == |rows|
    requires forall i :: 0 <= i < |more| ==>
               more[i].event.Arrived? && rows[i] == C.Row(more[i].pos, more[i].event.rowChunk, more[i].event.walEnd)
    ensures var (hold', tasks) := ArriveAll(hold, rows);
            Mirrors(hs + more, hold') && RecordsOf(hs + more) == RecordsOf(hs) + tasks
  {
    hide Mirrors, RecordsOf, Arrive;
    if more == [] {
      assert hs + more == hs;
    } else {
      var n := |more| - 1;
      ArriveAllSteps(hs, hold, more[..n], rows[..n]);
      assert hs + more == hs + more[..n] + [more[n]];
      ArriveStep(hs + more[..n], ArriveAll(hold, rows[..n]).0, more[n]);
    }
  }

  lemma ResolveStep(c: Config, hs: seq<Happening>, hold: C.State, call: Call)
    requires Mirrors(hs, hold)
    ensures var (hold', tasks) := Resolve(c, hold, call);
            && Mirrors(hs + Arrivals(c, call), hold')
            && RecordsOf(hs + Arrivals(c, call)) == RecordsOf(hs) + OnlyRecords(tasks)
            && Ends(tasks) == Commits([call])
  {
    hide Mirrors, RecordsOf, ArriveAll;
    assert [call][..0] == [];
    if call.OnRecord? {
      ArriveAllSteps(hs, hold, Arrivals(c, call), RowsOf(c, call.entry));
      ArriveAllTasks(hold, RowsOf(c, call.entry));
      AllRecords(ArriveAll(hold, RowsOf(c, call.entry)).1);
    } else {
      assert hs + Arrivals(c, call) == hs;
      var tasks := Resolve(c, hold, call).1;
      assert tasks != [] ==> tasks[..0] == [];
    }
  }

  lemma {:induction false} ResolveAllSteps(c: Config, hs: seq<Happening>, hold: C.State, calls: seq<Call>)
    requires Mirrors(hs, hold)
    ensures var (hold', tasks) := ResolveAll(c, hold, calls);
            && Mirrors(hs + AllArrivals(c, calls), hold')
            && RecordsOf(hs + AllArrivals(c, calls)) == RecordsOf(hs) + OnlyRecords(tasks)
            && Ends(tasks) == Commits(calls)
  {
    hide Mirrors, RecordsOf, Resolve, Arrivals;
    if calls == [] {
      assert hs + AllArrivals(c, calls) == hs;
    } else {
      var n := |calls| - 1;
      ResolveAllSteps(c, hs, hold, calls[..n]);
      var (hold', tasks) := ResolveAll(c, hold, calls[..n]);
      var before := hs + AllArrivals(c, calls[..n]);
      ResolveStep(c, before, hold', calls[n]);
      assert hs + AllArrivals(c, calls) == before + Arrivals(c, calls[n]);
      TasksConcat(tasks, Resolve(c, hold', calls[n]).1);
      assert calls[..n] + [calls[n]] == calls;
      CallsConcat(c, calls[..n], [calls[n]]);
    }
  }

  /** Only records and ends of transactions are produced. */
  predicate IsResult(task: Task) {
    task.Record? || task.TransactionFinished?
  }

  ghost predicate Exact(c: Config, evs: seq<Event>, hs: seq<Happening>, s: State, produced: seq<Task>) {
    && Mirrors(hs, s.hold)
    && OnlyRecords(produced) == RecordsOf(hs)
    && Ends(produced) == Commits(s.tracker.calls)
    && ArrivalsIn(hs) == AllArrivals(c, s.tracker.calls)
  }

  /** The rows among what happened, in order. */
  function ArrivalsIn(hs: seq<Happening>): seq<Happening> {
    if hs == [] then []
    else
      var n := |hs| - 1;
      ArrivalsIn(hs[..n]) + if hs[n].event.Arrived? then [hs[n]] else []
  }

  lemma {:induction false} ArrivalsInConcat(a: seq<Happening>, b: seq<Happening>)
    ensures ArrivalsIn(a + b) == ArrivalsIn(a) + ArrivalsIn(b)
  {
    if b == [] {
      assert a + b == a;
    } else {
      assert (a + b)[..|a + b| - 1] == a + b[..|b| - 1];
      ArrivalsInConcat(a, b[..|b| - 1]);
    }
  }

  lemma {:induction false} ArrivalsOnly(c: Config, calls: seq<Call>)
    ensures ArrivalsIn(AllArrivals(c, calls)) == AllArrivals(c, calls)
  {
    if calls != [] {
      var n := |calls| - 1;
      ArrivalsOnly(c, calls[..n]);
      ArrivalsInConcat(AllArrivals(c, calls[..n]), Arrivals(c, calls[n]));
      AllArrived(Arrivals(c, calls[n]));
    }
  }

  lemma {:induction false} AllArrived(hs: seq<Happening>)
    requires forall i :: 0 <= i < |hs| ==> hs[i].event.Arrived?
    ensures ArrivalsIn(hs) == hs
  {
    if hs != [] {
      AllArrived(hs[..|hs| - 1]);
    }
  }

  lemma ExactLogical(c: Config, evs: seq<Event>, hs: seq<Happening>, s: State, produced: seq<Task>, n: nat)
    requires n < |evs| && Exact(c, evs, hs, s, produced) && s.tracker == T.Run(c.tracker, c.maxSize, evs[..n])
    ensures var (s', more) := Handle(c, s, Task.Logical(n, evs[n]));
            Exact(c, evs, hs + AllArrivals(c, CallsAt(c, evs, n)), s', produced + more)
  {
    hide Mirrors, RecordsOf, T.Step, AllArrivals, ArrivalsIn, OnlyRecords, Ends, Commits, ResolveAll;
    var calls := CallsAt(c, evs, n);
    var tracker := T.Step(c.tracker, s.tracker, n, evs[n]);
    assert evs[..n + 1][..n] == evs[..n];
    assert T.Run(c.tracker, c.maxSize, evs[..n + 1]) == tracker;
    I.StepHands(c.tracker, s.tracker, n, evs[n]);
    assert s.tracker.calls + calls == tracker.calls;
    ResolveAllSteps(c, hs, s.hold, calls);
    TasksConcat(produced, ResolveAll(c, s.hold, calls).1);
    CallsConcat(c, s.tracker.calls, calls);
    ArrivalsInConcat(hs, AllArrivals(c, calls));
    ArrivalsOnly(c, calls);
  }

  lemma ExactSnapshot(c: Config, evs: seq<Event>, hs: seq<Happening>, s: State, produced: seq<Task>, task: Task)
    requires Exact(c, evs, hs, s, produced) && !task.Logical?
    ensures var (s', more) := Handle(c, s, task);
            Exact(c, evs, hs + HappeningsAt(c, evs, task), s', produced + more)
  {
    hide Mirrors, RecordsOf, AllArrivals, OnlyRecords, Ends, ArrivalsIn;
    var hs' := HappeningsAt(c, evs, task);
    var (s', more) := Handle(c, s, task);
    ArrivalsInConcat(hs, hs');
    NoArrivals(c, evs, task);
    TasksConcat(produced, more);
    AllRecords(more);
    if hs' == [] {
      assert hs + hs' == hs;
    } else if s.hold.health != C.Running {
      DeadStep(hs, hs'[0], s.hold);
    } else if task.SnapshotStarted? {
      StartStep(hs, s.hold, task.chunk);
    } else {
      FinishStep(hs, s.hold, task.chunk, task.snapshot);
    }
  }

  lemma NoArrivals(c: Config, evs: seq<Event>, task: Task)
    requires !task.Logical?
    ensures ArrivalsIn(HappeningsAt(c, evs, task)) == []
  {
  }

  lemma ExactStart(c: Config, evs: seq<Event>)
    ensures Exact(c, evs, [], Start(c), [])
  {
    assert EventsOf([]) == [];
  }

  /** Along every sequence of jobs that respects the stream: the records produced are one for each row that the
      history of the chunks has run, in that order, held exactly if the chunk was being snapshotted when the row
      arrived; the transactions reported as finished are those whose commit the tracker delivered; the rows that
      arrived are those of the delivered messages; and nothing else is produced. */
  lemma {:induction false} ProducedExactly(c: Config, evs: seq<Event>, jobs: seq<D.Job<Task>>)
    requires Sourced(jobs) && D.By(jobs, D.Reader) <= WalTasks(evs)
    ensures var (s, produced) := D.Produced(Handler(c), Start(c), jobs);
            var hs := Happenings(c, evs, jobs);
            && s.tracker == T.Run(c.tracker, c.maxSize, evs[..|D.By(jobs, D.Reader)|])
            && Exact(c, evs, hs, s, produced)
            && forall i :: 0 <= i < |produced| ==> IsResult(produced[i])
  {
    hide Exact, T.Run, Handle, HappeningsAt;
    SequentialRun(c, evs, jobs);
    if jobs == [] {
      ExactStart(c, evs);
    } else {
      var k := |jobs| - 1;
      var past := jobs[..k];
      ProducedExactly(c, evs, past);
      var (s, produced) := D.Produced(Handler(c), Start(c), past);
      var n := |D.By(past, D.Reader)|;
      HandleResults(c, s, jobs[k].task);
      if jobs[k].source == D.Reader {
        assert jobs[k].task == D.By(jobs, D.Reader)[n] == WalTasks(evs)[n];
        ExactLogical(c, evs, Happenings(c, evs, past), s, produced, n);
        AtLogical(c, evs, n);
      } else {
        ExactSnapshot(c, evs, Happenings(c, evs, past), s, produced, jobs[k].task);
      }
    }
  }

  lemma AtLogical(c: Config, evs: seq<Event>, n: nat)
    requires n < |evs|
    ensures HappeningsAt(c, evs, WalTasks(evs)[n]) == AllArrivals(c, CallsAt(c, evs, n))
  {
  }

  lemma HandleResults(c: Config, s: State, task: Task)
    ensures forall i :: 0 <= i < |Handle(c, s, task).1| ==> IsResult(Handle(c, s, task).1[i])
  {
    if task.Logical? {
      hide T.Step, ResolveAll;
      var calls := Drop(T.Step(c.tracker, s.tracker, task.pos, task.event).calls, |s.tracker.calls|);
      ResolveAllTasks(c, s.hold, calls);
    }
  }

  // ---------------------------------------------------------------------------------------------
  // Row by row
  // ---------------------------------------------------------------------------------------------

  /** The history of the chunks releases the row that arrived at `i`. */
  ghost predicate Releases(hs: seq<Happening>, i: nat)
    requires i < |hs|
  {
    var evs := EventsOf(hs);
    hs[i].event.Arrived? && (hs[i].event.rowChunk.None? || C.Runs(evs, hs[i].event.rowChunk.value, i))
  }

  /** `order` lists each released row once, and the records are those of these rows. */
  ghost predicate RecordsEach(hs: seq<Happening>, records: seq<Task>, order: seq<nat>) {
    && |records| == |order|
    && (forall k :: 0 <= k < |order| ==> order[k] < |hs|)
    && (forall k, l :: 0 <= k < l < |order| ==> order[k] != order[l])
    && (forall i :: 0 <= i < |hs| ==> (i in order <==> Releases(hs, i)))
    && (forall k :: 0 <= k < |order| ==> hs[order[k]].event.Arrived? && records[k] == RecordAt(hs, order[k]))
  }

  function RecordAt(hs: seq<Happening>, i: nat): Task
    requires i < |hs| && hs[i].event.Arrived?
  {
    var chunk := hs[i].event.rowChunk;
    Record(C.Row(hs[i].pos, chunk, hs[i].event.walEnd), chunk.Some? && C.Snapshotting(EventsOf(hs)[..i], chunk.value))
  }

  ghost predicate ChunksSurvive(hs: seq<Happening>) {
    var evs := EventsOf(hs);
    forall i :: 0 <= i < |evs| ==> C.Survives(evs[..i], evs[i])
  }

  lemma RecordIsAt(hs: seq<Happening>, row: C.Row)
    requires C.AreRows(EventsOf(hs), [row])
    ensures row.pos < |hs| && hs[row.pos].event.Arrived? && RecordOf(hs, row) == RecordAt(hs, row.pos)
  {
    hide C.Snapshotting;
    assert [row][0] == row;
    assert EventsOf(hs)[row.pos] == hs[row.pos].event;
  }

  lemma ReleasedHasRun(hs: seq<Happening>, i: nat)
    requires i < |hs| && C.Run(EventsOf(hs)).health == C.Running
    ensures var rows := C.Run(EventsOf(hs)).executed;
            Releases(hs, i) <==> exists k :: 0 <= k < |rows| && rows[k].pos == i
  {
    hide C.Run, C.Runs;
    var evs := EventsOf(hs);
    var rows := C.Run(evs).executed;
    C.ExecutedOnce(evs);
    assert evs[i] == hs[i].event;
    if hs[i].event.Arrived? {
      C.ExecutedExactly(evs, i);
      if Releases(hs, i) {
        var k :| 0 <= k < |rows| && rows[k] == C.RowAt(evs, i);
        assert rows[k].pos == i;
      }
    }
    if k :| 0 <= k < |rows| && rows[k].pos == i {
      assert rows[k] == C.RowAt(evs, i);
    }
  }

  /** As long as no chunk snapshot finishes unexpectedly and no queue is full, there is exactly one record for every row
      that the history of the chunks releases. */
  lemma RecordsExactly(hs: seq<Happening>) returns (order: seq<nat>)
    requires ChunksSurvive(hs)
    ensures RecordsEach(hs, RecordsOf(hs), order)
  {
    hide C.Run, Releases, RecordOf, RecordAt, EventsOf, C.Survives;
    var evs := EventsOf(hs);
    var rows := C.Run(evs).executed;
    C.ChunksAreSeparate(evs);
    C.ExecutedOnce(evs);
    order := seq(|rows|, k requires 0 <= k < |rows| => rows[k].pos);
    forall k | 0 <= k < |rows|
      ensures order[k] < |hs| && hs[order[k]].event.Arrived? && RecordsOf(hs)[k] == RecordAt(hs, order[k])
    {
      RecordIsAt(hs, rows[k]);
    }
    forall i | 0 <= i < |hs| ensures i in order <==> Releases(hs, i) {
      ReleasedHasRun(hs, i);
      if k :| 0 <= k < |rows| && rows[k].pos == i {
        assert order[k] == i;
      }
      if i in order {
        var k :| 0 <= k < |order| && order[k] == i;
        assert rows[k].pos == i;
      }
    }
  }

  // ---------------------------------------------------------------------------------------------
  // Every interleaving
  // ---------------------------------------------------------------------------------------------

  /** In every interleaving, once the stream is read and nothing waits: the records that ran are exactly those of the
      rows of the delivered messages that the history of the chunks releases, each once; and the transactions that
      were reported as finished are those whose commit was delivered, in order. */
  lemma DrainedExactly(c: Config, evs: seq<Event>, moves: seq<D.Move<Task>>) returns (order: seq<nat>)
    requires WorkersSendNoMessages(moves)
    requires var s := D.Run(Handler(c), Start(c), WalTasks(evs), moves);
             s.accepting && D.Drained(s) && ChunksSurvive(Happenings(c, evs, s.ran))
    ensures var s := D.Run(Handler(c), Start(c), WalTasks(evs), moves);
            var hs := Happenings(c, evs, s.ran);
            var results := D.By(s.ran, D.Dispatcher);
            var calls := T.Run(c.tracker, c.maxSize, evs).calls;
            && RecordsEach(hs, OnlyRecords(results), order)
            && ArrivalsIn(hs) == AllArrivals(c, calls)
            && Ends(results) == Commits(calls)
            && forall i :: 0 <= i < |results| ==> IsResult(results[i])
  {
    hide D.Run, D.By, D.Produced, T.Run, Sourced, Happenings, RecordsEach, ChunksSurvive, OnlyRecords, RecordsOf, Ends,
      Commits, ArrivalsIn, AllArrivals;
    var s := D.Run(Handler(c), Start(c), WalTasks(evs), moves);
    D.RunsInOrder(Handler(c), Start(c), WalTasks(evs), moves);
    RunSourced(c, evs, moves);
    SourcedPrefix(s.ran, s.channel);
    assert |WalTasks(evs)| == |evs| && evs[..|evs|] == evs;
    ProducedExactly(c, evs, s.ran);
    order := RecordsExactly(Happenings(c, evs, s.ran));
  }

  /** How many waiting tasks may still produce something. */
  function Unresolved(channel: seq<D.Job<Task>>): nat {
    if channel == [] then 0 else Unresolved(channel[1..]) + if IsResult(channel[0].task) then 0 else 1
  }

  lemma {:induction false} UnresolvedAppend(channel: seq<D.Job<Task>>, job: D.Job<Task>)
    ensures Unresolved(channel + [job]) == Unresolved(channel) + if IsResult(job.task) then 0 else 1
  {
    if channel == [] {
      assert channel + [job] == [job];
    } else {
      assert (channel + [job])[1..] == channel[1..] + [job];
      UnresolvedAppend(channel[1..], job);
    }
  }

  ghost predicate SendsResults(s: D.State<State, Task>) {
    forall i :: 0 <= i < |s.outbox| ==> IsResult(s.outbox[i])
  }

  lemma {:induction false} RunSendsResults(c: Config, evs: seq<Event>, moves: seq<D.Move<Task>>)
    ensures SendsResults(D.Run(Handler(c), Start(c), WalTasks(evs), moves))
  {
    hide Handle;
    if moves != [] {
      var n := |moves| - 1;
      RunSendsResults(c, evs, moves[..n]);
      var s := D.Run(Handler(c), Start(c), WalTasks(evs), moves[..n]);
      if s.channel != [] {
        HandleResults(c, s.handler, s.channel[0].task);
      }
    }
  }

  lemma ResultsProduceNothing(c: Config, s: State, task: Task)
    requires IsResult(task)
    ensures Handle(c, s, task).1 == []
  {
  }

  lemma NextShrinks(c: Config, s: D.State<State, Task>)
    requires SendsResults(s) && !D.Drained(s)
    ensures var s' := D.Step(Handler(c), s, D.Next(s));
            || |s'.unread| < |s.unread|
            || (s'.unread == s.unread && Unresolved(s'.channel) < Unresolved(s.channel))
            || (s'.unread == s.unread && Unresolved(s'.channel) == Unresolved(s.channel)
                && 2 * |s'.outbox| + |s'.channel| < 2 * |s.outbox| + |s.channel|)
  {
    hide Handle;
    if s.unread == [] && s.outbox != [] {
      UnresolvedAppend(s.channel, D.Job(s.outbox[0], D.Dispatcher));
    } else if s.unread == [] && IsResult(s.channel[0].task) {
      ResultsProduceNothing(c, s.handler, s.channel[0].task);
    }
  }

  /** Every run can go on, without workers, until the stream is read, nothing waits and everything produced has been
      sent. */
  lemma {:induction false} CanDrain(c: Config, evs: seq<Event>, moves: seq<D.Move<Task>>)
    returns (more: seq<D.Move<Task>>)
    ensures D.Drained(D.Run(Handler(c), Start(c), WalTasks(evs), moves + more))
    ensures forall i :: 0 <= i < |more| ==> !more[i].WorkerSends? && !more[i].ShutsDown?
    decreases |D.Run(Handler(c), Start(c), WalTasks(evs), moves).unread|,
              Unresolved(D.Run(Handler(c), Start(c), WalTasks(evs), moves).channel),
              2 * |D.Run(Handler(c), Start(c), WalTasks(evs), moves).outbox| +
              |D.Run(Handler(c), Start(c), WalTasks(evs), moves).channel|
  {
    hide D.Run, D.Step, Unresolved, Handle;
    var s := D.Run(Handler(c), Start(c), WalTasks(evs), moves);
    if D.Drained(s) {
      more := [];
      assert moves + more == moves;
    } else {
      RunSendsResults(c, evs, moves);
      NextShrinks(c, s);
      D.RunOne(Handler(c), Start(c), WalTasks(evs), moves, D.Next(s));
      var rest := CanDrain(c, evs, moves + [D.Next(s)]);
      more := [D.Next(s)] + rest;
      assert moves + more == moves + [D.Next(s)] + rest;
    }
  }
}
