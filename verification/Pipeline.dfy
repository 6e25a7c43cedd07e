/** The replication pipeline on the dispatcher: transaction tracker, resolver with its held-back chunks, and the
    record tasks they produce. */
module Pipeline {
  import opened Wrappers
  import opened Wal
  import T = TransactionTracker
  import W = TransactionWindow
  import O = TransactionOrder
  import I = TransactionIsolation
  import C = ChunkHold
  import D = Dispatch

  datatype Task =
    | Logical(pos: nat, event: Event)
    | SnapshotStarted(chunk: string)
    | SnapshotFinished(chunk: string, snapshot: nat)
    | Record(row: C.Row, held: bool)
    | TransactionFinished(pos: nat)

  /** `targets` gives the record events the resolver makes of the message at a position, each with the chunk
      it belongs to, and `walEnd` the server's WAL end at that message. */
  datatype Config = Config(
    tracker: T.Config,
    maxSize: nat,
    targets: nat -> seq<Option<string>>,
    walEnd: nat -> nat)

  datatype State = State(tracker: T.State, hold: C.State)

  function Start(c: Config): State {
    State(T.Initial(c.maxSize), C.Initial())
  }

  /** A row event is held back or becomes a record task. */
  function Arrive(hold: C.State, row: C.Row): (C.State, seq<Task>) {
    if hold.health != C.Running then (hold, [])
    else
      var hold' := C.ArrivedEvent(hold, row);
      (hold', if hold'.executed != hold.executed then [Record(row, false)] else [])
  }

  function ArriveAll(hold: C.State, rows: seq<C.Row>): (C.State, seq<Task>) {
    if rows == [] then (hold, [])
    else
      var (hold', tasks) := ArriveAll(hold, rows[..|rows| - 1]);
      var (hold'', more) := Arrive(hold', rows[|rows| - 1]);
      (hold'', tasks + more)
  }

  function RowsOf(c: Config, e: Entry): seq<C.Row> {
    seq(|c.targets(e.pos)|, i requires 0 <= i < |c.targets(e.pos)| =>
        C.Row(e.pos, c.targets(e.pos)[i], c.walEnd(e.pos)))
  }

  function Resolve(c: Config, hold: C.State, call: Call): (C.State, seq<Task>) {
    match call
    case OnCommit(e) => (hold, [TransactionFinished(e.pos)])
    case OnRecord(e) => ArriveAll(hold, RowsOf(c, e))
    case _ => (hold, [])
  }

  function ResolveAll(c: Config, hold: C.State, calls: seq<Call>): (C.State, seq<Task>) {
    if calls == [] then (hold, [])
    else
      var (hold', tasks) := ResolveAll(c, hold, calls[..|calls| - 1]);
      var (hold'', more) := Resolve(c, hold', calls[|calls| - 1]);
      (hold'', tasks + more)
  }

  function HeldRecords(rows: seq<C.Row>): seq<Task> {
    seq(|rows|, i requires 0 <= i < |rows| => Record(rows[i], true))
  }

  function Drop<X>(xs: seq<X>, n: nat): seq<X> {
    if n <= |xs| then xs[n..] else []
  }

  function Handle(c: Config, s: State, task: Task): (State, seq<Task>) {
    match task
    case Logical(pos, event) =>
      var tracker := T.Step(c.tracker, s.tracker, pos, event);
      var (hold, tasks) := ResolveAll(c, s.hold, Drop(tracker.calls, |s.tracker.calls|));
      (State(tracker, hold), tasks)
    case SnapshotStarted(chunk) =>
      (if s.hold.health == C.Running then s.(hold := C.StartedEvent(s.hold, chunk)) else s, [])
    case SnapshotFinished(chunk, snapshot) =>
      if s.hold.health != C.Running then (s, [])
      else
        var hold := C.FinishedEvent(s.hold, chunk, snapshot);
        (s.(hold := hold), HeldRecords(Drop(hold.executed, |s.hold.executed|)))
    case Record(_, _) => (s, [])
    case TransactionFinished(_) => (s, [])
  }

  /** The reader turns every message of the stream into one task. */
  function WalTasks(evs: seq<Event>): seq<Task> {
    seq(|evs|, i requires 0 <= i < |evs| => Task.Logical(i, evs[i]))
  }

  // ---------------------------------------------------------------------------------------------
  // What the resolver makes of the calls of the tracker
  // ---------------------------------------------------------------------------------------------

  predicate Unheld(task: Task) {
    task.Record? && !task.held
  }

  lemma {:induction false} ArriveAllTasks(hold: C.State, rows: seq<C.Row>)
    ensures forall i :: 0 <= i < |ArriveAll(hold, rows).1| ==>
              Unheld(ArriveAll(hold, rows).1[i]) && ArriveAll(hold, rows).1[i].row in rows
  {
    if rows != [] {
      ArriveAllTasks(hold, rows[..|rows| - 1]);
    }
  }

  lemma ResolveTasks(c: Config, hold: C.State, call: Call)
    ensures forall i :: 0 <= i < |Resolve(c, hold, call).1| ==> MadeBy(Resolve(c, hold, call).1[i], call)
  {
    if call.OnRecord? {
      ArriveAllTasks(hold, RowsOf(c, call.entry));
    }
  }

  /** The task is one the resolver makes of the call. */
  predicate MadeBy(task: Task, call: Call) {
    || (call.OnRecord? && Unheld(task) && task.row.pos == call.entry.pos)
    || (call.OnCommit? && task == TransactionFinished(call.entry.pos))
  }

  /** The task comes from one of the calls. */
  ghost predicate ComesFrom(task: Task, calls: seq<Call>) {
    exists i :: 0 <= i < |calls| && MadeBy(task, calls[i])
  }

  lemma {:induction false} ResolveAllTasks(c: Config, hold: C.State, calls: seq<Call>)
    ensures forall i :: 0 <= i < |ResolveAll(c, hold, calls).1| ==> ComesFrom(ResolveAll(c, hold, calls).1[i], calls)
    ensures (forall i :: 0 <= i < |calls| - 1 ==> !calls[i].OnCommit?) ==>
              forall i :: 0 <= i < |ResolveAll(c, hold, calls).1| - 1 ==>
                !ResolveAll(c, hold, calls).1[i].TransactionFinished?
  {
    if calls != [] {
      var n := |calls| - 1;
      var past := calls[..n];
      ResolveAllTasks(c, hold, past);
      var (hold', tasks) := ResolveAll(c, hold, past);
      ResolveTasks(c, hold', calls[n]);
      var all := ResolveAll(c, hold, calls).1;
      forall i | 0 <= i < |all| ensures ComesFrom(all[i], calls) {
        if i < |tasks| {
          assert ComesFrom(tasks[i], past);
          var j :| 0 <= j < |past| && MadeBy(tasks[i], past[j]);
          assert calls[j] == past[j];
        }
      }
      if forall i :: 0 <= i < |calls| - 1 ==> !calls[i].OnCommit? {
        forall i | 0 <= i < |tasks| ensures !tasks[i].TransactionFinished? {
          assert ComesFrom(tasks[i], past);
        }
      }
    }
  }

  // ---------------------------------------------------------------------------------------------
  // A sequential run
  // ---------------------------------------------------------------------------------------------

  /** A step hands on a commit only as its last call, and leaves the transaction closed. */
  lemma StepCommits(c: T.Config, s: T.State, pos: nat, ev: Event)
    ensures var s' := T.Step(c, s, pos, ev);
            forall i :: |s.calls| <= i < |s'.calls| && s'.calls[i].OnCommit? ==> i == |s'.calls| - 1 && !s'.tx.active
  {
    if s.health == T.Running && ev.msg.Commit? {
      if s.tx.active && !c.markers {
        O.WindowEnd(c, s, Entry(pos, ev.msg), ev.catalog);
      }
    } else if s.health == T.Running && W.IsRecord(ev.msg) {
      var t := O.RecordShape(c, s, pos, ev);
    }
  }

  /** No unheld record at or before a finished transaction was produced after it, and none is left in the
      tracker; `n` messages have been handled. */
  ghost predicate Sequential(s: State, produced: seq<Task>, n: nat) {
    && (forall i, j :: 0 <= i < j < |produced| && produced[i].TransactionFinished? && Unheld(produced[j]) ==>
          produced[i].pos < produced[j].row.pos)
    && (forall i :: 0 <= i < |produced| && produced[i].TransactionFinished? ==> Over(s.tracker, produced[i].pos, n))
  }

  ghost predicate Over(tracker: T.State, pos: nat, n: nat) {
    pos < n && (tracker.tx.active ==> forall q :: 0 <= q < |tracker.queue| ==> pos < tracker.queue[q].pos)
  }

  lemma LogicalTasks(c: Config, s: State, n: nat, ev: Event)
    ensures var tasks := Handle(c, s, Task.Logical(n, ev)).1;
            var tracker := T.Step(c.tracker, s.tracker, n, ev);
            && (forall i :: 0 <= i < |tasks| && tasks[i].TransactionFinished? ==>
                  tasks[i].pos == n && i == |tasks| - 1 && !tracker.tx.active)
            && (forall i :: 0 <= i < |tasks| && Unheld(tasks[i]) ==>
                  tasks[i].row.pos == n ||
                  (s.tracker.tx.active &&
                   exists q :: 0 <= q < |s.tracker.queue| && s.tracker.queue[q].pos == tasks[i].row.pos))
  {
    I.StepHands(c.tracker, s.tracker, n, ev);
    StepCommits(c.tracker, s.tracker, n, ev);
    hide T.Step, ResolveAll;
    var tracker := T.Step(c.tracker, s.tracker, n, ev);
    var calls := tracker.calls[|s.tracker.calls|..];
    ResolveAllTasks(c, s.hold, calls);
    var tasks := ResolveAll(c, s.hold, calls).1;
    forall i | 0 <= i < |tasks|
      ensures tasks[i].TransactionFinished? ==> tasks[i].pos == n && i == |tasks| - 1 && !tracker.tx.active
      ensures Unheld(tasks[i]) ==>
                tasks[i].row.pos == n ||
                (s.tracker.tx.active &&
                 exists q :: 0 <= q < |s.tracker.queue| && s.tracker.queue[q].pos == tasks[i].row.pos)
    {
      var j :| 0 <= j < |calls| && MadeBy(tasks[i], calls[j]);
      assert calls[j] == tracker.calls[|s.tracker.calls| + j];
    }
  }

  lemma SequentialLogical(c: Config, s: State, produced: seq<Task>, n: nat, ev: Event)
    requires Sequential(s, produced, n)
    ensures var (s', more) := Handle(c, s, Task.Logical(n, ev));
            Sequential(s', produced + more, n + 1)
  {
    LogicalTasks(c, s, n, ev);
    I.StepQueues(c.tracker, s.tracker, n, ev);
    hide T.Step, ResolveAll;
    var (s', more) := Handle(c, s, Task.Logical(n, ev));
    var all := produced + more;
    forall i | 0 <= i < |all| && all[i].TransactionFinished? ensures Over(s'.tracker, all[i].pos, n + 1) {
      if i < |produced| {
        assert Over(s.tracker, produced[i].pos, n);
      }
    }
  }

  lemma SequentialOther(c: Config, s: State, produced: seq<Task>, n: nat, task: Task)
    requires Sequential(s, produced, n) && !task.Logical?
    ensures var (s', more) := Handle(c, s, task);
            Sequential(s', produced + more, n) && forall i :: 0 <= i < |more| ==> !more[i].Logical?
  {
    hide T.Step, ResolveAll;
  }

  function Handler(c: Config): (State, Task) -> (State, seq<Task>) {
    (s, task) => Handle(c, s, task)
  }

  /** Messages of the stream come from the reader and from nowhere else. */
  ghost predicate Sourced(jobs: seq<D.Job<Task>>) {
    forall i :: 0 <= i < |jobs| ==> (jobs[i].source == D.Reader <==> jobs[i].task.Logical?)
  }

  /** Along every sequence of jobs that respects the stream, the tracker is the tracker of the stream so far. */
  lemma {:induction false} SequentialRun(c: Config, evs: seq<Event>, jobs: seq<D.Job<Task>>)
    requires Sourced(jobs) && D.By(jobs, D.Reader) <= WalTasks(evs)
    ensures var (s, produced) := D.Produced(Handler(c), Start(c), jobs);
            var n := |D.By(jobs, D.Reader)|;
            Sequential(s, produced, n) && s.tracker == T.Run(c.tracker, c.maxSize, evs[..n])
  {
    hide T.Step, ResolveAll, Sequential;
    if jobs == [] {
      assert Sequential(Start(c), [], 0) by { SequentialStart(c); }
    } else {
      var k := |jobs| - 1;
      var past := jobs[..k];
      SequentialRun(c, evs, past);
      var (s, produced) := D.Produced(Handler(c), Start(c), past);
      var n := |D.By(past, D.Reader)|;
      if jobs[k].source == D.Reader {
        assert jobs[k].task == D.By(jobs, D.Reader)[n] == WalTasks(evs)[n];
        SequentialLogical(c, s, produced, n, evs[n]);
        assert evs[..n + 1][..n] == evs[..n];
      } else {
        SequentialOther(c, s, produced, n, jobs[k].task);
      }
    }
  }

  lemma SequentialStart(c: Config)
    ensures Sequential(Start(c), [], 0)
  {
  }

  // ---------------------------------------------------------------------------------------------
  // Every interleaving
  // ---------------------------------------------------------------------------------------------

  /** Snapshot workers send anything but messages of the stream. */
  ghost predicate WorkersSendNoMessages(moves: seq<D.Move<Task>>) {
    forall i :: 0 <= i < |moves| && moves[i].WorkerSends? ==> !moves[i].task.Logical?
  }

  ghost predicate AllSourced(s: D.State<State, Task>) {
    && Sourced(s.ran + s.channel)
    && (forall i :: 0 <= i < |s.outbox| ==> !s.outbox[i].Logical?)
    && (forall i :: 0 <= i < |s.unread| ==> s.unread[i].Logical?)
  }

  lemma HandleSendsNoMessages(c: Config, s: State, task: Task)
    ensures forall i :: 0 <= i < |Handle(c, s, task).1| ==> !Handle(c, s, task).1[i].Logical?
  {
    if task.Logical? {
      I.StepHands(c.tracker, s.tracker, task.pos, task.event);
      hide T.Step, ResolveAll;
      var calls := T.Step(c.tracker, s.tracker, task.pos, task.event).calls[|s.tracker.calls|..];
      ResolveAllTasks(c, s.hold, calls);
    }
  }

  lemma {:induction false} RunSourced(c: Config, evs: seq<Event>, moves: seq<D.Move<Task>>)
    requires WorkersSendNoMessages(moves)
    ensures AllSourced(D.Run(Handler(c), Start(c), WalTasks(evs), moves))
  {
    if moves != [] {
      var n := |moves| - 1;
      RunSourced(c, evs, moves[..n]);
      SourcedStep(c, D.Run(Handler(c), Start(c), WalTasks(evs), moves[..n]), moves[n]);
    }
  }

  lemma SourcedStep(c: Config, s: D.State<State, Task>, move: D.Move<Task>)
    requires AllSourced(s) && (move.WorkerSends? ==> !move.task.Logical?)
    ensures AllSourced(D.Step(Handler(c), s, move))
  {
    hide Handle;
    var sent := s.ran + s.channel;
    var s' := D.Step(Handler(c), s, move);
    if move.Dispatches? && s.outbox == [] && s.channel != [] {
      HandleSendsNoMessages(c, s.handler, s.channel[0].task);
      assert s'.ran + s'.channel == sent;
    } else if s'.channel != s.channel {
      var job := s'.channel[|s.channel|];
      assert s'.ran + s'.channel == sent + [job];
    }
  }

  /** When a transaction is reported as finished, in any interleaving of reader, workers and dispatcher, every
      record up to its commit that is ever sent, and was not held back for a chunk snapshot, has run before. */
  lemma FinishedAfterItsRecords(c: Config, evs: seq<Event>, moves: seq<D.Move<Task>>, k: nat, j: nat)
    requires WorkersSendNoMessages(moves)
    requires var s := D.Run(Handler(c), Start(c), WalTasks(evs), moves);
             && k < |s.ran| && s.ran[k].source == D.Dispatcher && s.ran[k].task.TransactionFinished?
             && j < |s.ran + s.channel| && (s.ran + s.channel)[j].source == D.Dispatcher
             && Unheld((s.ran + s.channel)[j].task) && (s.ran + s.channel)[j].task.row.pos <= s.ran[k].task.pos
    ensures j < k
  {
    hide D.Run, D.By, D.Produced, T.Run, Sourced;
    var s := D.Run(Handler(c), Start(c), WalTasks(evs), moves);
    var sent := s.ran + s.channel;
    D.DispatchIsFaithful(Handler(c), Start(c), WalTasks(evs), moves);
    D.RunsInOrder(Handler(c), Start(c), WalTasks(evs), moves);
    RunSourced(c, evs, moves);
    SourcedPrefix(s.ran, s.channel);
    SequentialRun(c, evs, s.ran);
    SentInOrder(sent, D.Produced(Handler(c), Start(c), s.ran).1, k, j);
  }

  lemma SourcedPrefix(a: seq<D.Job<Task>>, b: seq<D.Job<Task>>)
    requires Sourced(a + b)
    ensures Sourced(a)
  {
    assert forall i :: 0 <= i < |a| ==> a[i] == (a + b)[i];
  }

  /** What was sent in the order of `produced` keeps records in front of the end of their transaction. */
  lemma SentInOrder(sent: seq<D.Job<Task>>, produced: seq<Task>, k: nat, j: nat)
    requires D.By(sent, D.Dispatcher) <= produced
    requires forall a, b :: 0 <= a < b < |produced| && produced[a].TransactionFinished? && Unheld(produced[b]) ==>
               produced[a].pos < produced[b].row.pos
    requires k < |sent| && sent[k].source == D.Dispatcher && sent[k].task.TransactionFinished?
    requires j < |sent| && sent[j].source == D.Dispatcher && Unheld(sent[j].task)
    requires sent[j].task.row.pos <= sent[k].task.pos
    ensures j < k
  {
    hide D.By;
    D.ByAt(sent, k);
    D.ByAt(sent, j);
    if k < j {
      assert sent[..j][..k] == sent[..k];
      D.ByAt(sent[..j], k);
    }
  }
}
