/** The task manager: a reader of the WAL stream, snapshot workers and the dispatcher itself all send tasks
    into one unbounded channel, and the dispatcher runs them one after the other. Running a task may produce
    further tasks, which the dispatcher sends one at a time before it takes the next task. */
module Dispatch {

  datatype Source = Reader | Worker | Dispatcher

  datatype Job<T> = Job(task: T, source: Source)

  /** `channel` is the buffer of the channel goroutine, `outbox` what the running task still has to send,
      `ran` the tasks the dispatcher has taken, oldest first. */
  datatype State<H, T> = State(
    unread: seq<T>,
    accepting: bool,
    channel: seq<Job<T>>,
    outbox: seq<T>,
    handler: H,
    ran: seq<Job<T>>)

  datatype Move<T> =
    | ReaderSends
    | WorkerSends(task: T)
    | DispatcherSends
    | Dispatches
    | ShutsDown

  function Initial<H, T>(start: H, wal: seq<T>): State<H, T> {
    State(wal, true, [], [], start, [])
  }

  /** A task reaches the channel only as long as the task manager is not shutting down. */
  function Send<H, T>(s: State<H, T>, task: T, source: Source): State<H, T> {
    if s.accepting then s.(channel := s.channel + [Job(task, source)]) else s
  }

  function Step<H, T>(handle: (H, T) -> (H, seq<T>), s: State<H, T>, move: Move<T>): State<H, T> {
    match move
    case ReaderSends =>
      if s.unread == [] then s else Send(s.(unread := s.unread[1..]), s.unread[0], Reader)
    case WorkerSends(task) => Send(s, task, Worker)
    case DispatcherSends =>
      if s.outbox == [] then s else Send(s.(outbox := s.outbox[1..]), s.outbox[0], Dispatcher)
    case Dispatches =>
      if s.outbox != [] || s.channel == [] then s
      else
        var (handler, outbox) := handle(s.handler, s.channel[0].task);
        s.(channel := s.channel[1..], ran := s.ran + [s.channel[0]], handler := handler, outbox := outbox)
    case ShutsDown => s.(accepting := false)
  }

  function Run<H, T>(handle: (H, T) -> (H, seq<T>), start: H, wal: seq<T>, moves: seq<Move<T>>): State<H, T> {
    if moves == [] then Initial(start, wal)
    else
      var n := |moves| - 1;
      Step(handle, Run(handle, start, wal, moves[..n]), moves[n])
  }

  // ---------------------------------------------------------------------------------------------
  // The sequential reference
  // ---------------------------------------------------------------------------------------------

  /** The tasks of one sender, in the order in which the channel took them. */
  function By<T>(jobs: seq<Job<T>>, source: Source): seq<T> {
    if jobs == [] then []
    else
      var n := |jobs| - 1;
      By(jobs[..n], source) + if jobs[n].source == source then [jobs[n].task] else []
  }

  /** Running the jobs in sequence, without any concurrency: the final handler and all tasks it produced. */
  function Produced<H, T>(handle: (H, T) -> (H, seq<T>), start: H, jobs: seq<Job<T>>): (H, seq<T>) {
    if jobs == [] then (start, [])
    else
      var n := |jobs| - 1;
      var (handler, out) := Produced(handle, start, jobs[..n]);
      var (handler', more) := handle(handler, jobs[n].task);
      (handler', out + more)
  }

  lemma {:induction false} ByConcat<T>(a: seq<Job<T>>, b: seq<Job<T>>, source: Source)
    ensures By(a + b, source) == By(a, source) + By(b, source)
  {
    if b == [] {
      assert a + b == a;
    } else {
      assert (a + b)[..|a + b| - 1] == a + b[..|b| - 1];
      ByConcat(a, b[..|b| - 1], source);
    }
  }

  /** Sent by the dispatcher so far is what the handlers produced, less what is still to be sent; the reader's
      tasks are in the order of the stream. Once the task manager shuts down, only prefixes are left. */
  ghost predicate Faithful<H, T>(handle: (H, T) -> (H, seq<T>), start: H, wal: seq<T>, s: State<H, T>) {
    var sent := s.ran + s.channel;
    var produced := Produced(handle, start, s.ran);
    && s.handler == produced.0
    && By(sent, Dispatcher) <= produced.1
    && By(sent, Reader) <= wal
    && (s.accepting ==> By(sent, Dispatcher) + s.outbox == produced.1 && By(sent, Reader) + s.unread == wal)
  }

  lemma SendSent<H, T>(s: State<H, T>, task: T, source: Source, other: Source)
    requires s.accepting
    ensures By(Send(s, task, source).ran + Send(s, task, source).channel, other) ==
            By(s.ran + s.channel, other) + if source == other then [task] else []
  {
    var job := Job(task, source);
    assert s.ran + (s.channel + [job]) == (s.ran + s.channel) + [job];
    ByConcat(s.ran + s.channel, [job], other);
    assert By([job], other) == if source == other then [task] else [];
  }

  lemma FaithfulSend<H, T>(handle: (H, T) -> (H, seq<T>), start: H, wal: seq<T>, s: State<H, T>, task: T,
                           source: Source)
    requires Faithful(handle, start, wal, s)
    requires source == Reader ==> s.unread != [] && task == s.unread[0]
    requires source == Dispatcher ==> s.outbox != [] && task == s.outbox[0]
    ensures var taken := s.(unread := if source == Reader then s.unread[1..] else s.unread,
                            outbox := if source == Dispatcher then s.outbox[1..] else s.outbox);
            Faithful(handle, start, wal, Send(taken, task, source))
  {
    if s.accepting {
      SendSent(s, task, source, Reader);
      SendSent(s, task, source, Dispatcher);
      var sent := s.ran + s.channel;
      if source == Dispatcher {
        assert By(sent, Dispatcher) + s.outbox == By(sent, Dispatcher) + [task] + s.outbox[1..];
      }
      if source == Reader {
        assert By(sent, Reader) + s.unread == By(sent, Reader) + [task] + s.unread[1..];
      }
    }
  }

  lemma FaithfulDispatch<H, T>(handle: (H, T) -> (H, seq<T>), start: H, wal: seq<T>, s: State<H, T>)
    requires Faithful(handle, start, wal, s) && s.outbox == [] && s.channel != []
    ensures Faithful(handle, start, wal, Step(handle, s, Dispatches))
  {
    var s' := Step(handle, s, Dispatches);
    assert s'.ran + s'.channel == s.ran + s.channel;
    assert s'.ran[..|s.ran|] == s.ran;
  }

  lemma {:induction false} DispatchIsFaithful<H, T>(
      handle: (H, T) -> (H, seq<T>), start: H, wal: seq<T>, moves: seq<Move<T>>)
    ensures Faithful(handle, start, wal, Run(handle, start, wal, moves))
  {
    if moves == [] {
      assert By<T>([] + [], Dispatcher) == [];
    } else {
      var n := |moves| - 1;
      DispatchIsFaithful(handle, start, wal, moves[..n]);
      var s := Run(handle, start, wal, moves[..n]);
      match moves[n] {
        case ReaderSends => if s.unread != [] { FaithfulSend(handle, start, wal, s, s.unread[0], Reader); }
        case WorkerSends(task) => FaithfulSend(handle, start, wal, s, task, Worker);
        case DispatcherSends => if s.outbox != [] { FaithfulSend(handle, start, wal, s, s.outbox[0], Dispatcher); }
        case Dispatches => if s.outbox == [] && s.channel != [] { FaithfulDispatch(handle, start, wal, s); }
        case ShutsDown =>
      }
    }
  }

  /** In every interleaving the tasks of the reader run in the order of the stream, and the tasks that handlers
      produced run in the order in which a purely sequential run produces them, without a gap. */
  lemma RunsInOrder<H, T>(handle: (H, T) -> (H, seq<T>), start: H, wal: seq<T>, moves: seq<Move<T>>)
    ensures By(Run(handle, start, wal, moves).ran, Reader) <= wal
    ensures By(Run(handle, start, wal, moves).ran, Dispatcher) <=
            Produced(handle, start, Run(handle, start, wal, moves).ran).1
    ensures var s := Run(handle, start, wal, moves);
            s.accepting && s.unread == [] && s.channel == [] && s.outbox == [] ==>
              By(s.ran, Reader) == wal && By(s.ran, Dispatcher) == Produced(handle, start, s.ran).1
  {
    var s := Run(handle, start, wal, moves);
    assert s.channel == [] ==> s.ran + s.channel == s.ran;
    DispatchIsFaithful(handle, start, wal, moves);
    ByConcat(s.ran, s.channel, Reader);
    ByConcat(s.ran, s.channel, Dispatcher);
  }

  // ---------------------------------------------------------------------------------------------
  // What is sent and what runs, read off the moves
  // ---------------------------------------------------------------------------------------------

  /** The task manager is not shutting down yet. */
  predicate Open<T>(moves: seq<Move<T>>) {
    forall i :: 0 <= i < |moves| ==> !moves[i].ShutsDown?
  }

  /** How often the reader went to send. */
  function Reads<T>(moves: seq<Move<T>>): nat {
    if moves == [] then 0 else Reads(moves[..|moves| - 1]) + if moves[|moves| - 1].ReaderSends? then 1 else 0
  }

  /** What the workers sent before the task manager shut down. */
  function WorkerTasks<T>(moves: seq<Move<T>>): seq<T> {
    if moves == [] then []
    else
      var past, move := moves[..|moves| - 1], moves[|moves| - 1];
      WorkerTasks(past) + if move.WorkerSends? && Open(past) then [move.task] else []
  }

  /** All sends in the order of the moves; the first `taken` of them have run, and the dispatcher got rid of the first
      `settled` tasks that running them produced. */
  datatype Log<T> = Log(sent: seq<Job<T>>, taken: nat, settled: nat)

  function Sent<T>(log: Log<T>, open: bool, task: T, source: Source): Log<T> {
    if open then log.(sent := log.sent + [Job(task, source)]) else log
  }

  /** What a move adds to the log after the moves `past`; nothing is ever taken out of it. */
  function Logged<H, T>(
      handle: (H, T) -> (H, seq<T>), start: H, wal: seq<T>, past: seq<Move<T>>, log: Log<T>, move: Move<T>):
      (log': Log<T>)
    requires log.taken <= |log.sent|
    ensures log'.taken <= |log'.sent|
  {
    var produced := Produced(handle, start, log.sent[..log.taken]).1;
    match move
    case ReaderSends => if Reads(past) < |wal| then Sent(log, Open(past), wal[Reads(past)], Reader) else log
    case WorkerSends(task) => Sent(log, Open(past), task, Worker)
    case DispatcherSends =>
      if log.settled < |produced| then
        Sent(log, Open(past), produced[log.settled], Dispatcher).(settled := log.settled + 1)
      else log
    case Dispatches => if log.settled < |produced| || log.taken == |log.sent| then log else log.(taken := log.taken + 1)
    case ShutsDown => log
  }

  function LogOf<H, T>(handle: (H, T) -> (H, seq<T>), start: H, wal: seq<T>, moves: seq<Move<T>>): (log: Log<T>)
    ensures log.taken <= |log.sent|
  {
    if moves == [] then Log([], 0, 0)
    else
      var past := moves[..|moves| - 1];
      Logged(handle, start, wal, past, LogOf(handle, start, wal, past), moves[|moves| - 1])
  }

  ghost predicate IsLogged<H, T>(
      handle: (H, T) -> (H, seq<T>), start: H, wal: seq<T>, moves: seq<Move<T>>, log: Log<T>, s: State<H, T>)
    requires log.taken <= |log.sent|
  {
    && s.accepting == Open(moves)
    && s.unread == (if Reads(moves) <= |wal| then wal[Reads(moves)..] else [])
    && s.ran == log.sent[..log.taken] && s.channel == log.sent[log.taken..]
    && s.handler == Produced(handle, start, s.ran).0
    && log.settled <= |Produced(handle, start, s.ran).1| && s.outbox == Produced(handle, start, s.ran).1[log.settled..]
  }

  lemma OneMove<T>(past: seq<Move<T>>, move: Move<T>)
    ensures Open(past + [move]) <==> Open(past) && !move.ShutsDown?
    ensures Reads(past + [move]) == Reads(past) + if move.ReaderSends? then 1 else 0
    ensures WorkerTasks(past + [move]) ==
            WorkerTasks(past) + if move.WorkerSends? && Open(past) then [move.task] else []
  {
    var moves := past + [move];
    assert forall i :: 0 <= i < |past| ==> moves[i] == past[i];
    assert moves[|past|] == move && moves[..|past|] == past;
  }

  lemma SentStep<T>(log: Log<T>, open: bool, task: T, source: Source)
    requires log.taken <= |log.sent|
    ensures var log' := Sent(log, open, task, source);
            && log'.taken == log.taken && log'.settled == log.settled
            && log'.sent[..log.taken] == log.sent[..log.taken]
            && log'.sent[log.taken..] == log.sent[log.taken..] + if open then [Job(task, source)] else []
  {
  }

  lemma LoggedSend<H, T>(handle: (H, T) -> (H, seq<T>), start: H, wal: seq<T>, past: seq<Move<T>>, log: Log<T>,
                         s: State<H, T>, move: Move<T>)
    requires log.taken <= |log.sent| && IsLogged(handle, start, wal, past, log, s)
    requires move.ReaderSends? || move.WorkerSends? || move.DispatcherSends?
    ensures var log' := Logged(handle, start, wal, past, log, move);
            IsLogged(handle, start, wal, past + [move], log', Step(handle, s, move))
  {
    hide Open, Reads, Produced, Sent;
    OneMove(past, move);
    match move {
      case ReaderSends => if Reads(past) < |wal| { SentStep(log, Open(past), wal[Reads(past)], Reader); }
      case WorkerSends(task) => SentStep(log, Open(past), task, Worker);
      case DispatcherSends =>
        var produced := Produced(handle, start, s.ran).1;
        if log.settled < |produced| { SentStep(log, Open(past), produced[log.settled], Dispatcher); }
    }
  }

  lemma LoggedDispatch<H, T>(handle: (H, T) -> (H, seq<T>), start: H, wal: seq<T>, past: seq<Move<T>>, log: Log<T>,
                             s: State<H, T>)
    requires log.taken <= |log.sent| && IsLogged(handle, start, wal, past, log, s)
    ensures var log' := Logged(handle, start, wal, past, log, Dispatches);
            IsLogged(handle, start, wal, past + [Dispatches], log', Step(handle, s, Dispatches))
  {
    hide Open, Reads;
    OneMove(past, Dispatches);
    if s.outbox == [] && s.channel != [] {
      var ran := s.ran + [s.channel[0]];
      assert ran[..|s.ran|] == s.ran && log.sent[..log.taken + 1] == ran;
    }
  }

  lemma LoggedStep<H, T>(handle: (H, T) -> (H, seq<T>), start: H, wal: seq<T>, past: seq<Move<T>>, log: Log<T>,
                         s: State<H, T>, move: Move<T>)
    requires log.taken <= |log.sent| && IsLogged(handle, start, wal, past, log, s)
    ensures var log' := Logged(handle, start, wal, past, log, move);
            IsLogged(handle, start, wal, past + [move], log', Step(handle, s, move))
  {
    hide Open, Reads, Produced;
    match move {
      case Dispatches => LoggedDispatch(handle, start, wal, past, log, s);
      case ShutsDown => OneMove(past, move);
      case _ => LoggedSend(handle, start, wal, past, log, s, move);
    }
  }

  /** In every interleaving, channel, outbox and unread stream are what is left of the log, of what running its tasks in
      sequence produces, and of the stream. */
  lemma {:induction false} RunIsLogged<H, T>(
      handle: (H, T) -> (H, seq<T>), start: H, wal: seq<T>, moves: seq<Move<T>>)
    ensures IsLogged(handle, start, wal, moves, LogOf(handle, start, wal, moves), Run(handle, start, wal, moves))
  {
    if moves != [] {
      var past, move := moves[..|moves| - 1], moves[|moves| - 1];
      RunIsLogged(handle, start, wal, past);
      hide Step, IsLogged, Logged;
      LoggedStep(handle, start, wal, past, LogOf(handle, start, wal, past), Run(handle, start, wal, past), move);
      assert past + [move] == moves;
    }
  }

  lemma SentByWorkers<H, T>(handle: (H, T) -> (H, seq<T>), start: H, wal: seq<T>, past: seq<Move<T>>, log: Log<T>,
                            move: Move<T>)
    requires log.taken <= |log.sent| && By(log.sent, Worker) == WorkerTasks(past)
    ensures By(Logged(handle, start, wal, past, log, move).sent, Worker) == WorkerTasks(past + [move])
  {
    hide Produced, Open, Reads, By, WorkerTasks;
    OneMove(past, move);
    var produced := Produced(handle, start, log.sent[..log.taken]).1;
    match move {
      case ReaderSends => if Reads(past) < |wal| { ByOne(log.sent, wal[Reads(past)], Reader); }
      case WorkerSends(task) => ByOne(log.sent, task, Worker);
      case DispatcherSends => if log.settled < |produced| { ByOne(log.sent, produced[log.settled], Dispatcher); }
      case _ =>
    }
  }

  lemma ByOne<T>(jobs: seq<Job<T>>, task: T, source: Source)
    ensures By(jobs + [Job(task, source)], Worker) == By(jobs, Worker) + if source == Worker then [task] else []
  {
    assert (jobs + [Job(task, source)])[..|jobs|] == jobs;
  }

  /** Every task a worker sends before the shutdown reaches the channel, in order, and no other task of a worker does.
      */
  lemma {:induction false} WorkersAreHeard<H, T>(
      handle: (H, T) -> (H, seq<T>), start: H, wal: seq<T>, moves: seq<Move<T>>)
    ensures var s := Run(handle, start, wal, moves);
            By(s.ran + s.channel, Worker) == WorkerTasks(moves)
  {
    hide Run, LogOf, By;
    RunIsLogged(handle, start, wal, moves);
    LogOfWorkers(handle, start, wal, moves);
    var log := LogOf(handle, start, wal, moves);
    assert log.sent[..log.taken] + log.sent[log.taken..] == log.sent;
  }

  lemma {:induction false} LogOfWorkers<H, T>(
      handle: (H, T) -> (H, seq<T>), start: H, wal: seq<T>, moves: seq<Move<T>>)
    ensures By(LogOf(handle, start, wal, moves).sent, Worker) == WorkerTasks(moves)
  {
    if moves != [] {
      var past, move := moves[..|moves| - 1], moves[|moves| - 1];
      LogOfWorkers(handle, start, wal, past);
      hide Logged;
      SentByWorkers(handle, start, wal, past, LogOf(handle, start, wal, past), move);
      assert past + [move] == moves;
    }
  }

  // ---------------------------------------------------------------------------------------------
  // Progress
  // ---------------------------------------------------------------------------------------------

  /** A free dispatcher takes the oldest task of the channel and runs it. */
  lemma OldestRuns<H, T>(handle: (H, T) -> (H, seq<T>), start: H, wal: seq<T>, moves: seq<Move<T>>)
    requires var s := Run(handle, start, wal, moves);
             s.outbox == [] && s.channel != []
    ensures var s, s' := Run(handle, start, wal, moves), Run(handle, start, wal, moves + [Dispatches]);
            && s'.ran == s.ran + s.channel[..1] && s'.channel == s.channel[1..]
            && (s'.handler, s'.outbox) == handle(s.handler, s.channel[0].task)
  {
    RunOne(handle, start, wal, moves, Dispatches);
  }

  lemma RunOne<H, T>(handle: (H, T) -> (H, seq<T>), start: H, wal: seq<T>, moves: seq<Move<T>>, move: Move<T>)
    ensures Run(handle, start, wal, moves + [move]) == Step(handle, Run(handle, start, wal, moves), move)
  {
    assert (moves + [move])[..|moves|] == moves;
  }

  predicate Drained<H, T>(s: State<H, T>) {
    s.unread == [] && s.channel == [] && s.outbox == []
  }

  /** What to do next on the way to a drained channel. */
  function Next<H, T>(s: State<H, T>): Move<T> {
    if s.unread != [] then ReaderSends else if s.outbox != [] then DispatcherSends else Dispatches
  }

  // ---------------------------------------------------------------------------------------------
  // Positions among the tasks of one sender
  // ---------------------------------------------------------------------------------------------

  lemma ByAt<T>(jobs: seq<Job<T>>, k: nat)
    requires k < |jobs|
    ensures var source := jobs[k].source;
            var d := |By(jobs[..k], source)|;
            d < |By(jobs, source)| && By(jobs, source)[d] == jobs[k].task
  {
    var source := jobs[k].source;
    assert jobs == jobs[..k] + jobs[k..];
    assert jobs[k..] == [jobs[k]] + jobs[k + 1..];
    ByConcat(jobs[..k], jobs[k..], source);
    ByConcat([jobs[k]], jobs[k + 1..], source);
    assert By([jobs[k]], source) == [jobs[k].task];
  }
}
