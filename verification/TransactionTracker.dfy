/** The transaction window in front of the resolver.

    `Step` gives the effect of one message on the tracker, `Run` that of a whole stream.
    The class at the end is the tracker itself, with one method per handler. */
module TransactionTracker {
  import opened Wal
  import opened Wrappers
  import opened Queues

  /** Pushed entries are counted in a 64-bit unsigned field. */
  const UINT_RANGE: nat := 0x1_0000_0000_0000_0000

  datatype Config = Config(
    markers: bool,
    genInsert: bool,
    genUpdate: bool,
    genDelete: bool,
    genTruncate: bool,
    genMessage: bool,
    capacity: nat)

  /** The tracker runs on the dispatcher. A nil dereference ends the process, a blocked push
      waits for ever because nobody else empties the queue. */
  datatype Health = Running | Crashed | Blocked

  datatype Transaction = Transaction(
    active: bool,
    maxSize: nat,
    queueLength: nat,
    compressionUpdate: Option<Entry>,
    decompressionUpdate: Option<Entry>,
    overflowed: bool,
    timedOut: bool,
    ongoingDecompression: bool)

  datatype State = State(
    health: Health,
    relations: map<nat, RelationKind>,
    tx: Transaction,
    queue: seq<Entry>,
    calls: seq<Call>)

  function EmptyTransaction(active: bool, maxSize: nat): Transaction {
    Transaction(active, maxSize, 0, None, None, false, false, false)
  }

  function Initial(maxSize: nat): State {
    State(Running, map[], EmptyTransaction(false, maxSize), [], [])
  }

  function Forward(s: State, call: Call): State {
    s.(calls := s.calls + [call])
  }

  function Deliveries(queue: seq<Entry>): seq<Call> {
    seq(|queue|, i requires 0 <= i < |queue| => OnRecord(queue[i]))
  }

  function Drain(s: State): State {
    s.(queue := [], calls := s.calls + Deliveries(s.queue))
  }

  predicate Bypassed(tx: Transaction) {
    tx.timedOut || tx.overflowed
  }

  /** The effect of pushTransactionEntry in a window that is neither timed out nor overflowed. */
  function Push(c: Config, s: State, e: Entry, late: bool): State {
    if |s.queue| >= c.capacity then
      s.(health := Blocked)
    else
      var length := (s.tx.queueLength + 1) % UINT_RANGE;
      var tx := s.tx.(queueLength := length, timedOut := late, overflowed := length == s.tx.maxSize);
      var pushed := s.(queue := s.queue + [e], tx := tx);
      if Bypassed(tx) then Drain(pushed) else pushed
  }

  /** Collect the entry in the window, or hand it to the resolver where there is no window (any more). */
  function Submit(c: Config, s: State, e: Entry, late: bool): State {
    if !c.markers && s.tx.active && !Bypassed(s.tx) then Push(c, s, e, late) else Forward(s, OnRecord(e))
  }

  function KindOf(s: State, rel: nat): Option<RelationKind> {
    if rel in s.relations then Some(s.relations[rel]) else None
  }

  function RelationEvent(s: State, e: Entry): State
    requires e.msg.Relation?
  {
    Forward(s.(relations := s.relations[e.msg.rel := e.msg.kind]), OnRelation(e))
  }

  function BeginEvent(c: Config, s: State, e: Entry): State {
    var started := s.(queue := [], tx := EmptyTransaction(true, s.tx.maxSize));
    if c.markers then Forward(started, OnBegin(e)) else started
  }

  predicate DiscardsInserts(tx: Transaction) {
    tx.active && (tx.decompressionUpdate.Some? || tx.ongoingDecompression)
  }

  function InsertEvent(c: Config, s: State, e: Entry, late: bool): State
    requires e.msg.Insert?
  {
    var kind := KindOf(s, e.msg.rel);
    if kind == Some(UserTable) && !c.genInsert then s
    else if DiscardsInserts(s.tx) && kind.None? then s.(health := Crashed)
    else if DiscardsInserts(s.tx) && kind == Some(UserTable) then s
    else Submit(c, s, e, late)
  }

  /** Record a change of the chunk status from or to zero in the current transaction. */
  function NoteStatus(tx: Transaction, e: Entry, catalog: map<int, int>): Transaction
    requires e.msg.Update?
  {
    if e.msg.chunkId !in catalog then tx else
      var oldStatus := catalog[e.msg.chunkId];
      var newStatus := e.msg.status;
      if oldStatus == 0 && newStatus != 0 then
        tx.(compressionUpdate := Some(e))
      else
        var seenStatus :=
          match tx.compressionUpdate
          case Some(Entry(_, Update(rel, _, status))) => if rel == e.msg.rel then status else oldStatus
          case _ => oldStatus;
        if seenStatus != 0 && newStatus == 0 then tx.(decompressionUpdate := Some(e)) else tx
  }

  function UpdateEvent(c: Config, s: State, e: Entry, late: bool, catalog: map<int, int>): State
    requires e.msg.Update?
  {
    if c.markers then Forward(s, OnRecord(e)) else
      var kind := KindOf(s, e.msg.rel);
      var noted := if kind == Some(ChunkCatalog) then s.(tx := NoteStatus(s.tx, e, catalog)) else s;
      if kind.Some? && !c.genUpdate && kind != Some(HypertableCatalog) then noted
      else Submit(c, noted, e, late)
  }

  function DeleteEvent(c: Config, s: State, e: Entry, late: bool): State
    requires e.msg.Delete?
  {
    if !c.markers && KindOf(s, e.msg.rel) == Some(UserTable) && !c.genDelete then s
    else Submit(c, s, e, late)
  }

  function TruncateEvent(c: Config, s: State, e: Entry, late: bool): State {
    if !c.genTruncate then s else Submit(c, s, e, late)
  }

  function LogicalEvent(c: Config, s: State, e: Entry, late: bool): State
    requires e.msg.Logical?
  {
    if !e.msg.transactional then
      Forward(s, OnRecord(e))
    else if c.markers && e.msg.prefix == DECOMPRESSION_MARKER_START then
      s.(tx := s.tx.(ongoingDecompression := true))
    else if c.markers && e.msg.prefix == DECOMPRESSION_MARKER_END && s.tx.active && s.tx.ongoingDecompression then
      s.(tx := s.tx.(ongoingDecompression := false))
    else if !c.genMessage then s
    else Submit(c, s, e, late)
  }

  /** The chunk an update of the chunk catalog is about. */
  function ChunkOf(update: Option<Entry>): Option<int> {
    match update
    case Some(Entry(_, Update(_, chunkId, _))) => Some(chunkId)
    case _ => None
  }

  predicate Known(update: Option<Entry>, catalog: map<int, int>) {
    ChunkOf(update).Some? && ChunkOf(update).value in catalog
  }

  /** The window of a committing transaction is given up instead of being drained. */
  predicate Suppresses(tx: Transaction, catalog: map<int, int>) {
    if tx.decompressionUpdate.None? then tx.compressionUpdate.Some?
    else Known(tx.decompressionUpdate, catalog)
  }

  function CommitEvent(c: Config, s: State, e: Entry, catalog: map<int, int>): State {
    if !s.tx.active then Forward(s, OnCommit(e)) else
      var ended := s.(tx := s.tx.(active := false));
      if c.markers then Forward(ended, OnCommit(e)) else
        var tx := ended.tx;
        var compressed :=
          if Known(tx.compressionUpdate, catalog) then
            Forward(Forward(ended, OnChunkCompression(ChunkOf(tx.compressionUpdate).value)),
                    OnChunkUpdate(tx.compressionUpdate.value))
          else ended;
        if tx.compressionUpdate.Some? && tx.decompressionUpdate.None? then compressed
        else if Known(tx.decompressionUpdate, catalog) then
          Forward(Forward(compressed, OnChunkDecompression(ChunkOf(tx.decompressionUpdate).value)),
                  OnChunkUpdate(tx.decompressionUpdate.value))
        else Forward(Drain(compressed), OnCommit(e))
  }

  function Step(c: Config, s: State, pos: nat, ev: Event): State {
    if s.health != Running then s else
      var e := Entry(pos, ev.msg);
      match ev.msg
      case Relation(_, _) => RelationEvent(s, e)
      case Begin => BeginEvent(c, s, e)
      case Commit => CommitEvent(c, s, e, ev.catalog)
      case Insert(_) => InsertEvent(c, s, e, ev.late)
      case Update(_, _, _) => UpdateEvent(c, s, e, ev.late, ev.catalog)
      case Delete(_) => DeleteEvent(c, s, e, ev.late)
      case Truncate => TruncateEvent(c, s, e, ev.late)
      case Logical(_, _) => LogicalEvent(c, s, e, ev.late)
  }

  /** The tracker after the stream `evs`; the position of a message is its index in the stream. */
  function Run(c: Config, maxSize: nat, evs: seq<Event>): State {
    if evs == [] then Initial(maxSize)
    else
      var n := |evs| - 1;
      Step(c, Run(c, maxSize, evs[..n]), n, evs[n])
  }

  // ---------------------------------------------------------------------------------------------
  // The tracker as an object
  // ---------------------------------------------------------------------------------------------

  class Tracker {
    const config: Config
    var health: Health
    var relations: map<nat, RelationKind>
    var tx: Transaction
    var calls: seq<Call>
    const queue: Queue<Entry>

    ghost predicate Valid()
      reads this, queue
    {
      queue.Valid() && queue.capacity == config.capacity && !queue.locked
    }

    ghost function View(): State
      reads this, queue
    {
      State(health, relations, tx, queue.contents, calls)
    }

    /** newTransactionTracker leaves the maxSize field of the first transaction at zero. */
    constructor (config: Config, maxSize: nat)
      requires config.capacity == maxSize + 1
      ensures Valid() && fresh(queue)
      ensures this.config == config && View() == Initial(0)
    {
      this.config := config;
      health := Running;
      relations := map[];
      tx := EmptyTransaction(false, 0);
      calls := [];
      queue := new Queue(maxSize + 1);
    }

    method Call(call: Call)
      requires Valid()
      modifies this`calls
      ensures Valid() && View() == Forward(old(View()), call)
    {
      calls := calls + [call];
    }

    method DrainQueue()
      requires Valid()
      modifies this`calls, queue`contents
      ensures Valid() && View() == Drain(old(View()))
    {
      ghost var done: seq<Entry> := [];
      var entry := queue.Pop();
      while entry.Some?
        invariant Valid()
        invariant entry.None? ==> queue.contents == []
        invariant old(queue.contents) == done + (if entry.Some? then [entry.value] else []) + queue.contents
        invariant calls == old(calls) + Deliveries(done)
        decreases entry.Some?, |queue.contents|
      {
        done := done + [entry.value];
        Call(OnRecord(entry.value));
        entry := queue.Pop();
      }
      assert done == old(queue.contents);
    }

    method PushTransactionEntry(e: Entry, late: bool) returns (handled: bool)
      requires Valid() && health == Running && !config.markers && tx.active
      modifies this`health, this`tx, this`calls, queue`contents
      ensures Valid()
      ensures handled == !Bypassed(old(tx))
      ensures View() == if handled then Push(config, old(View()), e, late) else old(View())
    {
      if tx.timedOut || tx.overflowed {
        return false;
      }
      var r := queue.Push(e);
      if r.Blocks? {
        health := Blocked;
        return true;
      }
      tx := tx.(queueLength := (tx.queueLength + 1) % UINT_RANGE);
      if late {
        tx := tx.(timedOut := true);
      }
      if tx.queueLength == tx.maxSize {
        tx := tx.(overflowed := true);
      }
      if tx.timedOut || tx.overflowed {
        DrainQueue();
      }
      return true;
    }

    /** The tail shared by the record handlers: window first, resolver otherwise. */
    method SubmitEntry(e: Entry, late: bool)
      requires Valid() && health == Running
      modifies this`health, this`tx, this`calls, queue`contents
      ensures Valid() && View() == Submit(config, old(View()), e, late)
    {
      if !config.markers && tx.active {
        var handled := PushTransactionEntry(e, late);
        if handled {
          return;
        }
      }
      Call(OnRecord(e));
    }

    method OnRelationEvent(e: Entry)
      requires Valid() && health == Running && e.msg.Relation?
      modifies this`relations, this`calls
      ensures Valid() && View() == RelationEvent(old(View()), e)
    {
      relations := relations[e.msg.rel := e.msg.kind];
      Call(OnRelation(e));
    }

    method OnBeginEvent(e: Entry)
      requires Valid() && health == Running
      modifies this`tx, this`calls, queue`contents
      ensures Valid() && View() == BeginEvent(config, old(View()), e)
    {
      var v := queue.Pop();
      while v.Some?
        invariant Valid()
        invariant v.None? ==> queue.contents == []
        invariant tx == old(tx) && calls == old(calls)
        decreases v.Some?, |queue.contents|
      {
        v := queue.Pop();
      }
      tx := EmptyTransaction(true, tx.maxSize);
      if config.markers {
        Call(OnBegin(e));
      }
    }

    method OnCommitEvent(e: Entry, catalog: map<int, int>)
      requires Valid() && health == Running
      modifies this`tx, this`calls, queue`contents
      ensures Valid() && View() == CommitEvent(config, old(View()), e, catalog)
    {
      if !tx.active {
        Call(OnCommit(e));
        return;
      }
      tx := tx.(active := false);
      if config.markers {
        Call(OnCommit(e));
        return;
      }
      if tx.compressionUpdate.Some? {
        if Known(tx.compressionUpdate, catalog) {
          Call(OnChunkCompression(ChunkOf(tx.compressionUpdate).value));
          Call(OnChunkUpdate(tx.compressionUpdate.value));
        }
        if tx.decompressionUpdate.None? {
          return;
        }
      }
      if tx.decompressionUpdate.Some? {
        if Known(tx.decompressionUpdate, catalog) {
          Call(OnChunkDecompression(ChunkOf(tx.decompressionUpdate).value));
          Call(OnChunkUpdate(tx.decompressionUpdate.value));
          return;
        }
      }
      DrainQueue();
      Call(OnCommit(e));
    }

    method OnInsertEvent(e: Entry, late: bool)
      requires Valid() && health == Running && e.msg.Insert?
      modifies this`health, this`tx, this`calls, queue`contents
      ensures Valid() && View() == InsertEvent(config, old(View()), e, late)
    {
      var kind := KindOf(State(health, relations, tx, [], []), e.msg.rel);
      if kind.Some? {
        if !config.genInsert && kind.value.UserTable? {
          return;
        }
      }
      if tx.active && (tx.decompressionUpdate.Some? || tx.ongoingDecompression) {
        if kind.None? {
          health := Crashed;
          return;
        }
        if kind.value.UserTable? {
          return;
        }
      }
      SubmitEntry(e, late);
    }

    method OnUpdateEvent(e: Entry, late: bool, catalog: map<int, int>)
      requires Valid() && health == Running && e.msg.Update?
      modifies this`health, this`tx, this`calls, queue`contents
      ensures Valid() && View() == UpdateEvent(config, old(View()), e, late, catalog)
    {
      if config.markers {
        Call(OnRecord(e));
        return;
      }
      if e.msg.rel in relations {
        var kind := relations[e.msg.rel];
        if kind.ChunkCatalog? && e.msg.chunkId in catalog {
          var oldStatus := catalog[e.msg.chunkId];
          if oldStatus == 0 && e.msg.status != 0 {
            tx := tx.(compressionUpdate := Some(e));
          } else if tx.compressionUpdate.Some? && tx.compressionUpdate.value.msg.Update? {
            if tx.compressionUpdate.value.msg.rel == e.msg.rel {
              oldStatus := tx.compressionUpdate.value.msg.status;
            }
          }
          if oldStatus != 0 && e.msg.status == 0 {
            tx := tx.(decompressionUpdate := Some(e));
          }
        }
        if !config.genUpdate && !kind.HypertableCatalog? {
          return;
        }
      }
      SubmitEntry(e, late);
    }

    method OnDeleteEvent(e: Entry, late: bool)
      requires Valid() && health == Running && e.msg.Delete?
      modifies this`health, this`tx, this`calls, queue`contents
      ensures Valid() && View() == DeleteEvent(config, old(View()), e, late)
    {
      if config.markers {
        Call(OnRecord(e));
        return;
      }
      if e.msg.rel in relations && relations[e.msg.rel].UserTable? && !config.genDelete {
        return;
      }
      SubmitEntry(e, late);
    }

    method OnTruncateEvent(e: Entry, late: bool)
      requires Valid() && health == Running
      modifies this`health, this`tx, this`calls, queue`contents
      ensures Valid() && View() == TruncateEvent(config, old(View()), e, late)
    {
      if !config.genTruncate {
        return;
      }
      SubmitEntry(e, late);
    }

    method OnMessageEvent(e: Entry, late: bool)
      requires Valid() && health == Running && e.msg.Logical?
      modifies this`health, this`tx, this`calls, queue`contents
      ensures Valid() && View() == LogicalEvent(config, old(View()), e, late)
    {
      if e.msg.transactional {
        if config.markers {
          if e.msg.prefix == DECOMPRESSION_MARKER_START {
            tx := tx.(ongoingDecompression := true);
            return;
          } else if e.msg.prefix == DECOMPRESSION_MARKER_END && tx.active && tx.ongoingDecompression {
            tx := tx.(ongoingDecompression := false);
            return;
          }
        }
        if !config.genMessage {
          return;
        }
        SubmitEntry(e, late);
        return;
      }
      Call(OnRecord(e));
    }

    /** The dispatcher hands one message to its handler; a tracker that crashed or blocks handles nothing any more. */
    method Handle(pos: nat, ev: Event)
      requires Valid()
      modifies this, queue`contents
      ensures Valid() && View() == Step(config, old(View()), pos, ev)
    {
      hide InsertEvent, UpdateEvent, DeleteEvent, TruncateEvent, LogicalEvent, CommitEvent, BeginEvent;
      if health != Running {
        return;
      }
      var e := Entry(pos, ev.msg);
      match ev.msg {
        case Relation(_, _) => OnRelationEvent(e);
        case Begin => OnBeginEvent(e);
        case Commit => OnCommitEvent(e, ev.catalog);
        case Insert(_) => OnInsertEvent(e, ev.late);
        case Update(_, _, _) => OnUpdateEvent(e, ev.late, ev.catalog);
        case Delete(_) => OnDeleteEvent(e, ev.late);
        case Truncate => OnTruncateEvent(e, ev.late);
        case Logical(_, _) => OnMessageEvent(e, ev.late);
      }
    }

    /** A whole stream, from the start. */
    method HandleAll(evs: seq<Event>)
      requires Valid() && View() == Initial(0)
      modifies this, queue`contents
      ensures Valid() && View() == Run(config, 0, evs)
    {
      hide Step;
      var i := 0;
      while i < |evs|
        invariant 0 <= i <= |evs|
        invariant Valid() && View() == Run(config, 0, evs[..i])
      {
        assert evs[..i + 1][..i] == evs[..i];
        Handle(i, evs[i]);
        i := i + 1;
      }
      assert evs[..i] == evs;
    }
  }
}
