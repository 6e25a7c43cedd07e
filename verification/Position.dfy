/** The position in the WAL: what is acknowledged, what is stored, where replication restarts, and which messages are
    skipped after a restart. Positions are 64 bit unsigned integers. */
module Position {
  import opened Wrappers
  import opened Bytes

  type Lsn = Uint64

  /** A message of the stream: where it starts, how many bytes it has (at least the one for its type), and whether it
      announces a relation. */
  datatype Message = Message(walStart: Lsn, length: nat, relation: bool)

  function End(m: Message): Lsn {
    (m.walStart + m.length) % UINT64
  }

  /** The replication slot as the server reports it, and the server's current position. */
  datatype Server = Server(pluginName: string, slotType: string, confirmedFlush: Lsn, position: Lsn)

  /** The larger of what the server knows to be flushed and what the offset storage has, or else the current
      position; a slot in use must be a logical slot of pgoutput. */
  function RestartLsn(server: Server, offset: Option<Lsn>): Result<Lsn> {
    if server.confirmedFlush > 0 && (server.pluginName != "pgoutput" || server.slotType != "logical") then Err
    else
      var stored :=
        if offset.Some? && offset.value > server.confirmedFlush then offset.value else server.confirmedFlush;
      Ok(if stored == 0 then server.position else stored)
  }

  method LocateRestartLsn(server: Server, offset: Option<Lsn>) returns (r: Result<Lsn>)
    ensures r == RestartLsn(server, offset)
    ensures r.Ok? <==> server.confirmedFlush == 0 || (server.pluginName == "pgoutput" && server.slotType == "logical")
    ensures r.Ok? ==> server.confirmedFlush <= r.value && (offset.Some? ==> offset.value <= r.value)
    ensures r.Ok? ==> r.value == server.confirmedFlush || offset == Some(r.value) ||
                      (r.value == server.position && server.confirmedFlush == 0 && offset in {None, Some(0)})
  {
    var restartLsn := server.confirmedFlush;
    if server.confirmedFlush > 0 {
      if server.pluginName != "pgoutput" {
        return Err;
      }
      if server.slotType != "logical" {
        return Err;
      }
    }
    if offset.Some? && offset.value > restartLsn {
      restartLsn := offset.value;
    }
    if restartLsn == 0 {
      restartLsn := server.position;
    }
    r := Ok(restartLsn);
  }

  class ReplicationContext {
    var lastReceivedLsn: Lsn
    var lastProcessedLsn: Lsn
    /** The offset of this slot in the storage. */
    var offset: Option<Lsn>

    /** The offset is looked up by the name of the slot. */
    constructor (offsets: map<string, Lsn>, slot: string)
      ensures offset == (if slot in offsets then Some(offsets[slot]) else None)
      ensures lastReceivedLsn == 0 == lastProcessedLsn
    {
      offset := if slot in offsets then Some(offsets[slot]) else None;
      lastReceivedLsn := 0;
      lastProcessedLsn := 0;
    }

    method SetPositionLsns(received: Lsn, processed: Lsn)
      modifies this`lastReceivedLsn, this`lastProcessedLsn
      ensures lastReceivedLsn == received && lastProcessedLsn == processed
    {
      lastReceivedLsn := received;
      lastProcessedLsn := processed;
    }

    method AcknowledgeReceived(m: Message)
      modifies this`lastReceivedLsn
      ensures lastReceivedLsn == End(m)
    {
      lastReceivedLsn := End(m);
    }

    /** The processed position never moves back, and is stored. */
    method AcknowledgeProcessed(m: Message, processed: Option<Lsn>)
      modifies this`lastProcessedLsn, this`offset
      ensures lastProcessedLsn == Processed(old(lastProcessedLsn), m, processed)
      ensures offset == Some(lastProcessedLsn)
    {
      var newLastProcessedLsn := End(m);
      if processed.Some? {
        newLastProcessedLsn := processed.value;
      }
      if newLastProcessedLsn > lastProcessedLsn {
        lastProcessedLsn := newLastProcessedLsn;
      }
      offset := Some(lastProcessedLsn);
    }
  }

  function Processed(before: Lsn, m: Message, processed: Option<Lsn>): Lsn {
    var position := if processed.Some? then processed.value else End(m);
    if position > before then position else before
  }

  // ---------------------------------------------------------------------------------------------
  // Runs over any number of processes
  // ---------------------------------------------------------------------------------------------

  datatype Event =
    | Acknowledge(m: Message, processed: Option<Lsn>)
    | Save
    | Restart
    | SendStatus
    | Advance(position: Lsn)

  /** `file` is the offset of the slot on disk, `offset` the one in memory; `restart` is where the running process has
      restarted. A process that finds an illegal slot does not run. */
  datatype State = State(
    running: bool,
    restart: Lsn,
    processed: Lsn,
    offset: Option<Lsn>,
    file: Option<Lsn>,
    server: Server)

  function Started(s: State): State {
    match RestartLsn(s.server, s.file)
    case Ok(lsn) => s.(running := true, restart := lsn, processed := lsn, offset := s.file)
    case _ => s.(running := false, offset := s.file)
  }

  function Step(s: State, ev: Event): State {
    match ev
    case Acknowledge(m, processed) =>
      if !s.running then s
      else s.(processed := Processed(s.processed, m, processed), offset := Some(Processed(s.processed, m, processed)))
    case Save => s.(file := s.offset)
    case Restart => Started(s)
    case SendStatus =>
      var flushed := (s.processed + 1) % UINT64;
      if s.running && flushed > s.server.confirmedFlush then s.(server := s.server.(confirmedFlush := flushed)) else s
    case Advance(position) =>
      if position > s.server.position then s.(server := s.server.(position := position)) else s
  }

  /** The first process starts with an empty storage. */
  function Run(server: Server, evs: seq<Event>): State {
    if evs == [] then Started(State(false, 0, 0, None, None, server))
    else Step(Run(server, evs[..|evs| - 1]), evs[|evs| - 1])
  }

  /** The reader hands the message on; otherwise it skips it. */
  predicate Handles(s: State, m: Message) {
    s.running && (m.relation || s.restart <= m.walStart)
  }

  /** The messages that a process restarted at `restart` hands on, in the order in which they arrive. */
  function HandedOn(restart: Lsn, messages: seq<Message>): seq<Message> {
    if messages == [] then []
    else
      var n := |messages| - 1;
      var m := messages[n];
      HandedOn(restart, messages[..n]) + if m.relation || restart <= m.walStart then [m] else []
  }

  lemma {:induction false} HandedOnExactly(s: State, messages: seq<Message>, m: Message)
    requires s.running
    ensures m in HandedOn(s.restart, messages) <==> m in messages && Handles(s, m)
  {
    if messages != [] {
      var n := |messages| - 1;
      HandedOnExactly(s, messages[..n], m);
      assert messages == messages[..n] + [messages[n]];
    }
  }

  /** `indices` lists, in order and each once, exactly the places of the stream whose message is handled. */
  ghost predicate Filters(s: State, messages: seq<Message>, indices: seq<nat>) {
    && (forall k :: 0 <= k < |indices| ==> indices[k] < |messages|)
    && (forall k, l :: 0 <= k < l < |indices| ==> indices[k] < indices[l])
    && (forall i :: 0 <= i < |messages| ==> (Handles(s, messages[i]) <==> i in indices))
  }

  lemma FiltersOne(s: State, messages: seq<Message>, before: seq<nat>)
    requires messages != [] && Filters(s, messages[..|messages| - 1], before)
    ensures Filters(s, messages, before + if Handles(s, messages[|messages| - 1]) then [|messages| - 1] else [])
  {
    hide Handles;
    var n := |messages| - 1;
    var indices := before + if Handles(s, messages[n]) then [n] else [];
    forall i | 0 <= i < |messages| ensures Handles(s, messages[i]) <==> i in indices {
      if i < n {
        assert messages[..n][i] == messages[i];
      }
    }
  }

  /** The messages handed on are the stream without the messages that are not handled: same order, none added, none
      repeated. */
  lemma {:induction false} HandedOnInOrder(s: State, messages: seq<Message>) returns (indices: seq<nat>)
    requires s.running
    ensures Filters(s, messages, indices)
    ensures |HandedOn(s.restart, messages)| == |indices|
    ensures forall k :: 0 <= k < |indices| ==> HandedOn(s.restart, messages)[k] == messages[indices[k]]
  {
    if messages == [] {
      indices := [];
    } else {
      var n := |messages| - 1;
      var before := HandedOnInOrder(s, messages[..n]);
      indices := before + if Handles(s, messages[n]) then [n] else [];
      FiltersOne(s, messages, before);
    }
  }

  /** The loop of the reader; `received` moves with the messages handed on. */
  method HandleMessages(context: ReplicationContext, restart: Lsn, messages: seq<Message>)
    returns (handled: seq<Message>)
    modifies context`lastReceivedLsn
    ensures handled == HandedOn(restart, messages)
    ensures context.lastReceivedLsn ==
            if handled == [] then old(context.lastReceivedLsn) else End(handled[|handled| - 1])
  {
    handled := [];
    var i := 0;
    while i < |messages|
      invariant 0 <= i <= |messages| && handled == HandedOn(restart, messages[..i])
      invariant context.lastReceivedLsn ==
                if handled == [] then old(context.lastReceivedLsn) else End(handled[|handled| - 1])
    {
      var m := messages[i];
      assert messages[..i + 1][..i] == messages[..i];
      i := i + 1;
      if !m.relation && restart > m.walStart {
        continue;
      }
      handled := handled + [m];
      context.AcknowledgeReceived(m);
    }
    assert messages[..i] == messages;
  }

  // ---------------------------------------------------------------------------------------------
  // The processed position
  // ---------------------------------------------------------------------------------------------

  /** A restart at this point, after a save, would not move the position back. */
  ghost predicate Safe(s: State) {
    RestartLsn(s.server, s.offset).Ok? ==> s.processed <= RestartLsn(s.server, s.offset).value
  }

  lemma SafeStep(s: State, ev: Event)
    requires Safe(s) && (ev.Restart? ==> s.file == s.offset)
    ensures Safe(Step(s, ev))
  {
  }

  lemma {:induction false} AlwaysSafe(server: Server, evs: seq<Event>)
    requires RestartsAreClean(evs)
    ensures Safe(Run(server, evs))
  {
    if evs != [] {
      var past := evs[..|evs| - 1];
      CleanPast(evs);
      AlwaysSafe(server, past);
      if evs[|evs| - 1].Restart? {
        SavedStep(server, evs);
      }
      SafeStep(Run(server, past), evs[|evs| - 1]);
    }
  }

  /** Every process stores its state before it ends. */
  ghost predicate RestartsAreClean(evs: seq<Event>) {
    forall i :: 0 <= i < |evs| && evs[i].Restart? ==> i > 0 && evs[i - 1].Save?
  }

  lemma CleanPast(evs: seq<Event>)
    requires evs != [] && RestartsAreClean(evs)
    ensures RestartsAreClean(evs[..|evs| - 1])
  {
    var past := evs[..|evs| - 1];
    forall i | 0 <= i < |past| && past[i].Restart? ensures i > 0 && past[i - 1].Save? {
      assert evs[i].Restart?;
    }
  }

  lemma SavedStep(server: Server, evs: seq<Event>)
    requires evs != [] && RestartsAreClean(evs) && evs[|evs| - 1].Restart?
    ensures var past := Run(server, evs[..|evs| - 1]);
            past.file == past.offset
  {
    var n := |evs| - 1;
    assert evs[n - 1].Save?;
    assert evs[..n][..n - 1] == evs[..n - 1];
  }

  /** Over any number of processes, each of which saves its state before it ends, the processed position never
      decreases. */
  lemma {:induction false} ProcessedNeverDecreases(server: Server, evs: seq<Event>, k: nat)
    requires RestartsAreClean(evs) && k <= |evs|
    ensures Run(server, evs[..k]).processed <= Run(server, evs).processed
  {
    if k == |evs| {
      assert evs[..k] == evs;
    } else {
      var past := evs[..|evs| - 1];
      CleanPast(evs);
      assert past[..k] == evs[..k];
      ProcessedNeverDecreases(server, past, k);
      AlwaysSafe(server, past);
      if evs[|evs| - 1].Restart? {
        SavedStep(server, evs);
      }
    }
  }

  // ---------------------------------------------------------------------------------------------
  // What is handled again
  // ---------------------------------------------------------------------------------------------

  /** The position is behind `w`, in memory. */
  predicate Past(s: State, w: Lsn) {
    s.processed > w && s.offset.Some? && s.offset.value > w
  }

  /** ... and on disk. */
  predicate Stored(s: State, w: Lsn) {
    Past(s, w) && s.file.Some? && s.file.value > w
  }

  lemma {:induction false} PastUntilRestart(server: Server, evs: seq<Event>, i: nat, w: Lsn)
    requires i < |evs| && Past(Run(server, evs[..i + 1]), w)
    requires forall k :: i < k < |evs| ==> !evs[k].Restart?
    ensures Past(Run(server, evs), w)
  {
    if i + 1 < |evs| {
      assert evs[..|evs| - 1][..i + 1] == evs[..i + 1];
      PastUntilRestart(server, evs[..|evs| - 1], i, w);
    } else {
      assert evs[..i + 1] == evs;
    }
  }

  lemma {:induction false} StoredForGood(server: Server, evs: seq<Event>, j: nat, w: Lsn)
    requires j < |evs| && Stored(Run(server, evs[..j + 1]), w)
    ensures Stored(Run(server, evs), w)
    ensures (exists r :: j < r < |evs| && evs[r].Restart?) && Run(server, evs).running ==> Run(server, evs).restart > w
  {
    if j + 1 < |evs| {
      var n := |evs| - 1;
      assert evs[..n][..j + 1] == evs[..j + 1];
      StoredForGood(server, evs[..n], j, w);
      if !evs[n].Restart? && exists r :: j < r < |evs| && evs[r].Restart? {
        var r :| j < r < |evs| && evs[r].Restart?;
        assert evs[..n][r].Restart?;
      }
    } else {
      assert evs[..j + 1] == evs;
    }
  }

  /** A message other than a relation that was acknowledged with its own position, in a process that then saved its
      state, is never handled again by any later process. */
  lemma NeverHandledAgain(server: Server, evs: seq<Event>, i: nat, j: nat, r: nat, m: Message)
    requires i < j < r < |evs|
    requires evs[i] == Acknowledge(m, None) && Run(server, evs[..i]).running
    requires evs[j].Save? && (forall k :: i < k < j ==> !evs[k].Restart?)
    requires evs[r].Restart?
    requires !m.relation && m.length > 0 && m.walStart + m.length < UINT64
    ensures !Handles(Run(server, evs), m)
  {
    var acknowledged := evs[..i + 1];
    assert acknowledged[..i] == evs[..i];
    assert Past(Run(server, acknowledged), m.walStart);
    var upToSave := evs[..j];
    assert upToSave[..i + 1] == acknowledged;
    PastUntilRestart(server, upToSave, i, m.walStart);
    assert evs[..j + 1][..j] == upToSave;
    StoredForGood(server, evs, j, m.walStart);
  }

  // ---------------------------------------------------------------------------------------------
  // Where a restart goes, read off the run
  // ---------------------------------------------------------------------------------------------

  function Max(a: Lsn, b: Lsn): Lsn {
    if a > b then a else b
  }

  /** The position the server has reached. */
  function Newest(server: Server, evs: seq<Event>): Lsn {
    if evs == [] then server.position
    else
      var n := |evs| - 1;
      if evs[n].Advance? then Max(Newest(server, evs[..n]), evs[n].position) else Newest(server, evs[..n])
  }

  /** Where processing has got to: the first restart, then the acknowledged positions, and the point of every restart.
      */
  function Reached(server: Server, evs: seq<Event>): Lsn
    decreases |evs|, 0
  {
    if evs == [] then if server.confirmedFlush == 0 then server.position else server.confirmedFlush
    else
      var past, ev := evs[..|evs| - 1], evs[|evs| - 1];
      match ev
      case Acknowledge(m, processed) => Max(Reached(server, past), if processed.Some? then processed.value else End(m))
      case Restart => RestartPoint(server, past)
      case _ => Reached(server, past)
  }

  /** What a restart cannot go behind: what the server had confirmed at first, the position reached at every
      acknowledgement, and one more than the position reached at every status that was sent. */
  function Floor(server: Server, evs: seq<Event>): Lsn
    decreases |evs|, 1
  {
    if evs == [] then server.confirmedFlush
    else
      var past, ev := evs[..|evs| - 1], evs[|evs| - 1];
      match ev
      case Acknowledge(_, _) => Max(Floor(server, past), Reached(server, evs))
      case SendStatus => Max(Floor(server, past), (Reached(server, past) + 1) % UINT64)
      case _ => Floor(server, past)
  }

  function RestartPoint(server: Server, evs: seq<Event>): Lsn
    decreases |evs|, 2
  {
    if Floor(server, evs) == 0 then Newest(server, evs) else Floor(server, evs)
  }

  /** The slot is one of this program. */
  predicate Legal(server: Server) {
    server.pluginName == "pgoutput" && server.slotType == "logical"
  }

  /** The state after a run is what the run says. */
  ghost predicate Reads(server: Server, evs: seq<Event>, s: State) {
    && s.running && Legal(s.server)
    && s.processed == Reached(server, evs)
    && s.server.position == Newest(server, evs)
    && (s.offset.Some? ==> s.offset.value <= s.processed)
    && Floor(server, evs) ==
       if s.offset.Some? then Max(s.server.confirmedFlush, s.offset.value) else s.server.confirmedFlush
  }

  lemma {:induction false} RunReads(server: Server, evs: seq<Event>)
    requires Legal(server) && RestartsAreClean(evs)
    ensures Reads(server, evs, Run(server, evs))
  {
    if evs != [] {
      CleanPast(evs);
      RunReads(server, evs[..|evs| - 1]);
      if evs[|evs| - 1].Restart? {
        SavedStep(server, evs);
      }
      ReadsStep(server, evs, Run(server, evs[..|evs| - 1]));
    }
  }

  lemma ReadsStep(server: Server, evs: seq<Event>, s: State)
    requires evs != [] && Reads(server, evs[..|evs| - 1], s) && (evs[|evs| - 1].Restart? ==> s.file == s.offset)
    ensures Reads(server, evs, Step(s, evs[|evs| - 1]))
  {
  }

  /** A restart right after a save goes to where the state says. */
  lemma HandledAtRestart(server: Server, evs: seq<Event>, m: Message)
    requires RestartLsn(Run(server, evs).server, Run(server, evs).offset).Ok?
    ensures var s := Run(server, evs);
            Handles(Run(server, evs + [Save, Restart]), m) <==>
              m.relation || RestartLsn(s.server, s.offset).value <= m.walStart
  {
    assert evs + [Save, Restart] == evs + [Save] + [Restart];
    RunOne(server, evs + [Save], Restart);
    RunOne(server, evs, Save);
  }

  lemma RunOne(server: Server, evs: seq<Event>, ev: Event)
    ensures Run(server, evs + [ev]) == Step(Run(server, evs), ev)
  {
    assert (evs + [ev])[..|evs|] == evs;
  }

  /** After a clean restart a message is handled if and only if it announces a relation or does not start before the
      restart point of the run; whether it was ever processed does not matter. */
  lemma HandledExactly(server: Server, evs: seq<Event>, m: Message)
    requires Legal(server) && RestartsAreClean(evs)
    ensures Handles(Run(server, evs + [Save, Restart]), m) <==> m.relation || RestartPoint(server, evs) <= m.walStart
  {
    hide Reached, Floor;
    RunReads(server, evs);
    HandledAtRestart(server, evs, m);
  }

  /** The event at `i` puts the floor behind `w`: an acknowledgement that got there, or a status sent from there. */
  predicate Passes(server: Server, evs: seq<Event>, i: nat, w: Lsn)
    requires i < |evs|
  {
    || (evs[i].Acknowledge? && Reached(server, evs[..i + 1]) > w)
    || (evs[i].SendStatus? && (Reached(server, evs[..i]) + 1) % UINT64 > w)
  }

  /** A message is behind the floor exactly if the server had confirmed it at first, or some acknowledgement or status
      of the run passed it. */
  lemma {:induction false} FloorExactly(server: Server, evs: seq<Event>, w: Lsn)
    ensures Floor(server, evs) > w <==>
              server.confirmedFlush > w || exists i :: 0 <= i < |evs| && Passes(server, evs, i, w)
  {
    if evs != [] {
      var n := |evs| - 1;
      FloorExactly(server, evs[..n], w);
      assert evs[..n + 1] == evs;
      forall i | 0 <= i < n ensures Passes(server, evs[..n], i, w) == Passes(server, evs, i, w) {
        assert evs[..n][..i] == evs[..i] && evs[..n][..i + 1] == evs[..i + 1];
      }
      assert Floor(server, evs) > w <==> Floor(server, evs[..n]) > w || Passes(server, evs, n, w);
      if i :| 0 <= i < |evs[..n]| && Passes(server, evs[..n], i, w) {
        assert Passes(server, evs, i, w);
      }
      if i :| 0 <= i < |evs| && Passes(server, evs, i, w) {
        assert i < n ==> Passes(server, evs[..n], i, w);
      }
    }
  }

  /** Two transactions that overlap in the WAL: a message of the one that commits last starts before the messages
      already processed, is not processed yet, and is skipped after the restart. */
  lemma InterleavedIsSkipped(server: Server, later: Message, earlier: Message)
    requires server.confirmedFlush == 0 && server.position < earlier.walStart < later.walStart
    requires later.length > 0 && later.walStart + later.length < UINT64 && !earlier.relation
    ensures Handles(Run(server, []), earlier)
    ensures !Handles(Run(server, [Acknowledge(later, None), Save, Restart]), earlier)
  {
    var evs := [Acknowledge(later, None)];
    assert evs[..0] == [];
    assert Run(server, evs).offset == Some(End(later));
    assert evs + [Save, Restart] == [Acknowledge(later, None), Save, Restart];
    HandledAtRestart(server, evs, earlier);
  }

  /** A status names one position more than the one reached: a message that starts exactly where processing has got to
      is skipped after the restart, whatever the run was. */
  lemma StatusSkipsNext(server: Server, evs: seq<Event>, next: Message)
    requires Legal(server) && RestartsAreClean(evs)
    requires !next.relation && next.walStart == Reached(server, evs) && next.walStart + 1 < UINT64
    ensures !Handles(Run(server, evs + [SendStatus] + [Save, Restart]), next)
  {
    hide Handles, Run, Reached;
    var sent := evs + [SendStatus];
    assert sent[..|evs|] == evs;
    forall i | 0 <= i < |sent| && sent[i].Restart? ensures i > 0 && sent[i - 1].Save? {
      assert evs[i].Restart?;
    }
    HandledExactly(server, sent, next);
    assert Floor(server, sent) > next.walStart;
  }

  /** Two messages of which the second starts where the first, processed one ends: after a restart the second is handled
      without a status, and skipped with one. */
  lemma StatusMakesTheDifference(server: Server, done: Message, next: Message)
    requires Legal(server) && server.confirmedFlush <= done.walStart && server.position <= done.walStart
    requires done.length > 0 && done.walStart + done.length + 1 < UINT64
    requires !next.relation && next.walStart == End(done)
    ensures Handles(Run(server, [Acknowledge(done, None), Save, Restart]), next)
    ensures !Handles(Run(server, [Acknowledge(done, None), SendStatus, Save, Restart]), next)
  {
    hide Handles, Run;
    var evs := [Acknowledge(done, None)];
    assert evs[..0] == [];
    assert Reached(server, evs) == End(done) == Floor(server, evs);
    assert evs + [Save, Restart] == [Acknowledge(done, None), Save, Restart];
    HandledExactly(server, evs, next);
    assert evs + [SendStatus] + [Save, Restart] == [Acknowledge(done, None), SendStatus, Save, Restart];
    StatusSkipsNext(server, evs, next);
  }
}
