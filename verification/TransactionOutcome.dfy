/** What becomes of the records and the commit of a transaction in the mode without markers, read off the stream
    alone. */
module TransactionOutcome {
  import opened Wal
  import opened Wrappers
  import opened TransactionTracker
  import opened TransactionWindow
  import opened TransactionOrder
  import opened TransactionIsolation
  import opened TransactionNotes
  import opened TransactionSurvival

  /** A commit gives the window up: after a decompression of a chunk that is known then, or a compression alone. */
  predicate GivesUp(evs: seq<Event>, catalog: map<int, int>) {
    if LastDecompression(evs) < 0 then LastCompression(evs) >= 0
    else evs[LastDecompression(evs)].msg.chunkId in catalog
  }

  /** In a stream it survives, the tracker notes a compression exactly if since the last Begin a known chunk went from
      zero to another status, and a decompression exactly if one went to zero from another status or after a compression
      of any chunk through the same relation. */
  lemma NotesExactly(c: Config, maxSize: nat, evs: seq<Event>)
    requires !c.markers && Survives(c, maxSize, evs)
    ensures Run(c, maxSize, evs).tx.compressionUpdate.Some? <==>
              exists i :: LastBegin(evs) < i < |evs| && Compresses(Announced(evs[..i]), evs[i])
    ensures Run(c, maxSize, evs).tx.decompressionUpdate.Some? <==>
              exists i :: LastBegin(evs) < i < |evs| && Decompresses(evs[..i], evs[i])
  {
    hide Run, Survives, LastCompression, LastDecompression, Compresses, Decompresses, Announced, LastBegin,
      InTransaction;
    HealthExactly(c, maxSize, evs);
    StreamNotes(c, maxSize, evs);
    CompressionExactly(evs);
    DecompressionExactly(evs);
  }

  lemma {:induction false} SubmittedSinceBegin(c: Config, evs: seq<Event>, e: Entry)
    requires e in SubmittedSince(c, evs)
    ensures LastBegin(evs) < e.pos < |evs| && Transactional(e.msg)
  {
    hide Announced, LastDecompression;
    if e in SubmittedSince(c, Past(evs)) {
      SubmittedSinceBegin(c, Past(evs), e);
    }
  }

  // ---------------------------------------------------------------------------------------------
  // The commit
  // ---------------------------------------------------------------------------------------------

  lemma GivesUpExactly(c: Config, maxSize: nat, evs: seq<Event>, catalog: map<int, int>)
    requires !c.markers && Run(c, maxSize, evs).health == Running
    ensures Suppresses(Run(c, maxSize, evs).tx, catalog) <==> GivesUp(evs, catalog)
    ensures Run(c, maxSize, evs).tx.active == InTransaction(evs)
  {
    hide Run, LastCompression, LastDecompression, Announced;
    StreamNotes(c, maxSize, evs);
  }

  lemma CommitRunning(c: Config, maxSize: nat, evs: seq<Event>, commit: Event, more: seq<Event>)
    requires !c.markers && commit.msg.Commit? && InTransaction(evs) && Run(c, maxSize, evs).health == Running
    ensures OnCommit(Entry(|evs|, Commit)) in Run(c, maxSize, evs + [commit] + more).calls <==>
              !GivesUp(evs, commit.catalog)
  {
    hide GivesUp, Select, Line;
    var s := Run(c, maxSize, evs);
    var ended := Run(c, maxSize, evs + [commit]);
    var end := Run(c, maxSize, evs + [commit] + more);
    var call := OnCommit(Entry(|evs|, Commit));
    GivesUpExactly(c, maxSize, evs, commit.catalog);
    StreamOrder(c, maxSize, evs);
    assert Past(evs + [commit]) == evs;
    WindowEnd(c, s, Entry(|evs|, Commit), commit.catalog);
    NothingFromBefore(c, maxSize, evs + [commit], more);
    if GivesUp(evs, commit.catalog) && call in end.calls {
      var i :| 0 <= i < |end.calls| && end.calls[i] == call;
      if i < |s.calls| {
        assert end.calls[i] == ended.calls[i] == s.calls[i];
        InLineBelow(c, s, |evs|, i);
      }
    }
    if !GivesUp(evs, commit.catalog) {
      var i := |ended.calls| - 1;
      assert end.calls[i] == ended.calls[i] == call;
    }
  }

  /** The commit of a transaction reaches the resolver, in any continuation, exactly if the tracker survives the stream
      in front of it and the transaction is not given up; a commit outside a transaction always does then. */
  lemma CommitExactly(c: Config, maxSize: nat, evs: seq<Event>, commit: Event, more: seq<Event>)
    requires !c.markers && commit.msg.Commit?
    ensures OnCommit(Entry(|evs|, Commit)) in Run(c, maxSize, evs + [commit] + more).calls <==>
              Survives(c, maxSize, evs) && (InTransaction(evs) ==> !GivesUp(evs, commit.catalog))
  {
    hide GivesUp, Survives, Run, InTransaction, Handled;
    HealthExactly(c, maxSize, evs);
    HandledExactly(c, maxSize, evs);
    if !Survives(c, maxSize, evs) {
      AfterTheEnd(c, maxSize, evs, [commit] + more, OnCommit(Entry(|evs|, Commit)));
      assert evs + ([commit] + more) == evs + [commit] + more;
    } else if InTransaction(evs) {
      CommitRunning(c, maxSize, evs, commit, more);
    } else {
      StreamNotes(c, maxSize, evs);
      RunOne(c, maxSize, evs, commit);
      NothingFromBefore(c, maxSize, evs + [commit], more);
      var ended := Run(c, maxSize, evs + [commit]);
      assert ended.calls[|ended.calls| - 1] == OnCommit(Entry(|evs|, Commit));
      StaysIn(ended.calls, Run(c, maxSize, evs + [commit] + more).calls, OnCommit(Entry(|evs|, Commit)));
    }
  }

  /** Nothing that comes after the end of the tracker is handed on. */
  lemma AfterTheEnd(c: Config, maxSize: nat, evs: seq<Event>, more: seq<Event>, call: Call)
    requires !c.markers && Handled(c, maxSize, evs) != evs && InLine(call)
    ensures Run(c, maxSize, evs + more).calls == Run(c, maxSize, Handled(c, maxSize, evs)).calls
    ensures |Handled(c, maxSize, evs)| <= call.entry.pos ==> call !in Run(c, maxSize, evs + more).calls
  {
    hide Run, Handled;
    var h := Handled(c, maxSize, evs);
    HandledStays(c, maxSize, evs, more);
    RunHandled(c, maxSize, evs + more);
    StreamOrder(c, maxSize, h);
    var s := Run(c, maxSize, h);
    if call in s.calls {
      var i :| 0 <= i < |s.calls| && s.calls[i] == call;
      InLineBelow(c, s, |h|, i);
    }
  }

  /** A record collected in a transaction reaches the resolver, in any continuation after the commit, exactly if the
      tracker got as far as the record, and drained the window early or got to a commit that does not give it up. */
  lemma DeliveredExactly(c: Config, maxSize: nat, evs: seq<Event>, commit: Event, more: seq<Event>, e: Entry)
    requires !c.markers && commit.msg.Commit? && InTransaction(evs) && e in SubmittedSince(c, evs)
    ensures var h := Handled(c, maxSize, evs);
            OnRecord(e) in Run(c, maxSize, evs + [commit] + more).calls <==>
              e.pos < |h| && (DrainedEarly(c, maxSize, h) || (h == evs && !GivesUp(evs, commit.catalog)))
  {
    hide GivesUp, Survives, Run, InTransaction, Handled, DrainedEarly, SubmittedSince;
    var h := Handled(c, maxSize, evs);
    SubmittedSinceBegin(c, evs, e);
    RunHandled(c, maxSize, evs);
    if h == evs && !DrainedEarly(c, maxSize, evs) {
      DeliveredRunning(c, maxSize, evs, commit, more, e);
    } else if h == evs {
      DeliveredEarly(c, maxSize, evs, e);
      CallsGrow(c, maxSize, evs, [commit] + more);
      assert evs + ([commit] + more) == evs + [commit] + more;
      StaysIn(Run(c, maxSize, evs).calls, Run(c, maxSize, evs + [commit] + more).calls, OnRecord(e));
    } else {
      AfterTheEnd(c, maxSize, evs, [commit] + more, OnRecord(e));
      assert evs + ([commit] + more) == evs + [commit] + more;
      if e.pos < |h| {
        assert h == evs[..|h|];
        WindowPrefix(c, evs, e, |h|);
        DeliveredEarly(c, maxSize, h, e);
      }
    }
  }

  /** In an open window, a collected record is delivered exactly if the window was drained early. */
  lemma DeliveredEarly(c: Config, maxSize: nat, evs: seq<Event>, e: Entry)
    requires !c.markers && Run(c, maxSize, evs).health == Running && InTransaction(evs) && e in SubmittedSince(c, evs)
    ensures OnRecord(e) in Run(c, maxSize, evs).calls <==> DrainedEarly(c, maxSize, evs)
  {
    hide Run, DrainedEarly, SubmittedSince;
    var s := Run(c, maxSize, evs);
    StreamNotes(c, maxSize, evs);
    StreamCollects(c, maxSize, evs);
    StreamOwned(c, maxSize, evs);
    SubmittedSinceBegin(c, evs, e);
    var k :| 0 <= k < |SubmittedSince(c, evs)| && SubmittedSince(c, evs)[k] == e;
  }

  lemma {:induction false} CallsGrow(c: Config, maxSize: nat, evs: seq<Event>, more: seq<Event>)
    ensures Run(c, maxSize, evs).calls <= Run(c, maxSize, evs + more).calls
  {
    hide Step;
    if more == [] {
      assert evs + more == evs;
    } else {
      CallsGrow(c, maxSize, evs, Past(more));
      assert Past(evs + more) == evs + Past(more);
      StepHands(c, Run(c, maxSize, evs + Past(more)), |evs + more| - 1, Latest(more));
    }
  }

  lemma {:induction false} WindowPrefix(c: Config, evs: seq<Event>, e: Entry, n: nat)
    requires InTransaction(evs) && e in SubmittedSince(c, evs) && e.pos < n <= |evs|
    ensures InTransaction(evs[..n]) && e in SubmittedSince(c, evs[..n])
  {
    if n == |evs| {
      assert evs[..n] == evs;
    } else {
      assert e != LatestEntry(evs);
      assert Past(evs)[..n] == evs[..n];
      WindowPrefix(c, Past(evs), e, n);
    }
  }

  lemma DeliveredRunning(c: Config, maxSize: nat, evs: seq<Event>, commit: Event, more: seq<Event>, e: Entry)
    requires !c.markers && commit.msg.Commit? && InTransaction(evs) && Run(c, maxSize, evs).health == Running
    requires !DrainedEarly(c, maxSize, evs) && e in SubmittedSince(c, evs)
    ensures OnRecord(e) in Run(c, maxSize, evs + [commit] + more).calls <==> !GivesUp(evs, commit.catalog)
  {
    hide GivesUp, Select, DrainedEarly, SubmittedSince, Suppresses, Run;
    GivesUpExactly(c, maxSize, evs, commit.catalog);
    StreamCollects(c, maxSize, evs);
    SubmittedSinceBegin(c, evs, e);
    if GivesUp(evs, commit.catalog) {
      GivenUpForGood(c, maxSize, evs, commit, more, OnRecord(e));
    } else {
      DeliveredAtCommit(c, maxSize, evs, commit, more, e);
    }
  }

  lemma DeliveredAtCommit(c: Config, maxSize: nat, evs: seq<Event>, commit: Event, more: seq<Event>, e: Entry)
    requires !c.markers && commit.msg.Commit? && Run(c, maxSize, evs).health == Running
    requires Run(c, maxSize, evs).tx.active
    requires !Suppresses(Run(c, maxSize, evs).tx, commit.catalog) && e in Run(c, maxSize, evs).queue
    ensures OnRecord(e) in Run(c, maxSize, evs + [commit] + more).calls
  {
    hide Run, Suppresses, Known, CompressionCalls, DecompressionCalls, HandsOn, CommitEvent;
    var s := Run(c, maxSize, evs);
    RunOne(c, maxSize, evs, commit);
    WindowEnd(c, s, Entry(|evs|, Commit), commit.catalog);
    NothingFromBefore(c, maxSize, evs + [commit], more);
    IsDelivered(s.calls + CompressionCalls(s.tx, commit.catalog), s.queue, OnCommit(Entry(|evs|, Commit)), e);
    StaysIn(Run(c, maxSize, evs + [commit]).calls, Run(c, maxSize, evs + [commit] + more).calls, OnRecord(e));
  }

  lemma IsDelivered(noted: seq<Call>, queue: seq<Entry>, last: Call, e: Entry)
    requires e in queue
    ensures OnRecord(e) in noted + Deliveries(queue) + [last]
  {
    var k :| 0 <= k < |queue| && queue[k] == e;
    assert Deliveries(queue)[k] == OnRecord(e);
  }

  lemma StaysIn(before: seq<Call>, after: seq<Call>, call: Call)
    requires before <= after && call in before
    ensures call in after
  {
    var i :| 0 <= i < |before| && before[i] == call;
    assert after[i] == call;
  }

  // ---------------------------------------------------------------------------------------------
  // Everything else the resolver is told
  // ---------------------------------------------------------------------------------------------

  /** A call that hands on neither a record nor a commit. */
  predicate IsNotice(call: Call) {
    !call.OnRecord? && !call.OnCommit?
  }

  /** What a commit tells about the chunks: the last compression and the last decompression of the transaction, each
      if the chunk is known at the commit. */
  function ChunkNotices(past: seq<Event>, catalog: map<int, int>): seq<Call> {
    var compressed, decompressed := LastCompression(past), LastDecompression(past);
    (if compressed >= 0 && past[compressed].msg.chunkId in catalog then
       [OnChunkCompression(past[compressed].msg.chunkId), OnChunkUpdate(Entry(compressed, past[compressed].msg))]
     else []) +
    (if decompressed >= 0 && past[decompressed].msg.chunkId in catalog then
       [OnChunkDecompression(past[decompressed].msg.chunkId),
        OnChunkUpdate(Entry(decompressed, past[decompressed].msg))]
     else [])
  }

  /** The notices of a stream: every relation, and at the end of a transaction what happened to its chunks. */
  function Notices(evs: seq<Event>): seq<Call> {
    if evs == [] then []
    else
      Notices(Past(evs)) +
      if Latest(evs).msg.Relation? then [OnRelation(LatestEntry(evs))]
      else if Latest(evs).msg.Commit? && InTransaction(Past(evs)) then ChunkNotices(Past(evs), Latest(evs).catalog)
      else []
  }

  lemma NoNotices(calls: seq<Call>, more: seq<Call>)
    requires forall i :: 0 <= i < |more| ==> !IsNotice(more[i])
    ensures Select(calls + more, IsNotice) == Select(calls, IsNotice)
  {
    SelectConcat(calls, more, IsNotice);
    SelectNone(more, IsNotice);
  }

  lemma OnlyNotices(calls: seq<Call>, more: seq<Call>)
    requires forall i :: 0 <= i < |more| ==> IsNotice(more[i])
    ensures Select(calls + more, IsNotice) == Select(calls, IsNotice) + more
  {
    SelectConcat(calls, more, IsNotice);
    SelectAll(more, IsNotice);
  }

  lemma SubmitNotices(c: Config, s: State, e: Entry, late: bool)
    ensures Select(Submit(c, s, e, late).calls, IsNotice) == Select(s.calls, IsNotice)
  {
    hide Select;
    NoNotices(s.calls, [OnRecord(e)]);
    NoNotices(s.calls, Deliveries(s.queue + [e]));
  }

  lemma CommitNotices(c: Config, s: State, evs: seq<Event>)
    requires evs != [] && !c.markers && s.health == Running && Notes(Past(evs), s)
    requires Latest(evs).msg.Commit? && InTransaction(Past(evs))
    ensures Select(CommitEvent(c, s, LatestEntry(evs), Latest(evs).catalog).calls, IsNotice) ==
            Select(s.calls, IsNotice) + ChunkNotices(Past(evs), Latest(evs).catalog)
  {
    hide Select, CommitEvent, LastCompression, LastDecompression, Announced;
    var catalog := Latest(evs).catalog;
    var compression := CompressionCalls(s.tx, catalog);
    var rest := if Known(s.tx.decompressionUpdate, catalog) then DecompressionCalls(s.tx) else [];
    WindowEnd(c, s, LatestEntry(evs), catalog);
    assert ChunkNotices(Past(evs), catalog) == compression + rest;
    OnlyNotices(s.calls, compression);
    OnlyNotices(s.calls + compression, rest);
    NoNotices(s.calls + compression, Deliveries(s.queue));
    NoNotices(s.calls + compression + Deliveries(s.queue), [OnCommit(LatestEntry(evs))]);
  }

  lemma RecordNotices(c: Config, s: State, pos: nat, ev: Event)
    requires s.health == Running && IsRecord(ev.msg)
    ensures Select(Step(c, s, pos, ev).calls, IsNotice) == Select(s.calls, IsNotice)
  {
    hide Select, Step, Submit;
    var t := RecordShape(c, s, pos, ev);
    SubmitNotices(c, t, Entry(pos, ev.msg), ev.late);
  }

  /** Messages that are neither records nor commits. */
  lemma OtherNotices(c: Config, s: State, pos: nat, ev: Event)
    requires !c.markers && s.health == Running && !IsRecord(ev.msg) && !ev.msg.Commit?
    ensures Select(Step(c, s, pos, ev).calls, IsNotice) ==
            Select(s.calls, IsNotice) + if ev.msg.Relation? then [OnRelation(Entry(pos, ev.msg))] else []
  {
    hide Select;
    NoNotices(s.calls, [OnRecord(Entry(pos, ev.msg))]);
    OnlyNotices(s.calls, [OnRelation(Entry(pos, ev.msg))]);
  }

  lemma StepNotices(c: Config, s: State, evs: seq<Event>)
    requires evs != [] && !c.markers && s.health == Running && Notes(Past(evs), s)
    requires Select(s.calls, IsNotice) == Notices(Past(evs))
    ensures Select(Step(c, s, |evs| - 1, Latest(evs)).calls, IsNotice) == Notices(evs)
  {
    hide Select, Step, ChunkNotices;
    if IsRecord(Latest(evs).msg) {
      RecordNotices(c, s, |evs| - 1, Latest(evs));
    } else if Latest(evs).msg.Commit? {
      StepCommit(c, s, evs);
      if InTransaction(Past(evs)) {
        CommitNotices(c, s, evs);
      } else {
        CommitOutside(c, s, LatestEntry(evs), Latest(evs).catalog);
        NoNotices(s.calls, [OnCommit(LatestEntry(evs))]);
      }
    } else {
      OtherNotices(c, s, |evs| - 1, Latest(evs));
    }
  }

  lemma StepCommit(c: Config, s: State, evs: seq<Event>)
    requires evs != [] && s.health == Running && Latest(evs).msg.Commit?
    ensures Step(c, s, |evs| - 1, Latest(evs)) == CommitEvent(c, s, LatestEntry(evs), Latest(evs).catalog)
  {
  }

  lemma CommitOutside(c: Config, s: State, e: Entry, catalog: map<int, int>)
    requires !s.tx.active
    ensures CommitEvent(c, s, e, catalog).calls == s.calls + [OnCommit(e)]
  {
  }

  lemma {:induction false} RunningNotices(c: Config, maxSize: nat, evs: seq<Event>)
    requires !c.markers && Run(c, maxSize, evs).health == Running
    ensures Select(Run(c, maxSize, evs).calls, IsNotice) == Notices(evs)
  {
    hide Step, Notices, Notes;
    if evs == [] {
      NoNoticesAtFirst();
    } else {
      RunningBefore(c, Run(c, maxSize, Past(evs)), |evs| - 1, Latest(evs));
      RunningNotices(c, maxSize, Past(evs));
      StreamNotes(c, maxSize, Past(evs));
      StepNotices(c, Run(c, maxSize, Past(evs)), evs);
    }
  }

  lemma RunningBefore(c: Config, s: State, pos: nat, ev: Event)
    requires Step(c, s, pos, ev).health == Running
    ensures s.health == Running
  {
  }

  lemma NoNoticesAtFirst()
    ensures Notices([]) == []
  {
  }

  /** Without markers, over every stream and up to the message that ends the tracker: besides records and commits the
      resolver is told exactly the relations, when they arrive, and at the end of a transaction what became of its
      chunks; no begin is handed on. */
  lemma NoticesExactly(c: Config, maxSize: nat, evs: seq<Event>)
    requires !c.markers
    ensures Select(Run(c, maxSize, evs).calls, IsNotice) == Notices(Handled(c, maxSize, evs))
    ensures forall i :: 0 <= i < |Run(c, maxSize, evs).calls| ==> !Run(c, maxSize, evs).calls[i].OnBegin?
  {
    hide Run, Handled, Select;
    RunHandled(c, maxSize, evs);
    RunningNotices(c, maxSize, Handled(c, maxSize, evs));
    NeverBegin(Handled(c, maxSize, evs));
    var calls := Run(c, maxSize, evs).calls;
    forall i | 0 <= i < |calls| ensures !calls[i].OnBegin? {
      SelectMember(calls, IsNotice, calls[i]);
    }
  }

  lemma {:induction false} NeverBegin(evs: seq<Event>)
    ensures forall i :: 0 <= i < |Notices(evs)| ==> !Notices(evs)[i].OnBegin?
  {
    hide LastCompression, LastDecompression, InTransaction;
    if evs != [] {
      NeverBegin(Past(evs));
    }
  }

  // ---------------------------------------------------------------------------------------------
  // Three streams
  // ---------------------------------------------------------------------------------------------

  /** A message that arrives in time while the catalog has two chunks, none of them compressed. */
  function Timely(msg: Message): Event {
    Event(msg, false, map[1 := 0, 2 := 0])
  }

  /** The chunk catalog and a user table are announced, and a transaction begins. */
  function Opening(): seq<Event> {
    Announcements() + [Timely(Begin)]
  }

  function Announcements(): seq<Event> {
    [Timely(Relation(1, ChunkCatalog))] + [Timely(Relation(2, UserTable))]
  }

  lemma OpeningRead(c: Config)
    ensures Announced(Opening()) == map[1 := ChunkCatalog, 2 := UserTable]
    ensures InTransaction(Opening()) && LastCompression(Opening()) == -1 == LastDecompression(Opening())
    ensures SubmittedSince(c, Opening()) == [] && !LateSince(c, Opening())
  {
    var one := [Timely(Relation(1, ChunkCatalog))];
    assert Past(one) == [] && Past(Announcements()) == one && Past(Opening()) == Announcements();
    assert Announced(one) == map[1 := ChunkCatalog];
  }

  lemma OneMore(c: Config, evs: seq<Event>, ev: Event)
    requires !ev.msg.Relation? && !ev.msg.Begin? && !ev.msg.Commit?
    ensures Announced(evs + [ev]) == Announced(evs) && InTransaction(evs + [ev]) == InTransaction(evs)
    ensures LastCompression(evs + [ev]) == if Compresses(Announced(evs), ev) then |evs| else LastCompression(evs)
    ensures LastDecompression(evs + [ev]) == if Decompresses(evs, ev) then |evs| else LastDecompression(evs)
    ensures SubmittedSince(c, evs + [ev]) ==
            SubmittedSince(c, evs) + if Submits(c, evs, ev) then [Entry(|evs|, ev.msg)] else []
    ensures LateSince(c, evs + [ev]) == (LateSince(c, evs) || (Submits(c, evs, ev) && ev.late))
  {
    assert Past(evs + [ev]) == evs;
  }

  /** One chunk is compressed and the status of another, never compressed chunk is written again. */
  function FalseStream(): seq<Event> {
    Opening() + [Timely(Update(1, 1, 1))] + [Timely(Update(1, 2, 0))]
  }

  lemma FalseStreamRead(c: Config)
    requires c.genInsert
    ensures LastDecompression(FalseStream()) == 4 && InTransaction(FalseStream())
    ensures Announced(FalseStream()) == map[1 := ChunkCatalog, 2 := UserTable]
    ensures !LateSince(c, FalseStream()) && |SubmittedSince(c, FalseStream())| <= 2
  {
    hide Announced, LastCompression, LastDecompression, InTransaction, SubmittedSince, LateSince;
    OpeningRead(c);
    OneMore(c, Opening(), Timely(Update(1, 1, 1)));
    var past := Opening() + [Timely(Update(1, 1, 1))];
    assert past[3] == Timely(Update(1, 1, 1));
    OneMore(c, past, Timely(Update(1, 2, 0)));
  }

  /** The tracker takes that for a decompression: an insert that follows is dropped although it is wanted, and after
      the commit neither it nor the commit is ever delivered. */
  lemma FalseDecompression(c: Config, more: seq<Event>)
    requires !c.markers && c.genInsert && c.capacity >= 2
    ensures Run(c, 0, FalseStream()).tx.decompressionUpdate == Some(Entry(4, Update(1, 2, 0)))
    ensures Wanted(c, Announced(FalseStream()), Insert(2)) && !Submits(c, FalseStream(), Timely(Insert(2)))
    ensures var end := Run(c, 0, FalseStream() + [Timely(Insert(2))] + [Timely(Commit)] + more);
            && OnRecord(Entry(5, Insert(2))) !in end.calls
            && OnCommit(Entry(6, Commit)) !in end.calls
  {
    hide Announced, LastCompression, LastDecompression, InTransaction, SubmittedSince, LateSince, Run, Suppresses;
    var evs := FalseStream() + [Timely(Insert(2))];
    FalseStreamRead(c);
    OneMore(c, FalseStream(), Timely(Insert(2)));
    FalseRunsOn(c);
    assert FalseStream()[4] == Timely(Update(1, 2, 0)) && evs[4] == Timely(Update(1, 2, 0));
    StreamNotes(c, 0, FalseStream());
    StreamNotes(c, 0, evs);
    StreamCollects(c, 0, evs);
    GivesUpExactly(c, 0, evs, Timely(Commit).catalog);
    CommitExactly(c, 0, evs, Timely(Commit), more);
    assert LastBegin(evs) < 5 by { FalseBegin(); }
    GivenUpForGood(c, 0, evs, Timely(Commit), more, OnRecord(Entry(5, Insert(2))));
  }

  /** The same stream, but the insert is for a relation that was never announced: the tracker crashes. */
  lemma UnannouncedCrashes(c: Config)
    requires !c.markers && c.genInsert && c.capacity >= 2
    ensures CrashesOn(FalseStream(), Timely(Insert(3)))
    ensures Run(c, 0, FalseStream() + [Timely(Insert(3))]).health == Crashed
  {
    hide Announced, LastCompression, LastDecompression, InTransaction, SubmittedSince, LateSince, Run, Step;
    var evs := FalseStream() + [Timely(Insert(3))];
    FalseStreamRead(c);
    FalseRunsOn(c);
    assert Past(evs) == FalseStream();
    StreamNotes(c, 0, FalseStream());
    CrashExactly(c, Run(c, 0, FalseStream()), evs);
    RunOne(c, 0, FalseStream(), Timely(Insert(3)));
  }

  lemma FalseBegin()
    ensures LastBegin(FalseStream() + [Timely(Insert(2))]) < 5
  {
    assert Past(FalseStream() + [Timely(Insert(2))]) == FalseStream();
  }

  /** A transaction inserts a row and compresses a chunk: neither its row nor its commit is ever delivered. */
  lemma CompressionLosesRecords(c: Config, more: seq<Event>)
    requires !c.markers && c.genInsert && c.capacity >= 2
    ensures var evs := Opening() + [Timely(Insert(2))] + [Timely(Update(1, 1, 1))];
            var end := Run(c, 0, evs + [Timely(Commit)] + more);
            && OnRecord(Entry(3, Insert(2))) !in end.calls
            && OnCommit(Entry(5, Commit)) !in end.calls
  {
    hide Announced, LastCompression, LastDecompression, InTransaction, SubmittedSince, LateSince, Run;
    var inserted := Opening() + [Timely(Insert(2))];
    var evs := inserted + [Timely(Update(1, 1, 1))];
    OpeningRead(c);
    OneMore(c, Opening(), Timely(Insert(2)));
    OneMore(c, inserted, Timely(Update(1, 1, 1)));
    RunsOn(c);
    DeliveredExactly(c, 0, evs, Timely(Commit), more, Entry(3, Insert(2)));
    CommitExactly(c, 0, evs, Timely(Commit), more);
  }

  lemma RunOne(c: Config, maxSize: nat, evs: seq<Event>, ev: Event)
    ensures Run(c, maxSize, evs + [ev]) == Step(c, Run(c, maxSize, evs), |evs|, ev)
    ensures Run(c, maxSize, []) == Initial(maxSize)
  {
    assert Past(evs + [ev]) == evs;
  }

  lemma OpeningRuns(c: Config)
    ensures var s := Run(c, 0, Opening());
            && s.health == Running && s.relations == map[1 := ChunkCatalog, 2 := UserTable] && s.queue == []
            && s.tx == EmptyTransaction(true, 0)
  {
    hide Run;
    RunOne(c, 0, [], Timely(Relation(1, ChunkCatalog)));
    assert [] + [Timely(Relation(1, ChunkCatalog))] == [Timely(Relation(1, ChunkCatalog))];
    RunOne(c, 0, [Timely(Relation(1, ChunkCatalog))], Timely(Relation(2, UserTable)));
    RunOne(c, 0, Announcements(), Timely(Begin));
  }

  lemma RunsOn(c: Config)
    requires !c.markers && c.genInsert && c.capacity >= 2
    ensures Run(c, 0, Opening() + [Timely(Insert(2))] + [Timely(Update(1, 1, 1))]).health == Running
  {
    hide Run;
    OpeningRuns(c);
    RunOne(c, 0, Opening(), Timely(Insert(2)));
    RunOne(c, 0, Opening() + [Timely(Insert(2))], Timely(Update(1, 1, 1)));
  }

  lemma FalseRunsOn(c: Config)
    requires !c.markers && c.genInsert && c.capacity >= 2
    ensures Run(c, 0, FalseStream()).health == Running
    ensures Run(c, 0, FalseStream() + [Timely(Insert(2))]).health == Running
  {
    hide Run;
    OpeningRuns(c);
    RunOne(c, 0, Opening(), Timely(Update(1, 1, 1)));
    RunOne(c, 0, Opening() + [Timely(Update(1, 1, 1))], Timely(Update(1, 2, 0)));
    RunOne(c, 0, FalseStream(), Timely(Insert(2)));
  }
}
