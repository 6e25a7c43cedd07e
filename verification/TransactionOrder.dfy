/** Order over every stream, in both modes of the tracker. */
module TransactionOrder {
  import opened Wal
  import opened Wrappers
  import opened TransactionTracker
  import opened TransactionWindow

  // ---------------------------------------------------------------------------------------------
  // Order
  // ---------------------------------------------------------------------------------------------

  /** Positions grow along the line and stay below `n`. */
  ghost predicate Ascending(line: seq<Call>, n: nat) {
    && (forall i, j :: 0 <= i < j < |line| ==> PosOf(line[i]) < PosOf(line[j]))
    && (forall i :: 0 <= i < |line| ==> PosOf(line[i]) < n)
  }

  ghost predicate Orderly(c: Config, s: State, n: nat) {
    && Tidy(s)
    && (c.markers ==> s.queue == [])
    && Ascending(Line(s), n)
  }

  lemma SameLine(c: Config, s: State, s': State, n: nat)
    requires Orderly(c, s, n)
    requires Select(s'.calls, InLine) == Select(s.calls, InLine) && s'.queue == s.queue
    requires s'.tx.active == s.tx.active || s.queue == []
    requires s'.health == Running ==> s.health == Running
    requires Bypassed(s'.tx) == Bypassed(s.tx)
    ensures Orderly(c, s', n + 1)
  {
    assert Deliveries([]) == [];
    assert Line(s') == Line(s);
  }

  /** Giving up the window shortens the line to what was delivered. */
  lemma ShorterLine(c: Config, s: State, s': State, n: nat)
    requires Orderly(c, s, n)
    requires Select(s'.calls, InLine) == Select(s.calls, InLine)
    requires s'.queue == [] || (!s'.tx.active && s'.queue == s.queue)
    ensures Orderly(c, s', n + 1)
  {
    assert Deliveries([]) == [];
    assert Line(s') == Select(s.calls, InLine);
    assert Line(s') <= Line(s);
  }

  lemma LongerLine(c: Config, s: State, s': State, n: nat, call: Call)
    requires Orderly(c, s, n)
    requires Line(s') == Line(s) + [call] && PosOf(call) == n
    requires Tidy(s') && (c.markers ==> s'.queue == [])
    ensures Orderly(c, s', n + 1)
  {
  }

  lemma OrderlySubmit(c: Config, s: State, e: Entry, late: bool)
    requires Orderly(c, s, e.pos) && s.health == Running && Transactional(e.msg)
    ensures Orderly(c, Submit(c, s, e, late), e.pos + 1)
  {
    var s' := Submit(c, s, e, late);
    hide Ascending, Line;
    if s'.health != Running {
      SameLine(c, s, s', e.pos);
    } else if c.markers {
      ForwardLine(s, s', OnRecord(e));
      LongerLine(c, s, s', e.pos, OnRecord(e));
    } else {
      SubmitLine(c, s, e, late);
      LongerLine(c, s, s', e.pos, OnRecord(e));
    }
  }

  lemma OrderlyAside(c: Config, s: State, s': State, n: nat, call: Call)
    requires Orderly(c, s, n)
    requires !InLine(call) && s' == Forward(s, call)
    ensures Orderly(c, s', n + 1)
  {
    AppendAside(s.calls, call);
    SameLine(c, s, s', n);
  }

  lemma OrderlyBegin(c: Config, s: State, e: Entry)
    requires Orderly(c, s, e.pos)
    ensures Orderly(c, BeginEvent(c, s, e), e.pos + 1)
  {
    AppendAside(s.calls, OnBegin(e));
    ShorterLine(c, s, BeginEvent(c, s, e), e.pos);
  }

  lemma OrderlyCommit(c: Config, s: State, e: Entry, catalog: map<int, int>)
    requires Orderly(c, s, e.pos) && s.health == Running && e.msg.Commit?
    ensures Orderly(c, CommitEvent(c, s, e, catalog), e.pos + 1)
  {
    var s' := CommitEvent(c, s, e, catalog);
    if !s.tx.active {
      AppendInLine(s.calls, [OnCommit(e)]);
      LongerLine(c, s, s', e.pos, OnCommit(e));
    } else if c.markers {
      AppendInLine(s.calls, [OnCommit(e)]);
      assert Deliveries([]) == [];
      LongerLine(c, s, s', e.pos, OnCommit(e));
    } else if Suppresses(s.tx, catalog) {
      OrderlySuppressed(c, s, e, catalog);
    } else {
      OrderlyDrained(c, s, e, catalog);
    }
  }

  function CompressionCalls(tx: Transaction, catalog: map<int, int>): (calls: seq<Call>)
    ensures forall i :: 0 <= i < |calls| ==> !InLine(calls[i]) && !calls[i].OnRecord?
  {
    if Known(tx.compressionUpdate, catalog) then
      [OnChunkCompression(ChunkOf(tx.compressionUpdate).value), OnChunkUpdate(tx.compressionUpdate.value)]
    else []
  }

  function DecompressionCalls(tx: Transaction): (calls: seq<Call>)
    requires ChunkOf(tx.decompressionUpdate).Some?
    ensures forall i :: 0 <= i < |calls| ==> !InLine(calls[i]) && !calls[i].OnRecord?
  {
    [OnChunkDecompression(ChunkOf(tx.decompressionUpdate).value), OnChunkUpdate(tx.decompressionUpdate.value)]
  }

  /** The commit of an open window: either the window is drained in front of the commit, or neither
      its entries nor the commit reach the resolver. */
  lemma WindowEnd(c: Config, s: State, e: Entry, catalog: map<int, int>)
    requires !c.markers && s.tx.active
    ensures var s' := CommitEvent(c, s, e, catalog);
            var noted := s.calls + CompressionCalls(s.tx, catalog);
            && !s'.tx.active && s'.health == s.health
            && (if !Suppresses(s.tx, catalog) then
                  s'.queue == [] && s'.calls == noted + Deliveries(s.queue) + [OnCommit(e)]
                else
                  s'.queue == s.queue &&
                  s'.calls == noted + if s.tx.decompressionUpdate.Some? then DecompressionCalls(s.tx) else [])
  {
  }

  lemma AsidesKeepLine(before: seq<Call>, added: seq<Call>)
    requires forall i :: 0 <= i < |added| ==> !InLine(added[i])
    ensures Select(before + added, InLine) == Select(before, InLine)
  {
    SelectConcat(before, added, InLine);
    SelectNone(added, InLine);
  }

  lemma DrainedLine(s: State, s': State, noted: seq<Call>, e: Entry)
    requires Tidy(s) && s.tx.active && !s'.tx.active && e.msg.Commit?
    requires Select(noted, InLine) == Select(s.calls, InLine)
    requires s'.calls == noted + Deliveries(s.queue) + [OnCommit(e)]
    ensures Line(s') == Line(s) + [OnCommit(e)]
  {
    hide Select;
    AppendInLine(noted, Deliveries(s.queue));
    AppendInLine(noted + Deliveries(s.queue), [OnCommit(e)]);
  }

  lemma OrderlyDrained(c: Config, s: State, e: Entry, catalog: map<int, int>)
    requires Orderly(c, s, e.pos) && !c.markers && s.tx.active && e.msg.Commit?
    requires !Suppresses(s.tx, catalog)
    ensures Orderly(c, CommitEvent(c, s, e, catalog), e.pos + 1)
  {
    WindowEnd(c, s, e, catalog);
    AsidesKeepLine(s.calls, CompressionCalls(s.tx, catalog));
    hide Ascending, CommitEvent, Suppresses, CompressionCalls, Select, Line;
    DrainedLine(s, CommitEvent(c, s, e, catalog), s.calls + CompressionCalls(s.tx, catalog), e);
    LongerLine(c, s, CommitEvent(c, s, e, catalog), e.pos, OnCommit(e));
  }

  lemma OrderlySuppressed(c: Config, s: State, e: Entry, catalog: map<int, int>)
    requires Orderly(c, s, e.pos) && !c.markers && s.tx.active
    requires Suppresses(s.tx, catalog)
    ensures Orderly(c, CommitEvent(c, s, e, catalog), e.pos + 1)
  {
    var noted := s.calls + CompressionCalls(s.tx, catalog);
    var rest := if s.tx.decompressionUpdate.Some? then DecompressionCalls(s.tx) else [];
    WindowEnd(c, s, e, catalog);
    hide Orderly, CommitEvent, Suppresses, CompressionCalls, DecompressionCalls, Select;
    AsidesKeepLine(s.calls, CompressionCalls(s.tx, catalog));
    AsidesKeepLine(noted, rest);
    ShorterLine(c, s, CommitEvent(c, s, e, catalog), e.pos);
  }

  /** The states differ at most in what the transaction knows about compression. */
  predicate SameWindow(s: State, t: State) {
    t == s.(tx := s.tx.(compressionUpdate := t.tx.compressionUpdate,
                        decompressionUpdate := t.tx.decompressionUpdate,
                        ongoingDecompression := t.tx.ongoingDecompression))
  }

  /** A record is noted, and then dropped, submitted, or fatal. */
  lemma RecordShape(c: Config, s: State, pos: nat, ev: Event) returns (t: State)
    requires s.health == Running && IsRecord(ev.msg)
    ensures SameWindow(s, t)
    ensures Step(c, s, pos, ev) in {t, t.(health := Crashed), Submit(c, t, Entry(pos, ev.msg), ev.late)}
  {
    hide Push, NoteStatus;
    t := s;
    if ev.msg.Update? && KindOf(s, ev.msg.rel) == Some(ChunkCatalog) && !c.markers {
      t := s.(tx := NoteStatus(s.tx, Entry(pos, ev.msg), ev.catalog));
      NoteStatusFrame(s, Entry(pos, ev.msg), ev.catalog);
    } else if ev.msg.Logical? && c.markers && ev.msg.prefix == DECOMPRESSION_MARKER_START {
      t := s.(tx := s.tx.(ongoingDecompression := true));
    } else if ev.msg.Logical? && c.markers && ev.msg.prefix == DECOMPRESSION_MARKER_END
              && s.tx.active && s.tx.ongoingDecompression {
      t := s.(tx := s.tx.(ongoingDecompression := false));
    }
  }

  lemma NoteStatusFrame(s: State, e: Entry, catalog: map<int, int>)
    requires e.msg.Update?
    ensures SameWindow(s, s.(tx := NoteStatus(s.tx, e, catalog)))
  {
  }

  lemma OrderlyRecord(c: Config, s: State, pos: nat, ev: Event)
    requires Orderly(c, s, pos) && s.health == Running && IsRecord(ev.msg)
    ensures Orderly(c, Step(c, s, pos, ev), pos + 1)
  {
    var t := RecordShape(c, s, pos, ev);
    hide Step, Submit, Ascending, Select;
    assert Line(t) == Line(s);
    SameLine(c, s, t, pos);
    SameLine(c, s, t.(health := Crashed), pos);
    OrderlySubmit(c, t, Entry(pos, ev.msg), ev.late);
  }

  lemma OrderlyStep(c: Config, s: State, pos: nat, ev: Event)
    requires Orderly(c, s, pos)
    ensures Orderly(c, Step(c, s, pos, ev), pos + 1)
  {
    var e := Entry(pos, ev.msg);
    hide Ascending, Line, Select, Submit, CommitEvent, BeginEvent;
    if s.health != Running {
      SameLine(c, s, s, pos);
    } else if IsRecord(ev.msg) {
      OrderlyRecord(c, s, pos, ev);
    } else {
      match ev.msg {
        case Relation(_, _) =>
          AppendAside(s.calls, OnRelation(e));
          SameLine(c, s, Step(c, s, pos, ev), pos);
        case Begin => OrderlyBegin(c, s, e);
        case Commit => OrderlyCommit(c, s, e, ev.catalog);
        case Logical(_, _) => OrderlyAside(c, s, Forward(s, OnRecord(e)), pos, OnRecord(e));
      }
    }
  }

  /** Over every stream, the delivered messages and commits, followed by the entries of an open window,
      are in stream order; no message is delivered twice. */
  lemma {:induction false} StreamOrder(c: Config, maxSize: nat, evs: seq<Event>)
    ensures Orderly(c, Run(c, maxSize, evs), |evs|)
  {
    hide Step;
    if evs == [] {
      assert Deliveries([]) == [];
    } else {
      StreamOrder(c, maxSize, Past(evs));
      OrderlyStep(c, Run(c, maxSize, Past(evs)), |evs| - 1, Latest(evs));
    }
  }
}
