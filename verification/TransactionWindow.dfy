/** What the transaction tracker promises over whole streams. */
module TransactionWindow {
  import opened Wal
  import opened Wrappers
  import opened TransactionTracker

  // ---------------------------------------------------------------------------------------------
  // Reading a stream without the tracker
  // ---------------------------------------------------------------------------------------------

  function Past(evs: seq<Event>): seq<Event>
    requires evs != []
  {
    evs[..|evs| - 1]
  }

  function Latest(evs: seq<Event>): Event
    requires evs != []
  {
    evs[|evs| - 1]
  }

  function LatestEntry(evs: seq<Event>): Entry
    requires evs != []
  {
    Entry(|evs| - 1, Latest(evs).msg)
  }

  /** The relations announced by the stream so far. */
  function Announced(evs: seq<Event>): map<nat, RelationKind> {
    if evs == [] then map[]
    else
      var before := Announced(Past(evs));
      var msg := Latest(evs).msg;
      if msg.Relation? then before[msg.rel := msg.kind] else before
  }

  /** The stream is between a Begin and the next Commit. */
  predicate InTransaction(evs: seq<Event>) {
    evs != [] && (Latest(evs).msg.Begin? || (!Latest(evs).msg.Commit? && InTransaction(Past(evs))))
  }

  /** The position of the last Begin, -1 before the first one. */
  function LastBegin(evs: seq<Event>): (r: int)
    ensures -1 <= r < |evs|
  {
    if evs == [] then -1
    else if Latest(evs).msg.Begin? then |evs| - 1
    else LastBegin(Past(evs))
  }

  /** Transactions do not nest. */
  predicate Bracketed(evs: seq<Event>) {
    evs == [] || (Bracketed(Past(evs)) && (Latest(evs).msg.Begin? ==> !InTransaction(Past(evs))))
  }

  /** An update of a known chunk that leaves its status zero, or leaves it non-zero. */
  predicate KeepsStatus(kinds: map<nat, RelationKind>, ev: Event) {
    ev.msg.Update? && ev.msg.rel in kinds && kinds[ev.msg.rel].ChunkCatalog? && ev.msg.chunkId in ev.catalog
    ==> (ev.catalog[ev.msg.chunkId] == 0 <==> ev.msg.status == 0)
  }

  /** No chunk is compressed or decompressed in the stream. */
  predicate Quiet(evs: seq<Event>) {
    evs == [] || (Quiet(Past(evs)) && KeepsStatus(Announced(Past(evs)), Latest(evs)))
  }

  /** The configuration asks for events of this kind, or the catalog needs the message. */
  predicate Wanted(c: Config, kinds: map<nat, RelationKind>, msg: Message) {
    match msg
    case Insert(rel) => c.genInsert || rel !in kinds || !kinds[rel].UserTable?
    case Update(rel, _, _) => c.genUpdate || rel !in kinds || kinds[rel].HypertableCatalog?
    case Delete(rel) => c.genDelete || rel !in kinds || !kinds[rel].UserTable?
    case Truncate => c.genTruncate
    case Logical(transactional, _) => transactional ==> c.genMessage
    case _ => false
  }

  /** The call a message contributes to the transactional line. */
  function Adds(c: Config, kinds: map<nat, RelationKind>, e: Entry): seq<Call> {
    if e.msg.Commit? then [OnCommit(e)]
    else if Transactional(e.msg) && Wanted(c, kinds, e.msg) then [OnRecord(e)]
    else []
  }

  /** The transactional messages and commits of the stream that are to reach the resolver, in stream order. */
  function Expected(c: Config, evs: seq<Event>): seq<Call> {
    if evs == [] then []
    else Expected(c, Past(evs)) + Adds(c, Announced(Past(evs)), LatestEntry(evs))
  }

  /** The non-transactional messages of the stream. */
  function Immediate(evs: seq<Event>): seq<Call> {
    if evs == [] then []
    else Immediate(Past(evs)) + if Transactional(Latest(evs).msg) then [] else [OnRecord(LatestEntry(evs))]
  }

  // ---------------------------------------------------------------------------------------------
  // Projections of the calls
  // ---------------------------------------------------------------------------------------------

  predicate InLine(call: Call) {
    call.OnCommit? || (call.OnRecord? && Transactional(call.entry.msg))
  }

  predicate OutOfLine(call: Call) {
    call.OnRecord? && !Transactional(call.entry.msg)
  }

  function Select(calls: seq<Call>, keep: Call -> bool): seq<Call> {
    if calls == [] then []
    else
      var n := |calls| - 1;
      Select(calls[..n], keep) + if keep(calls[n]) then [calls[n]] else []
  }

  lemma {:induction false} SelectMember(calls: seq<Call>, keep: Call -> bool, call: Call)
    ensures call in Select(calls, keep) <==> call in calls && keep(call)
  {
    if calls != [] {
      var n := |calls| - 1;
      SelectMember(calls[..n], keep, call);
      assert calls == calls[..n] + [calls[n]];
    }
  }

  lemma {:induction false} SelectConcat(a: seq<Call>, b: seq<Call>, keep: Call -> bool)
    ensures Select(a + b, keep) == Select(a, keep) + Select(b, keep)
  {
    if b == [] {
      assert a + b == a;
    } else {
      var n := |b| - 1;
      assert (a + b)[..|a + b| - 1] == a + b[..n];
      SelectConcat(a, b[..n], keep);
    }
  }

  lemma {:induction false} SelectAll(a: seq<Call>, keep: Call -> bool)
    requires forall i :: 0 <= i < |a| ==> keep(a[i])
    ensures Select(a, keep) == a
  {
    if a != [] {
      SelectAll(a[..|a| - 1], keep);
    }
  }

  lemma {:induction false} SelectNone(a: seq<Call>, keep: Call -> bool)
    requires forall i :: 0 <= i < |a| ==> !keep(a[i])
    ensures Select(a, keep) == []
  {
    if a != [] {
      SelectNone(a[..|a| - 1], keep);
    }
  }

  lemma AppendInLine(before: seq<Call>, added: seq<Call>)
    requires forall i :: 0 <= i < |added| ==> InLine(added[i])
    ensures Select(before + added, InLine) == Select(before, InLine) + added
    ensures Select(before + added, OutOfLine) == Select(before, OutOfLine)
  {
    SelectConcat(before, added, InLine);
    SelectConcat(before, added, OutOfLine);
    SelectAll(added, InLine);
    SelectNone(added, OutOfLine);
  }

  lemma AppendAside(before: seq<Call>, call: Call)
    requires !InLine(call)
    ensures Select(before + [call], InLine) == Select(before, InLine)
    ensures Select(before + [call], OutOfLine) == Select(before, OutOfLine) + if OutOfLine(call) then [call] else []
  {
    assert (before + [call])[..|before|] == before;
  }

  // ---------------------------------------------------------------------------------------------
  // One step
  // ---------------------------------------------------------------------------------------------

  /** The transactional line: what was delivered, followed by what an open window still holds. */
  function Line(s: State): seq<Call> {
    Select(s.calls, InLine) + if s.tx.active then Deliveries(s.queue) else []
  }

  ghost predicate Tidy(s: State) {
    && (forall i :: 0 <= i < |s.queue| ==> Transactional(s.queue[i].msg))
    && (s.health == Running && s.tx.active && Bypassed(s.tx) ==> s.queue == [])
  }

  lemma ForwardLine(s: State, s': State, call: Call)
    requires InLine(call) && s'.tx.active == s.tx.active && s'.queue == s.queue
    requires s.tx.active ==> s.queue == []
    requires s'.calls == s.calls + [call]
    ensures Line(s') == Line(s) + [call]
    ensures Select(s'.calls, OutOfLine) == Select(s.calls, OutOfLine)
  {
    AppendInLine(s.calls, [call]);
  }

  lemma DrainLine(s: State, s': State, queue: seq<Entry>)
    requires s'.queue == [] && s'.calls == s.calls + Deliveries(queue)
    requires forall i :: 0 <= i < |queue| ==> Transactional(queue[i].msg)
    ensures Line(s') == Select(s.calls, InLine) + Deliveries(queue)
    ensures Select(s'.calls, OutOfLine) == Select(s.calls, OutOfLine)
  {
    AppendInLine(s.calls, Deliveries(queue));
  }

  lemma OneDelivery(queue: seq<Entry>, e: Entry)
    ensures Deliveries(queue + [e]) == Deliveries(queue) + [OnRecord(e)]
  {
  }

  lemma SubmitLine(c: Config, s: State, e: Entry, late: bool)
    requires !c.markers && s.health == Running && Tidy(s) && Transactional(e.msg)
    requires Submit(c, s, e, late).health == Running
    ensures Tidy(Submit(c, s, e, late))
    ensures Line(Submit(c, s, e, late)) == Line(s) + [OnRecord(e)]
    ensures Select(Submit(c, s, e, late).calls, OutOfLine) == Select(s.calls, OutOfLine)
  {
    hide Select;
    var s' := Submit(c, s, e, late);
    OneDelivery(s.queue, e);
    if !s.tx.active || Bypassed(s.tx) {
      ForwardLine(s, s', OnRecord(e));
    } else if Bypassed(s'.tx) {
      DrainLine(s, s', s.queue + [e]);
    }
  }

  // ---------------------------------------------------------------------------------------------
  // Conservation without decompression markers
  // ---------------------------------------------------------------------------------------------

  ghost predicate Steady(s: State, evs: seq<Event>) {
    && Tidy(s)
    && s.relations == Announced(evs)
    && s.tx.active == InTransaction(evs)
    && s.tx.compressionUpdate == None && s.tx.decompressionUpdate == None && !s.tx.ongoingDecompression
    && (!s.tx.active ==> s.queue == [])
  }

  predicate IsRecord(msg: Message) {
    Transactional(msg) && !msg.Relation? && !msg.Begin? && !msg.Commit?
  }

  /** Without a chunk status change a record is dropped or submitted, nothing else. */
  lemma QuietRecord(c: Config, s: State, pos: nat, ev: Event)
    requires !c.markers && s.health == Running && IsRecord(ev.msg) && KeepsStatus(s.relations, ev)
    requires s.tx.compressionUpdate == None && s.tx.decompressionUpdate == None && !s.tx.ongoingDecompression
    ensures Step(c, s, pos, ev) ==
            if Wanted(c, s.relations, ev.msg) then Submit(c, s, Entry(pos, ev.msg), ev.late) else s
  {
  }

  /** The part of the state a submission leaves alone. */
  lemma SubmitFrame(c: Config, s: State, e: Entry, late: bool)
    ensures var s' := Submit(c, s, e, late);
            && s'.relations == s.relations && s'.tx.active == s.tx.active && s'.tx.maxSize == s.tx.maxSize
            && s'.tx.compressionUpdate == s.tx.compressionUpdate
            && s'.tx.decompressionUpdate == s.tx.decompressionUpdate
            && s'.tx.ongoingDecompression == s.tx.ongoingDecompression
    ensures !s.tx.active && s.queue == [] ==> Submit(c, s, e, late).queue == []
  {
  }

  /** One message of a quiet stream: what it adds to both projections, and what it keeps. */
  ghost predicate Extends(c: Config, s: State, s': State, evs: seq<Event>)
    requires evs != []
  {
    var e := LatestEntry(evs);
    && Steady(s', evs)
    && Line(s') == Line(s) + Adds(c, s.relations, e)
    && Select(s'.calls, OutOfLine) == Select(s.calls, OutOfLine) + if Transactional(e.msg) then [] else [OnRecord(e)]
  }

  lemma QuietSubmit(c: Config, s: State, evs: seq<Event>)
    requires evs != [] && !c.markers && s.health == Running && Steady(s, Past(evs))
    requires IsRecord(Latest(evs).msg) && Wanted(c, s.relations, Latest(evs).msg)
    requires Submit(c, s, LatestEntry(evs), Latest(evs).late).health == Running
    ensures Extends(c, s, Submit(c, s, LatestEntry(evs), Latest(evs).late), evs)
  {
    var e := LatestEntry(evs);
    SubmitLine(c, s, e, Latest(evs).late);
    SubmitFrame(c, s, e, Latest(evs).late);
  }

  lemma QuietDropped(c: Config, s: State, evs: seq<Event>)
    requires evs != [] && Steady(s, Past(evs))
    requires IsRecord(Latest(evs).msg) && !Wanted(c, s.relations, Latest(evs).msg)
    ensures Extends(c, s, s, evs)
  {
  }

  lemma QuietCommit(c: Config, s: State, evs: seq<Event>)
    requires evs != [] && !c.markers
    requires Steady(s, Past(evs)) && Latest(evs).msg.Commit?
    ensures Extends(c, s, CommitEvent(c, s, LatestEntry(evs), Latest(evs).catalog), evs)
  {
    var e := LatestEntry(evs);
    var s' := CommitEvent(c, s, e, Latest(evs).catalog);
    assert s.calls + Deliveries([]) == s.calls;
    assert s' == Forward(Drain(s.(tx := s.tx.(active := false))), OnCommit(e));
    CommitLine(s, s', e);
  }

  lemma QuietBegin(c: Config, s: State, evs: seq<Event>)
    requires evs != [] && !c.markers && Steady(s, Past(evs))
    requires Latest(evs).msg.Begin? && !InTransaction(Past(evs))
    ensures Extends(c, s, BeginEvent(c, s, LatestEntry(evs)), evs)
  {
    assert Deliveries([]) == [];
  }

  lemma QuietRelation(c: Config, s: State, evs: seq<Event>)
    requires evs != [] && Steady(s, Past(evs))
    requires Latest(evs).msg.Relation?
    ensures Extends(c, s, RelationEvent(s, LatestEntry(evs)), evs)
  {
    AppendAside(s.calls, OnRelation(LatestEntry(evs)));
  }

  lemma QuietImmediate(c: Config, s: State, evs: seq<Event>)
    requires evs != [] && Steady(s, Past(evs))
    requires !Transactional(Latest(evs).msg)
    ensures Extends(c, s, Forward(s, OnRecord(LatestEntry(evs))), evs)
  {
    AppendAside(s.calls, OnRecord(LatestEntry(evs)));
  }

  lemma QuietStep(c: Config, s: State, evs: seq<Event>)
    requires evs != [] && !c.markers && KeepsStatus(Announced(Past(evs)), Latest(evs))
    requires Latest(evs).msg.Begin? ==> !InTransaction(Past(evs))
    requires s.health == Running && Steady(s, Past(evs))
    requires Step(c, s, |evs| - 1, Latest(evs)).health == Running
    ensures Extends(c, s, Step(c, s, |evs| - 1, Latest(evs)), evs)
  {
    if IsRecord(Latest(evs).msg) {
      QuietRecord(c, s, |evs| - 1, Latest(evs));
      if Wanted(c, s.relations, Latest(evs).msg) {
        QuietSubmit(c, s, evs);
      } else {
        QuietDropped(c, s, evs);
      }
    } else {
      match Latest(evs).msg {
        case Commit => QuietCommit(c, s, evs);
        case Begin => QuietBegin(c, s, evs);
        case Relation(_, _) => QuietRelation(c, s, evs);
        case Logical(_, _) => QuietImmediate(c, s, evs);
      }
    }
  }

  lemma CommitLine(s: State, s': State, e: Entry)
    requires Tidy(s) && (s.tx.active || s.queue == []) && e.msg.Commit?
    requires s' == Forward(Drain(s.(tx := s.tx.(active := false))), OnCommit(e))
    ensures Line(s') == Line(s) + [OnCommit(e)]
    ensures Select(s'.calls, OutOfLine) == Select(s.calls, OutOfLine)
  {
    AppendInLine(s.calls, Deliveries(s.queue));
    AppendInLine(s.calls + Deliveries(s.queue), [OnCommit(e)]);
  }

  lemma {:induction false} RunningConserves(c: Config, maxSize: nat, evs: seq<Event>)
    requires !c.markers && Quiet(evs) && Bracketed(evs)
    requires Run(c, maxSize, evs).health == Running
    ensures Steady(Run(c, maxSize, evs), evs)
    ensures Line(Run(c, maxSize, evs)) == Expected(c, evs)
    ensures Select(Run(c, maxSize, evs).calls, OutOfLine) == Immediate(evs)
  {
    if evs != [] {
      RunningConserves(c, maxSize, Past(evs));
      QuietStep(c, Run(c, maxSize, Past(evs)), evs);
    }
  }
}
