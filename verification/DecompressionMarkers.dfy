/** With decompression markers the tracker is a filter of the stream. The filter is stated here by
    looking at the stream alone. */
module DecompressionMarkers {
  import opened Wal
  import opened Wrappers
  import opened TransactionTracker
  import opened TransactionWindow

  predicate IsStart(ev: Event) {
    ev.msg.Logical? && ev.msg.transactional && ev.msg.prefix == DECOMPRESSION_MARKER_START
  }

  predicate IsEnd(ev: Event) {
    ev.msg.Logical? && ev.msg.transactional && ev.msg.prefix == DECOMPRESSION_MARKER_END
  }

  /** The message at `k` ends a decompression: a new transaction, or an end marker inside one. */
  predicate Closes(evs: seq<Event>, k: nat)
    requires k < |evs|
  {
    evs[k].msg.Begin? || (IsEnd(evs[k]) && InTransaction(evs[..k]))
  }

  /** A start marker has been seen and nothing since has ended the decompression. */
  predicate Decompressing(evs: seq<Event>) {
    exists j :: 0 <= j < |evs| && IsStart(evs[j]) && forall k :: j < k < |evs| ==> !Closes(evs, k)
  }

  /** The inserts of a running decompression repeat rows that were replicated before. */
  predicate Repeats(past: seq<Event>) {
    InTransaction(past) && Decompressing(past)
  }

  predicate Removed(c: Config, past: seq<Event>, ev: Event) {
    match ev.msg
    case Insert(rel) =>
      rel in Announced(past) && Announced(past)[rel].UserTable? && (!c.genInsert || Repeats(past))
    case Truncate => !c.genTruncate
    case Logical(transactional, _) =>
      transactional && (!c.genMessage || IsStart(ev) || (IsEnd(ev) && Repeats(past)))
    case _ => false
  }

  /** An insert into a relation that was never announced cannot be classified while decompressing. */
  predicate Fatal(past: seq<Event>, ev: Event) {
    ev.msg.Insert? && ev.msg.rel !in Announced(past) && Repeats(past)
  }

  function CallFor(e: Entry): Call {
    match e.msg
    case Relation(_, _) => OnRelation(e)
    case Begin => OnBegin(e)
    case Commit => OnCommit(e)
    case _ => OnRecord(e)
  }

  /** The stream without the removed messages, in stream order. */
  function Filtered(c: Config, evs: seq<Event>): seq<Call> {
    if evs == [] then []
    else Filtered(c, Past(evs)) + if Removed(c, Past(evs), Latest(evs)) then [] else [CallFor(LatestEntry(evs))]
  }

  lemma ClosesPrefix(evs: seq<Event>, k: nat)
    requires evs != [] && k < |evs| - 1
    ensures Closes(Past(evs), k) == Closes(evs, k)
  {
    assert Past(evs)[..k] == evs[..k];
  }

  lemma DecompressingStep(evs: seq<Event>)
    requires evs != []
    ensures Decompressing(evs) <==> IsStart(Latest(evs)) || (Decompressing(Past(evs)) && !Closes(evs, |evs| - 1))
  {
    var n := |evs| - 1;
    if Decompressing(evs) && !IsStart(Latest(evs)) {
      var j :| 0 <= j < |evs| && IsStart(evs[j]) && forall k :: j < k < |evs| ==> !Closes(evs, k);
      forall k | j < k < n ensures !Closes(Past(evs), k) { ClosesPrefix(evs, k); }
      assert Past(evs)[j] == evs[j];
    }
    if Decompressing(Past(evs)) && !Closes(evs, n) {
      var j :| 0 <= j < n && IsStart(Past(evs)[j]) && forall k :: j < k < n ==> !Closes(Past(evs), k);
      forall k | j < k < |evs| ensures !Closes(evs, k) { if k < n { ClosesPrefix(evs, k); } }
      assert evs[j] == Past(evs)[j];
    }
    if IsStart(Latest(evs)) {
      assert evs[n] == Latest(evs);
    }
  }

  /** The tracker and the stream agree about transactions and decompressions. */
  ghost predicate Agrees(c: Config, evs: seq<Event>, s: State) {
    && s.health == Running
    && s.relations == Announced(evs)
    && s.tx.active == InTransaction(evs)
    && s.tx.ongoingDecompression == Decompressing(evs)
    && s.tx.decompressionUpdate == None
    && s.calls == Filtered(c, evs)
  }

  lemma AgreesInsert(c: Config, s: State, evs: seq<Event>)
    requires c.markers && evs != [] && Agrees(c, Past(evs), s) && Latest(evs).msg.Insert?
    ensures if Fatal(Past(evs), Latest(evs)) then
              InsertEvent(c, s, LatestEntry(evs), Latest(evs).late).health == Crashed
            else Agrees(c, evs, InsertEvent(c, s, LatestEntry(evs), Latest(evs).late))
  {
    DecompressingStep(evs);
    hide Decompressing;
  }

  lemma AgreesLogical(c: Config, s: State, evs: seq<Event>)
    requires c.markers && evs != [] && Agrees(c, Past(evs), s) && Latest(evs).msg.Logical?
    ensures Agrees(c, evs, LogicalEvent(c, s, LatestEntry(evs), Latest(evs).late))
  {
    assert Past(evs) == evs[..|evs| - 1];
    DecompressingStep(evs);
    hide Decompressing;
  }

  lemma AgreesOther(c: Config, s: State, evs: seq<Event>)
    requires c.markers && evs != [] && Agrees(c, Past(evs), s)
    requires !Latest(evs).msg.Logical? && !Latest(evs).msg.Insert?
    ensures Agrees(c, evs, Step(c, s, |evs| - 1, Latest(evs)))
  {
    DecompressingStep(evs);
    hide Decompressing;
  }

  /** With markers the calls on the resolver are the stream without the removed messages, in stream order,
      until an insert that cannot be classified ends the process. */
  lemma {:induction false} MarkersFilter(c: Config, maxSize: nat, evs: seq<Event>)
    requires c.markers
    ensures Run(c, maxSize, evs).health != Blocked
    ensures Run(c, maxSize, evs).health == Crashed <==> exists i :: 0 <= i < |evs| && Fatal(evs[..i], evs[i])
    ensures Run(c, maxSize, evs).health == Running ==> Agrees(c, evs, Run(c, maxSize, evs))
  {
    hide Agrees, Fatal;
    if evs == [] {
      AgreesInitial(c, maxSize);
    } else {
      var past := Past(evs);
      var s := Run(c, maxSize, past);
      MarkersFilter(c, maxSize, past);
      assert forall i :: 0 <= i < |past| ==> past[..i] == evs[..i];
      if s.health == Running {
        match Latest(evs).msg {
          case Insert(_) => AgreesInsert(c, s, evs); AgreesRunning(c, evs, Run(c, maxSize, evs));
          case Logical(_, _) => AgreesLogical(c, s, evs); AgreesRunning(c, evs, Run(c, maxSize, evs));
          case _ => AgreesOther(c, s, evs); AgreesRunning(c, evs, Run(c, maxSize, evs));
        }
        OnlyInsertsAreFatal(past, Latest(evs));
      }
    }
  }

  lemma AgreesInitial(c: Config, maxSize: nat)
    ensures Agrees(c, [], Run(c, maxSize, []))
  {
  }

  lemma AgreesRunning(c: Config, evs: seq<Event>, s: State)
    ensures Agrees(c, evs, s) ==> s.health == Running
  {
  }

  lemma OnlyInsertsAreFatal(past: seq<Event>, ev: Event)
    ensures Fatal(past, ev) ==> ev.msg.Insert?
  {
  }
}
