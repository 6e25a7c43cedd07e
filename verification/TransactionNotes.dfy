/** When a transaction counts as a compression or a decompression, read off the stream alone, and what becomes of its
    records and its commit then. */
module TransactionNotes {
  import opened Wal
  import opened Wrappers
  import opened TransactionTracker
  import opened TransactionWindow
  import opened TransactionOrder
  import opened TransactionIsolation

  // ---------------------------------------------------------------------------------------------
  // Reading the stream
  // ---------------------------------------------------------------------------------------------

  /** An update of the chunk catalog for a chunk that the system catalog knows. */
  predicate UpdatesKnownChunk(kinds: map<nat, RelationKind>, ev: Event) {
    && ev.msg.Update? && ev.msg.rel in kinds && kinds[ev.msg.rel].ChunkCatalog? && ev.msg.chunkId in ev.catalog
  }

  /** The status of a known chunk goes from zero to something else. */
  predicate Compresses(kinds: map<nat, RelationKind>, ev: Event) {
    UpdatesKnownChunk(kinds, ev) && ev.catalog[ev.msg.chunkId] == 0 && ev.msg.status != 0
  }

  /** The position of the last compression since the last Begin, -1 if there is none. */
  function LastCompression(evs: seq<Event>): (i: int)
    ensures -1 <= i < |evs|
    ensures i >= 0 ==> evs[i].msg.Update? && evs[i].msg.status != 0
  {
    if evs == [] || Latest(evs).msg.Begin? then -1
    else if Compresses(Announced(Past(evs)), Latest(evs)) then |evs| - 1
    else LastCompression(Past(evs))
  }

  /** The status of a known chunk goes to zero, and the catalog has another status for it, or the last compression of
      the transaction went through the same relation, whichever chunk it was about. */
  predicate Decompresses(past: seq<Event>, ev: Event) {
    && UpdatesKnownChunk(Announced(past), ev) && ev.msg.status == 0
    && (ev.catalog[ev.msg.chunkId] != 0
        || (LastCompression(past) >= 0 && past[LastCompression(past)].msg.rel == ev.msg.rel))
  }

  function LastDecompression(evs: seq<Event>): (i: int)
    ensures -1 <= i < |evs|
    ensures i >= 0 ==> evs[i].msg.Update?
  {
    if evs == [] || Latest(evs).msg.Begin? then -1
    else if Decompresses(Past(evs), Latest(evs)) then |evs| - 1
    else LastDecompression(Past(evs))
  }

  function EntryAt(evs: seq<Event>, i: int): Option<Entry>
    requires i < |evs|
  {
    if i < 0 then None else Some(Entry(i, evs[i].msg))
  }

  /** The message is collected in the window, not dropped in front of it. */
  predicate Submits(c: Config, past: seq<Event>, ev: Event) {
    && IsRecord(ev.msg) && Wanted(c, Announced(past), ev.msg)
    && !(ev.msg.Insert? && LastDecompression(past) >= 0
         && ev.msg.rel in Announced(past) && Announced(past)[ev.msg.rel].UserTable?)
  }

  /** The records collected since the last Begin. */
  function SubmittedSince(c: Config, evs: seq<Event>): seq<Entry> {
    if evs == [] || Latest(evs).msg.Begin? then []
    else SubmittedSince(c, Past(evs)) + if Submits(c, Past(evs), Latest(evs)) then [LatestEntry(evs)] else []
  }

  /** A record since the last Begin was collected after the deadline. */
  predicate LateSince(c: Config, evs: seq<Event>) {
    && evs != [] && !Latest(evs).msg.Begin?
    && (LateSince(c, Past(evs)) || (Submits(c, Past(evs), Latest(evs)) && Latest(evs).late))
  }

  /** The counter of the window has met the maximum size within `n` pushes; it wraps around to zero after 64 bits. */
  predicate Overflows(maxSize: nat, n: nat) {
    if maxSize == 0 then n >= UINT_RANGE else maxSize < UINT_RANGE && n >= maxSize
  }

  predicate DrainedEarly(c: Config, maxSize: nat, evs: seq<Event>) {
    LateSince(c, evs) || Overflows(maxSize, |SubmittedSince(c, evs)|)
  }

  lemma {:induction false} CompressionExactly(evs: seq<Event>)
    ensures LastCompression(evs) >= 0 <==>
              exists i :: LastBegin(evs) < i < |evs| && Compresses(Announced(evs[..i]), evs[i])
  {
    hide Announced, Compresses;
    if evs != [] && !Latest(evs).msg.Begin? {
      var n := |evs| - 1;
      CompressionExactly(Past(evs));
      assert forall i :: 0 <= i < n ==> Past(evs)[..i] == evs[..i] && Past(evs)[i] == evs[i];
      assert Past(evs) == evs[..n];
    }
  }

  lemma {:induction false} DecompressionExactly(evs: seq<Event>)
    ensures LastDecompression(evs) >= 0 <==> exists i :: LastBegin(evs) < i < |evs| && Decompresses(evs[..i], evs[i])
  {
    hide Decompresses;
    if evs != [] && !Latest(evs).msg.Begin? {
      var n := |evs| - 1;
      DecompressionExactly(Past(evs));
      assert forall i :: 0 <= i < n ==> Past(evs)[..i] == evs[..i] && Past(evs)[i] == evs[i];
      assert Past(evs) == evs[..n];
    }
  }

  // ---------------------------------------------------------------------------------------------
  // What the tracker knows
  // ---------------------------------------------------------------------------------------------

  lemma CommitFrame(c: Config, s: State, e: Entry, catalog: map<int, int>)
    ensures CommitEvent(c, s, e, catalog).tx == s.tx.(active := false)
    ensures CommitEvent(c, s, e, catalog).relations == s.relations
  {
  }

  /** The tracker knows exactly what the stream says. */
  ghost predicate Notes(evs: seq<Event>, s: State) {
    s.health == Running ==>
      && s.relations == Announced(evs)
      && s.tx.active == InTransaction(evs)
      && s.tx.compressionUpdate == EntryAt(evs, LastCompression(evs))
      && s.tx.decompressionUpdate == EntryAt(evs, LastDecompression(evs))
      && !s.tx.ongoingDecompression
  }

  /** The state with what the latest message adds to the notes. */
  function Noted(s: State, evs: seq<Event>): State {
    s.(tx := s.tx.(compressionUpdate := EntryAt(evs, LastCompression(evs)),
                   decompressionUpdate := EntryAt(evs, LastDecompression(evs))))
  }

  lemma NotedWithout(s: State, evs: seq<Event>)
    requires evs != [] && s.health == Running && Notes(Past(evs), s) && !Latest(evs).msg.Begin?
    requires !UpdatesKnownChunk(Announced(Past(evs)), Latest(evs))
    ensures Noted(s, evs) == s
  {
  }

  lemma NotedUpdate(s: State, evs: seq<Event>)
    requires evs != [] && s.health == Running && Notes(Past(evs), s)
    requires UpdatesKnownChunk(Announced(Past(evs)), Latest(evs))
    ensures Noted(s, evs) == s.(tx := NoteStatus(s.tx, LatestEntry(evs), Latest(evs).catalog))
  {
    hide Announced;
    var past := Past(evs);
    assert LastCompression(past) >= 0 ==> past[LastCompression(past)] == evs[LastCompression(past)];
    assert LastDecompression(past) >= 0 ==> past[LastDecompression(past)] == evs[LastDecompression(past)];
  }

  /** The record is noted, and dropped or submitted; inside a transaction it is collected exactly as the stream says. */
  ghost predicate IsCollected(c: Config, s: State, s': State, evs: seq<Event>)
    requires evs != []
  {
    var submitted := Submit(c, Noted(s, evs), LatestEntry(evs), Latest(evs).late);
    && (s' == Noted(s, evs) || s' == submitted)
    && (s.tx.active ==> s' == if Submits(c, Past(evs), Latest(evs)) then submitted else Noted(s, evs))
  }

  lemma UpdateExactly(c: Config, s: State, evs: seq<Event>)
    requires evs != [] && !c.markers && s.health == Running && Notes(Past(evs), s) && Latest(evs).msg.Update?
    ensures IsCollected(c, s, UpdateEvent(c, s, LatestEntry(evs), Latest(evs).late, Latest(evs).catalog), evs)
  {
    hide Submit, Announced, NoteStatus, Noted, LastCompression, LastDecompression, InTransaction;
    if UpdatesKnownChunk(Announced(Past(evs)), Latest(evs)) {
      NotedUpdate(s, evs);
    } else {
      NotedWithout(s, evs);
      NoteNothing(s, evs);
    }
  }

  lemma RecordExactly(c: Config, s: State, evs: seq<Event>)
    requires evs != [] && !c.markers && s.health == Running && Notes(Past(evs), s) && IsRecord(Latest(evs).msg)
    requires Step(c, s, |evs| - 1, Latest(evs)).health != Crashed
    ensures IsCollected(c, s, Step(c, s, |evs| - 1, Latest(evs)), evs)
  {
    if Latest(evs).msg.Update? {
      UpdateExactly(c, s, evs);
    } else {
      OtherExactly(c, s, evs);
    }
  }

  lemma OtherExactly(c: Config, s: State, evs: seq<Event>)
    requires evs != [] && !c.markers && s.health == Running && Notes(Past(evs), s) && IsRecord(Latest(evs).msg)
    requires !Latest(evs).msg.Update? && Step(c, s, |evs| - 1, Latest(evs)).health != Crashed
    ensures IsCollected(c, s, Step(c, s, |evs| - 1, Latest(evs)), evs)
  {
    hide Submit, Announced, Noted, LastCompression, LastDecompression, InTransaction, UpdateEvent, CommitEvent;
    NotedWithout(s, evs);
  }

  lemma NoteNothing(s: State, evs: seq<Event>)
    requires evs != [] && s.relations == Announced(Past(evs))
    requires !UpdatesKnownChunk(Announced(Past(evs)), Latest(evs))
    ensures Latest(evs).msg.Update? && KindOf(s, Latest(evs).msg.rel) == Some(ChunkCatalog) ==>
              NoteStatus(s.tx, LatestEntry(evs), Latest(evs).catalog) == s.tx
  {
  }

  lemma NotesRecord(c: Config, s: State, evs: seq<Event>)
    requires evs != [] && !c.markers && s.health == Running && Notes(Past(evs), s) && IsRecord(Latest(evs).msg)
    ensures Notes(evs, Step(c, s, |evs| - 1, Latest(evs)))
  {
    hide Step, Submit, LastCompression, LastDecompression, EntryAt;
    if Step(c, s, |evs| - 1, Latest(evs)).health == Running {
      RecordExactly(c, s, evs);
      SubmitFrame(c, Noted(s, evs), LatestEntry(evs), Latest(evs).late);
    }
  }

  lemma NotesStep(c: Config, s: State, evs: seq<Event>)
    requires evs != [] && !c.markers && s.health == Running && Notes(Past(evs), s)
    ensures Notes(evs, Step(c, s, |evs| - 1, Latest(evs)))
  {
    if IsRecord(Latest(evs).msg) {
      NotesRecord(c, s, evs);
    } else if Latest(evs).msg.Begin? {
    } else {
      NotedWithout(s, evs);
      CommitFrame(c, s, LatestEntry(evs), Latest(evs).catalog);
    }
  }

  lemma {:induction false} StreamNotes(c: Config, maxSize: nat, evs: seq<Event>)
    requires !c.markers
    ensures Notes(evs, Run(c, maxSize, evs))
  {
    hide Step, Notes;
    if evs == [] {
      assert Notes([], Initial(maxSize)) by { NotesInitial(maxSize); }
    } else {
      StreamNotes(c, maxSize, Past(evs));
      if Run(c, maxSize, Past(evs)).health == Running {
        NotesStep(c, Run(c, maxSize, Past(evs)), evs);
      } else {
        StepWhenDead(c, Run(c, maxSize, Past(evs)), |evs| - 1, Latest(evs));
        NotesDead(evs, Run(c, maxSize, evs));
      }
    }
  }

  lemma NotesInitial(maxSize: nat)
    ensures Notes([], Initial(maxSize))
  {
  }

  lemma NotesDead(evs: seq<Event>, s: State)
    requires s.health != Running
    ensures Notes(evs, s)
  {
  }

  // ---------------------------------------------------------------------------------------------
  // The window
  // ---------------------------------------------------------------------------------------------

  ghost predicate AllDelivered(s: State, entries: seq<Entry>) {
    forall i :: 0 <= i < |entries| ==> OnRecord(entries[i]) in s.calls
  }

  /** An open window holds what was collected since the Begin; once it is drained early, all of that is delivered. */
  ghost predicate Collects(c: Config, maxSize: nat, evs: seq<Event>, s: State) {
    s.health == Running ==>
      && s.tx.maxSize == maxSize
      && (s.tx.active ==>
            && Bypassed(s.tx) == DrainedEarly(c, maxSize, evs)
            && if Bypassed(s.tx) then AllDelivered(s, SubmittedSince(c, evs))
               else s.queue == SubmittedSince(c, evs) && s.tx.queueLength == |s.queue| % UINT_RANGE)
  }

  /** A counter that wraps around meets the maximum size for the first time exactly if the count itself does. */
  lemma CountsOn(maxSize: nat, n: nat)
    requires !Overflows(maxSize, n)
    ensures (n % UINT_RANGE + 1) % UINT_RANGE == (n + 1) % UINT_RANGE
    ensures (n + 1) % UINT_RANGE == maxSize <==> Overflows(maxSize, n + 1)
  {
    var q := n / UINT_RANGE;
    assert n == q * UINT_RANGE + n % UINT_RANGE;
    if n % UINT_RANGE + 1 == UINT_RANGE {
      assert n + 1 == (q + 1) * UINT_RANGE;
    }
  }

  lemma DeliversAll(s: State, before: seq<Entry>, e: Entry)
    ensures AllDelivered(s.(calls := s.calls + Deliveries(before + [e])), before + [e])
    ensures AllDelivered(s, before) ==> AllDelivered(Forward(s, OnRecord(e)), before + [e])
  {
    var calls := s.calls + Deliveries(before + [e]);
    forall i | 0 <= i < |before + [e]| ensures OnRecord((before + [e])[i]) in calls {
      assert calls[|s.calls| + i] == OnRecord((before + [e])[i]);
    }
  }

  lemma SubmittedOne(c: Config, evs: seq<Event>)
    requires evs != [] && Submits(c, Past(evs), Latest(evs))
    ensures SubmittedSince(c, evs) == SubmittedSince(c, Past(evs)) + [LatestEntry(evs)]
    ensures LateSince(c, evs) == (LateSince(c, Past(evs)) || Latest(evs).late)
  {
    assert !Latest(evs).msg.Begin?;
  }

  /** What pushing or forwarding an entry does to a window that has collected `before`. */
  lemma CollectsPushed(c: Config, t: State, e: Entry, late: bool, before: seq<Entry>)
    requires !c.markers && t.health == Running && t.tx.active && !Bypassed(t.tx) && !Overflows(t.tx.maxSize, |before|)
    requires t.queue == before && t.tx.queueLength == |before| % UINT_RANGE
    ensures var s := Submit(c, t, e, late);
            s.health == Running ==>
              && Bypassed(s.tx) == (late || Overflows(t.tx.maxSize, |before| + 1))
              && if Bypassed(s.tx) then AllDelivered(s, before + [e])
                 else s.queue == before + [e] && s.tx.queueLength == (|before| + 1) % UINT_RANGE
  {
    hide AllDelivered, Deliveries, Overflows;
    CountsOn(t.tx.maxSize, |before|);
    var length := (t.tx.queueLength + 1) % UINT_RANGE;
    var tx := t.tx.(queueLength := length, timedOut := late, overflowed := length == t.tx.maxSize);
    DeliversAll(t.(tx := tx, queue := []), before, e);
  }

  lemma CollectsSubmit(c: Config, maxSize: nat, t: State, evs: seq<Event>)
    requires evs != [] && !c.markers && t.health == Running && t.tx.active
    requires Collects(c, maxSize, Past(evs), t) && Submits(c, Past(evs), Latest(evs))
    ensures Collects(c, maxSize, evs, Submit(c, t, LatestEntry(evs), Latest(evs).late))
  {
    hide Submits, SubmittedSince, LateSince, AllDelivered, Overflows;
    var before := SubmittedSince(c, Past(evs));
    SubmittedOne(c, evs);
    SubmitFrame(c, t, LatestEntry(evs), Latest(evs).late);
    if Bypassed(t.tx) {
      OverflowStays(maxSize, |before|);
      DeliversAll(t, before, LatestEntry(evs));
    } else {
      CollectsPushed(c, t, LatestEntry(evs), Latest(evs).late, before);
    }
  }

  lemma OverflowStays(maxSize: nat, n: nat)
    ensures Overflows(maxSize, n) ==> Overflows(maxSize, n + 1)
  {
  }

  lemma CollectsRecord(c: Config, maxSize: nat, s: State, evs: seq<Event>)
    requires evs != [] && !c.markers && s.health == Running && IsRecord(Latest(evs).msg)
    requires Notes(Past(evs), s) && Collects(c, maxSize, Past(evs), s)
    ensures Collects(c, maxSize, evs, Step(c, s, |evs| - 1, Latest(evs)))
  {
    hide Step, Submit, Submits, EntryAt, LastCompression, LastDecompression;
    if Step(c, s, |evs| - 1, Latest(evs)).health == Running {
      RecordExactly(c, s, evs);
      SubmitFrame(c, Noted(s, evs), LatestEntry(evs), Latest(evs).late);
      if s.tx.active && Submits(c, Past(evs), Latest(evs)) {
        CollectsSubmit(c, maxSize, Noted(s, evs), evs);
      }
    }
  }

  lemma CollectsStep(c: Config, maxSize: nat, s: State, evs: seq<Event>)
    requires evs != [] && !c.markers && s.health == Running
    requires Notes(Past(evs), s) && Collects(c, maxSize, Past(evs), s)
    ensures Collects(c, maxSize, evs, Step(c, s, |evs| - 1, Latest(evs)))
  {
    hide LastCompression, LastDecompression, Announced;
    if IsRecord(Latest(evs).msg) {
      CollectsRecord(c, maxSize, s, evs);
    } else {
      CommitFrame(c, s, LatestEntry(evs), Latest(evs).catalog);
    }
  }

  lemma {:induction false} StreamCollects(c: Config, maxSize: nat, evs: seq<Event>)
    requires !c.markers
    ensures Collects(c, maxSize, evs, Run(c, maxSize, evs))
  {
    hide Step, Notes, DrainedEarly, SubmittedSince;
    if evs != [] {
      StreamCollects(c, maxSize, Past(evs));
      StreamNotes(c, maxSize, Past(evs));
      if Run(c, maxSize, Past(evs)).health == Running {
        CollectsStep(c, maxSize, Run(c, maxSize, Past(evs)), evs);
      } else {
        StepWhenDead(c, Run(c, maxSize, Past(evs)), |evs| - 1, Latest(evs));
      }
    }
  }
}
