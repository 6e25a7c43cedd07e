/** Which transaction a delivered entry belongs to. */
module TransactionIsolation {
  import opened Wal
  import opened TransactionTracker
  import opened TransactionWindow
  import opened TransactionOrder

  /** The entry is a record or commit handed on by the call. */
  predicate HandsOn(call: Call) {
    call.OnRecord? || call.OnCommit?
  }

  /** What a message makes the tracker hand on: itself, or entries its own transaction has queued. */
  ghost predicate Hands(s: State, s': State, pos: nat) {
    && s.calls <= s'.calls
    && forall i :: |s.calls| <= i < |s'.calls| && HandsOn(s'.calls[i]) ==>
         || s'.calls[i].entry.pos == pos
         || (s.tx.active && s'.calls[i].OnRecord? && s'.calls[i].entry in s.queue)
  }

  lemma SubmitHands(c: Config, s: State, e: Entry, late: bool)
    ensures Hands(s, Submit(c, s, e, late), e.pos)
  {
    var s' := Submit(c, s, e, late);
    if s'.queue == [] && s'.calls == s.calls + Deliveries(s.queue + [e]) {
      forall i | |s.calls| <= i < |s'.calls|
        ensures s'.calls[i].entry == (s.queue + [e])[i - |s.calls|]
      {
      }
    }
  }

  lemma CommitHands(c: Config, s: State, e: Entry, catalog: map<int, int>)
    ensures Hands(s, CommitEvent(c, s, e, catalog), e.pos)
  {
    var s' := CommitEvent(c, s, e, catalog);
    if s.tx.active && !c.markers {
      WindowEnd(c, s, e, catalog);
    }
  }

  lemma StepHands(c: Config, s: State, pos: nat, ev: Event)
    ensures Hands(s, Step(c, s, pos, ev), pos)
  {
    if s.health == Running && IsRecord(ev.msg) {
      var t := RecordShape(c, s, pos, ev);
      hide Step, Submit;
      SubmitHands(c, t, Entry(pos, ev.msg), ev.late);
    } else if s.health == Running && ev.msg.Commit? {
      hide CommitEvent, Hands;
      CommitHands(c, s, Entry(pos, ev.msg), ev.catalog);
    }
  }

  /** What an open window holds was sent after the Begin of the current transaction; while it has not
      been drained early, no record of that transaction has been handed on. */
  ghost predicate Owned(c: Config, evs: seq<Event>, s: State) {
    s.health == Running && s.tx.active ==>
      && InTransaction(evs)
      && (forall i :: 0 <= i < |s.queue| ==> LastBegin(evs) < s.queue[i].pos < |evs|)
      && (!c.markers && !Bypassed(s.tx) ==>
            forall i :: 0 <= i < |s.calls| && s.calls[i].OnRecord? && InLine(s.calls[i]) ==>
              s.calls[i].entry.pos < LastBegin(evs))
  }

  lemma InLineBelow(c: Config, s: State, n: nat, i: nat)
    requires Orderly(c, s, n) && i < |s.calls| && InLine(s.calls[i])
    ensures s.calls[i].entry.pos < n
  {
    SelectMember(s.calls, InLine, s.calls[i]);
    assert s.calls[i] in Line(s);
  }

  lemma OwnedSubmit(c: Config, s: State, evs: seq<Event>)
    requires evs != [] && Owned(c, Past(evs), s) && s.health == Running && IsRecord(Latest(evs).msg)
    ensures Owned(c, evs, Submit(c, s, LatestEntry(evs), Latest(evs).late))
  {
  }

  lemma OwnedStep(c: Config, s: State, evs: seq<Event>)
    requires evs != [] && Owned(c, Past(evs), s) && Orderly(c, s, |evs| - 1)
    ensures Owned(c, evs, Step(c, s, |evs| - 1, Latest(evs)))
  {
    hide Ascending, Line;
    if s.health == Running && IsRecord(Latest(evs).msg) {
      var t := RecordShape(c, s, |evs| - 1, Latest(evs));
      hide Step, Submit, Orderly;
      OwnedSubmit(c, t, evs);
    } else if s.health == Running && Latest(evs).msg.Begin? {
      forall i | 0 <= i < |s.calls| && s.calls[i].OnRecord? && InLine(s.calls[i])
        ensures s.calls[i].entry.pos < LastBegin(evs)
      {
        InLineBelow(c, s, |evs| - 1, i);
      }
    }
  }

  lemma {:induction false} StreamOwned(c: Config, maxSize: nat, evs: seq<Event>)
    ensures Owned(c, evs, Run(c, maxSize, evs))
  {
    if evs != [] {
      StreamOwned(c, maxSize, Past(evs));
      StreamOrder(c, maxSize, Past(evs));
      hide Owned, Orderly, Step;
      OwnedStep(c, Run(c, maxSize, Past(evs)), evs);
    }
  }

  /** Every record handed on while a message is processed is that message, or an entry queued since the
      Begin of the transaction that is still open: entries never leak into another transaction. */
  lemma Isolation(c: Config, maxSize: nat, evs: seq<Event>, i: nat)
    requires evs != []
    requires |Run(c, maxSize, Past(evs)).calls| <= i < |Run(c, maxSize, evs).calls|
    requires HandsOn(Run(c, maxSize, evs).calls[i])
    ensures var e := Run(c, maxSize, evs).calls[i].entry;
            e.pos == |evs| - 1 || (InTransaction(Past(evs)) && LastBegin(Past(evs)) < e.pos < |evs| - 1)
  {
    var s := Run(c, maxSize, Past(evs));
    StreamOwned(c, maxSize, Past(evs));
    StepHands(c, s, |evs| - 1, Latest(evs));
    var e := Run(c, maxSize, evs).calls[i].entry;
    if e.pos != |evs| - 1 {
      var j :| 0 <= j < |s.queue| && s.queue[j] == e;
    }
  }

  /** A queued entry was queued before or is the message itself, and a Begin starts with an empty queue. */
  lemma StepQueues(c: Config, s: State, pos: nat, ev: Event)
    ensures var s' := Step(c, s, pos, ev);
            s'.tx.active ==> forall i :: 0 <= i < |s'.queue| ==>
              s'.queue[i].pos == pos || (s.tx.active && s'.queue[i] in s.queue)
  {
    if s.health == Running && IsRecord(ev.msg) {
      var t := RecordShape(c, s, pos, ev);
      hide Step;
      assert forall i :: 0 <= i < |s.queue| ==> s.queue[i] in s.queue;
    }
  }

  /** Since `s0`, when `n` messages had arrived, only later messages were handed on or queued. */
  ghost predicate OnlyNewer(s0: State, s: State, n: nat) {
    && s0.calls <= s.calls
    && (forall i :: |s0.calls| <= i < |s.calls| && HandsOn(s.calls[i]) ==> n <= s.calls[i].entry.pos)
    && (s.tx.active ==> forall i :: 0 <= i < |s.queue| ==> n <= s.queue[i].pos)
  }

  lemma OnlyNewerStep(c: Config, s0: State, s: State, n: nat, pos: nat, ev: Event)
    requires OnlyNewer(s0, s, n) && n <= pos
    ensures OnlyNewer(s0, Step(c, s, pos, ev), n)
  {
    StepHands(c, s, pos, ev);
    StepQueues(c, s, pos, ev);
    hide Step;
  }

  /** Once a transaction is over, whatever it left in the queue stays there for good. */
  lemma {:induction false} NothingFromBefore(c: Config, maxSize: nat, evs: seq<Event>, more: seq<Event>)
    requires !Run(c, maxSize, evs).tx.active
    ensures OnlyNewer(Run(c, maxSize, evs), Run(c, maxSize, evs + more), |evs|)
  {
    hide Step;
    if more == [] {
      assert evs + more == evs;
    } else {
      NothingFromBefore(c, maxSize, evs, Past(more));
      assert Past(evs + more) == evs + Past(more);
      OnlyNewerStep(c, Run(c, maxSize, evs), Run(c, maxSize, evs + Past(more)), |evs|, |evs + more| - 1, Latest(more));
    }
  }

  /** A window that is given up at its commit, and was not drained early, is never delivered. */
  lemma GivenUpForGood(c: Config, maxSize: nat, evs: seq<Event>, commit: Event, more: seq<Event>, call: Call)
    requires !c.markers && commit.msg.Commit?
    requires Run(c, maxSize, evs).health == Running && Run(c, maxSize, evs).tx.active
    requires !Bypassed(Run(c, maxSize, evs).tx) && Suppresses(Run(c, maxSize, evs).tx, commit.catalog)
    requires InLine(call) && LastBegin(evs) < call.entry.pos <= |evs|
    requires call.OnRecord? || call.entry.pos == |evs|
    ensures call !in Run(c, maxSize, evs + [commit] + more).calls
  {
    var s := Run(c, maxSize, evs);
    var ended := Run(c, maxSize, evs + [commit]);
    var end := Run(c, maxSize, evs + [commit] + more);
    StreamOwned(c, maxSize, evs);
    StreamOrder(c, maxSize, evs);
    assert Past(evs + [commit]) == evs;
    WindowEnd(c, s, Entry(|evs|, Commit), commit.catalog);
    NothingFromBefore(c, maxSize, evs + [commit], more);
    if call in end.calls {
      var i :| 0 <= i < |end.calls| && end.calls[i] == call;
      if i < |s.calls| {
        assert end.calls[i] == ended.calls[i] == s.calls[i];
        InLineBelow(c, s, |evs|, i);
      }
    }
  }

  lemma StepWhenDead(c: Config, s: State, pos: nat, ev: Event)
    requires s.health != Running
    ensures Step(c, s, pos, ev) == s
  {
  }
}
