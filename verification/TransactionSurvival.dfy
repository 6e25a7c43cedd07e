/** Without markers: which message ends the tracker, read off the stream alone. */
module TransactionSurvival {
  import opened Wal
  import opened TransactionTracker
  import opened TransactionWindow
  import opened TransactionIsolation
  import opened TransactionNotes

  /** An insert of a relation that was never announced, after a decompression in the same transaction. */
  predicate CrashesOn(past: seq<Event>, ev: Event) {
    InTransaction(past) && ev.msg.Insert? && LastDecompression(past) >= 0 && ev.msg.rel !in Announced(past)
  }

  /** A record is collected by a window that still holds all its records and has no room for one more. */
  predicate BlocksOn(c: Config, maxSize: nat, past: seq<Event>, ev: Event) {
    && InTransaction(past) && Submits(c, past, ev) && !CrashesOn(past, ev)
    && !DrainedEarly(c, maxSize, past) && |SubmittedSince(c, past)| >= c.capacity
  }

  predicate EndsOn(c: Config, maxSize: nat, past: seq<Event>, ev: Event) {
    CrashesOn(past, ev) || BlocksOn(c, maxSize, past, ev)
  }

  predicate Survives(c: Config, maxSize: nat, evs: seq<Event>) {
    forall k :: 0 <= k < |evs| ==> !EndsOn(c, maxSize, evs[..k], evs[k])
  }

  /** The part of the stream in front of the message that ends the tracker. */
  function Handled(c: Config, maxSize: nat, evs: seq<Event>): (h: seq<Event>)
    ensures h <= evs
  {
    if evs == [] then []
    else
      var h := Handled(c, maxSize, Past(evs));
      if |h| < |evs| - 1 || EndsOn(c, maxSize, Past(evs), Latest(evs)) then h else evs
  }

  // ---------------------------------------------------------------------------------------------
  // One message
  // ---------------------------------------------------------------------------------------------

  /** A tracker that ends leaves its window and everything delivered as they were. */
  ghost predicate Ends(c: Config, maxSize: nat, s: State, s': State, evs: seq<Event>)
    requires evs != []
  {
    && (s'.health == Crashed <==> CrashesOn(Past(evs), Latest(evs)))
    && (s'.health == Blocked <==> BlocksOn(c, maxSize, Past(evs), Latest(evs)))
    && (s'.health != Running ==> s'.calls == s.calls && s'.queue == s.queue && s'.tx.active == s.tx.active)
  }

  lemma SubmitHealth(c: Config, t: State, e: Entry, late: bool)
    requires !c.markers && t.health == Running
    ensures var s' := Submit(c, t, e, late);
            && s'.health != Crashed
            && (s'.health == Blocked <==> t.tx.active && !Bypassed(t.tx) && |t.queue| >= c.capacity)
            && (s'.health == Blocked ==> s' == t.(health := Blocked))
  {
  }

  lemma CrashExactly(c: Config, s: State, evs: seq<Event>)
    requires evs != [] && !c.markers && s.health == Running && Notes(Past(evs), s) && IsRecord(Latest(evs).msg)
    ensures var s' := Step(c, s, |evs| - 1, Latest(evs));
            && (s'.health == Crashed <==> CrashesOn(Past(evs), Latest(evs)))
            && (s'.health == Crashed ==> s' == s.(health := Crashed))
  {
    hide Announced, LastCompression, LastDecompression, InTransaction, NoteStatus, Submit;
    SubmitHealth(c, s, LatestEntry(evs), Latest(evs).late);
    if Latest(evs).msg.Update? {
      var noted := s.(tx := NoteStatus(s.tx, LatestEntry(evs), Latest(evs).catalog));
      SubmitHealth(c, noted, LatestEntry(evs), Latest(evs).late);
    }
  }

  lemma RecordEnds(c: Config, maxSize: nat, s: State, evs: seq<Event>)
    requires evs != [] && !c.markers && s.health == Running && IsRecord(Latest(evs).msg)
    requires Notes(Past(evs), s) && Collects(c, maxSize, Past(evs), s)
    ensures Ends(c, maxSize, s, Step(c, s, |evs| - 1, Latest(evs)), evs)
  {
    hide Step, Submit, Submits, DrainedEarly, CrashesOn, LastCompression, LastDecompression, EntryAt, AllDelivered,
      SubmittedSince;
    CrashExactly(c, s, evs);
    if Step(c, s, |evs| - 1, Latest(evs)).health != Crashed {
      RecordExactly(c, s, evs);
      SubmitHealth(c, Noted(s, evs), LatestEntry(evs), Latest(evs).late);
    }
  }

  lemma OtherRuns(c: Config, maxSize: nat, s: State, evs: seq<Event>)
    requires evs != [] && s.health == Running && !IsRecord(Latest(evs).msg)
    ensures Step(c, s, |evs| - 1, Latest(evs)).health == Running
    ensures !EndsOn(c, maxSize, Past(evs), Latest(evs))
  {
    hide LastDecompression, Announced, InTransaction, DrainedEarly, SubmittedSince;
  }

  lemma StepEnds(c: Config, maxSize: nat, s: State, evs: seq<Event>)
    requires evs != [] && !c.markers && s.health == Running
    requires Notes(Past(evs), s) && Collects(c, maxSize, Past(evs), s)
    ensures Ends(c, maxSize, s, Step(c, s, |evs| - 1, Latest(evs)), evs)
  {
    hide Step, Notes, Collects, CrashesOn, BlocksOn;
    if IsRecord(Latest(evs).msg) {
      RecordEnds(c, maxSize, s, evs);
    } else {
      OtherRuns(c, maxSize, s, evs);
    }
  }

  // ---------------------------------------------------------------------------------------------
  // Whole streams
  // ---------------------------------------------------------------------------------------------

  /** The tracker runs exactly as long as no message ends it, and then stays as it was in front of that message. */
  lemma {:induction false} RunHandled(c: Config, maxSize: nat, evs: seq<Event>)
    requires !c.markers
    ensures var h, s := Handled(c, maxSize, evs), Run(c, maxSize, evs);
            && Run(c, maxSize, h).health == Running
            && s.calls == Run(c, maxSize, h).calls && s.queue == Run(c, maxSize, h).queue
            && s.tx.active == Run(c, maxSize, h).tx.active
            && (h == evs ==> s.health == Running)
            && (|h| < |evs| ==> s.health == if CrashesOn(h, evs[|h|]) then Crashed else Blocked)
            && (|h| < |evs| ==> EndsOn(c, maxSize, h, evs[|h|]))
  {
    hide Step, CrashesOn, BlocksOn, Notes, Collects;
    if evs != [] {
      RunHandled(c, maxSize, Past(evs));
      var s := Run(c, maxSize, Past(evs));
      if |Handled(c, maxSize, Past(evs))| < |evs| - 1 {
        StepWhenDead(c, s, |evs| - 1, Latest(evs));
      } else {
        assert Handled(c, maxSize, Past(evs)) == Past(evs);
        StreamNotes(c, maxSize, Past(evs));
        StreamCollects(c, maxSize, Past(evs));
        StepEnds(c, maxSize, s, evs);
        BlocksWithoutCrash(c, maxSize, Past(evs), Latest(evs));
      }
    }
  }

  lemma BlocksWithoutCrash(c: Config, maxSize: nat, past: seq<Event>, ev: Event)
    ensures BlocksOn(c, maxSize, past, ev) ==> !CrashesOn(past, ev)
  {
  }

  lemma {:induction false} HandledExactly(c: Config, maxSize: nat, evs: seq<Event>)
    ensures Handled(c, maxSize, evs) == evs <==> Survives(c, maxSize, evs)
    ensures Survives(c, maxSize, Handled(c, maxSize, evs))
  {
    hide EndsOn;
    if evs != [] {
      var n := |evs| - 1;
      HandledExactly(c, maxSize, Past(evs));
      assert forall k :: 0 <= k < n ==> Past(evs)[..k] == evs[..k] && Past(evs)[k] == evs[k];
      assert Past(evs) == evs[..n];
    }
  }

  /** Without markers, the tracker survives a stream exactly if no message finds the stream before it in one of the two
      ways that end it; the first such message tells which. */
  lemma HealthExactly(c: Config, maxSize: nat, evs: seq<Event>)
    requires !c.markers
    ensures Run(c, maxSize, evs).health == Running <==> Survives(c, maxSize, evs)
    ensures Run(c, maxSize, evs).health == Crashed <==>
              exists k :: 0 <= k < |evs| && Survives(c, maxSize, evs[..k]) && CrashesOn(evs[..k], evs[k])
    ensures Run(c, maxSize, evs).health == Blocked <==>
              exists k :: 0 <= k < |evs| && Survives(c, maxSize, evs[..k]) && BlocksOn(c, maxSize, evs[..k], evs[k])
  {
    hide Run, Handled, CrashesOn, BlocksOn, Survives;
    RunHandled(c, maxSize, evs);
    HandledExactly(c, maxSize, evs);
    var h := Handled(c, maxSize, evs);
    if |h| < |evs| {
      assert h == evs[..|h|];
      BlocksWithoutCrash(c, maxSize, h, evs[|h|]);
    }
    forall k | 0 <= k < |evs| && Survives(c, maxSize, evs[..k]) && EndsOn(c, maxSize, evs[..k], evs[k])
      ensures k == |h| && evs[..k] == h && !(CrashesOn(h, evs[k]) && BlocksOn(c, maxSize, h, evs[k]))
    {
      FirstEnd(c, maxSize, evs, k);
      BlocksWithoutCrash(c, maxSize, h, evs[k]);
    }
  }

  /** The message that ends the tracker comes right after what it has handled. */
  lemma FirstEnd(c: Config, maxSize: nat, evs: seq<Event>, k: nat)
    requires k < |evs| && Survives(c, maxSize, evs[..k]) && EndsOn(c, maxSize, evs[..k], evs[k])
    ensures Handled(c, maxSize, evs) == evs[..k]
  {
    hide EndsOn;
    var next := evs[..k + 1];
    assert Past(next) == evs[..k];
    HandledExactly(c, maxSize, evs[..k]);
    assert Handled(c, maxSize, next) == evs[..k];
    HandledStays(c, maxSize, next, evs[k + 1..]);
    assert next + evs[k + 1..] == evs;
  }

  lemma {:induction false} HandledStays(c: Config, maxSize: nat, evs: seq<Event>, more: seq<Event>)
    requires Handled(c, maxSize, evs) != evs
    ensures Handled(c, maxSize, evs + more) == Handled(c, maxSize, evs)
  {
    if more == [] {
      assert evs + more == evs;
    } else {
      HandledStays(c, maxSize, evs, Past(more));
      assert Past(evs + more) == evs + Past(more);
    }
  }
}
