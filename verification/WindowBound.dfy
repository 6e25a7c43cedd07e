/** How many entries wait in the transaction window, and when a push blocks. */
module WindowBound {
  import opened Wal
  import opened TransactionTracker
  import opened TransactionWindow
  import opened TransactionOrder
  import opened TransactionNotes
  import opened TransactionSurvival
  import opened TransactionConservation
  import opened TransactionOutcome

  ghost predicate Bounded(s: State, m: nat) {
    && s.tx.maxSize == m
    && s.health != Blocked
    && |s.queue| <= m
    && (s.tx.active && !Bypassed(s.tx) ==> |s.queue| == s.tx.queueLength < m)
    && (s.tx.active && Bypassed(s.tx) ==> s.queue == [])
  }

  lemma BoundedStep(c: Config, s: State, m: nat, pos: nat, ev: Event)
    requires 1 <= m <= c.capacity && m < UINT_RANGE
    requires Bounded(s, m)
    ensures Bounded(Step(c, s, pos, ev), m)
  {
    if s.health == Running && IsRecord(ev.msg) {
      BoundedRecord(c, s, m, pos, ev);
    }
  }

  lemma BoundedRecord(c: Config, s: State, m: nat, pos: nat, ev: Event)
    requires 1 <= m <= c.capacity && m < UINT_RANGE && s.health == Running && IsRecord(ev.msg)
    requires Bounded(s, m)
    ensures Bounded(Step(c, s, pos, ev), m)
  {
    hide Step, Submit;
    var t := RecordShape(c, s, pos, ev);
    BoundedSubmit(c, t, m, Entry(pos, ev.msg), ev.late);
  }

  lemma BoundedSubmit(c: Config, s: State, m: nat, e: Entry, late: bool)
    requires 1 <= m <= c.capacity && m < UINT_RANGE && s.health == Running
    requires Bounded(s, m)
    ensures Bounded(Submit(c, s, e, late), m)
  {
  }

  /** With a maximum size m of at least one, over a queue that holds m + 1: fewer than m entries wait in an
      open window after every message, no push ever blocks, and an overflow leaves nothing behind. */
  lemma {:induction false} WindowStaysBounded(c: Config, m: nat, evs: seq<Event>)
    requires 1 <= m < UINT_RANGE && c.capacity == m + 1
    ensures Bounded(Run(c, m, evs), m)
  {
    if evs != [] {
      WindowStaysBounded(c, m, Past(evs));
      hide Step;
      BoundedStep(c, Run(c, m, Past(evs)), m, |evs| - 1, Latest(evs));
    }
  }

  ghost predicate NeverOverflowed(s: State, n: nat) {
    s.tx.maxSize == 0 && !s.tx.overflowed && s.tx.queueLength <= n
  }

  lemma NeverOverflowedStep(c: Config, s: State, pos: nat, ev: Event)
    requires NeverOverflowed(s, pos) && pos + 1 < UINT_RANGE
    ensures NeverOverflowed(Step(c, s, pos, ev), pos + 1)
  {
    if s.health == Running && IsRecord(ev.msg) {
      var t := RecordShape(c, s, pos, ev);
      hide Step;
    }
  }

  /** With the maximum size at zero, as the constructor leaves it, a window never overflows. */
  lemma {:induction false} ZeroNeverOverflows(c: Config, evs: seq<Event>)
    requires |evs| < UINT_RANGE
    ensures NeverOverflowed(Run(c, 0, evs), |evs|)
  {
    if evs != [] {
      ZeroNeverOverflows(c, Past(evs));
      hide Step;
      NeverOverflowedStep(c, Run(c, 0, Past(evs)), |evs| - 1, Latest(evs));
    }
  }

  // ---------------------------------------------------------------------------------------------
  // When a transaction blocks the dispatcher
  // ---------------------------------------------------------------------------------------------

  /** The messages between the Begin and the Commit of one transaction. */
  predicate Inside(body: seq<Event>) {
    forall i :: 0 <= i < |body| ==> !body[i].msg.Begin? && !body[i].msg.Commit?
  }

  /** A record is collected when as many as the queue has slots were collected, none of them late. */
  predicate Overfills(c: Config, past: seq<Event>, ev: Event) {
    Submits(c, past, ev) && !LateSince(c, past) && |SubmittedSince(c, past)| == c.capacity
  }

  predicate NoCrash(before: seq<Event>, body: seq<Event>) {
    forall i :: 0 <= i < |body| ==> !CrashesOn(before + body[..i], body[i])
  }

  lemma {:induction false} InsideTransaction(past: seq<Event>, begin: Event, body: seq<Event>)
    requires begin.msg.Begin? && Inside(body)
    ensures InTransaction(past + [begin] + body)
  {
    var evs := past + [begin] + body;
    if body == [] {
      assert Latest(evs) == begin;
    } else {
      assert Past(evs) == past + [begin] + Past(body) && Latest(evs) == Latest(body);
      InsideTransaction(past, begin, Past(body));
    }
  }

  /** With the maximum size at zero, a stream that is survived fits into the queue unless a record was late. */
  lemma {:induction false} SurvivorsFit(c: Config, evs: seq<Event>)
    requires c.capacity < UINT_RANGE && Survives(c, 0, evs) && InTransaction(evs) && !LateSince(c, evs)
    ensures |SubmittedSince(c, evs)| <= c.capacity
  {
    hide Submits, CrashesOn;
    if !Latest(evs).msg.Begin? {
      var n := |evs| - 1;
      assert forall k :: 0 <= k < n ==> Past(evs)[..k] == evs[..k] && Past(evs)[k] == evs[k];
      SurvivorsFit(c, Past(evs));
      assert !EndsOn(c, 0, evs[..n], evs[n]) && evs[..n] == Past(evs);
    }
  }

  lemma {:induction false} SubmittedGrows(c: Config, before: seq<Event>, body: seq<Event>, k: nat)
    requires Inside(body) && k <= |body|
    ensures |SubmittedSince(c, before + body[..k])| <= |SubmittedSince(c, before + body)|
  {
    hide Submits;
    if k == |body| {
      assert body[..k] == body;
    } else {
      SubmittedGrows(c, before, Past(body), k);
      assert Past(body)[..k] == body[..k];
      assert Past(before + body) == before + Past(body) && Latest(before + body) == Latest(body);
    }
  }

  /** The message that ends the tracker inside the transaction. */
  lemma EndInside(c: Config, past: seq<Event>, begin: Event, body: seq<Event>) returns (k: nat)
    requires !c.markers && begin.msg.Begin? && Survives(c, 0, past)
    requires Run(c, 0, past + [begin] + body).health != Running
    ensures k < |body| && Survives(c, 0, past + [begin] + body[..k])
    ensures var s := Run(c, 0, past + [begin] + body);
            && (s.health == Crashed <==> CrashesOn(past + [begin] + body[..k], body[k]))
            && (s.health == Blocked <==> BlocksOn(c, 0, past + [begin] + body[..k], body[k]))
  {
    hide Run, Handled, Survives, CrashesOn, BlocksOn;
    var before := past + [begin];
    var evs := before + body;
    var h := Handled(c, 0, evs);
    HandledBegin(c, 0, past, begin, body);
    RunHandled(c, 0, evs);
    HandledExactly(c, 0, evs);
    k := |h| - |before|;
    assert h == before + body[..k] && evs[|h|] == body[k];
    BlocksWithoutCrash(c, 0, h, body[k]);
  }

  lemma BlocksBecauseOverfilled(c: Config, past: seq<Event>, ev: Event)
    requires Survives(c, 0, past) && BlocksOn(c, 0, past, ev)
    ensures c.capacity < UINT_RANGE && Overfills(c, past, ev)
  {
    hide Submits, Survives, CrashesOn, LateSince, InTransaction;
    SurvivorsFit(c, past);
  }

  lemma OverfilledBlocks(c: Config, past: seq<Event>, ev: Event)
    requires c.capacity < UINT_RANGE && InTransaction(past) && Overfills(c, past, ev) && !CrashesOn(past, ev)
    ensures BlocksOn(c, 0, past, ev)
  {
    hide Submits, CrashesOn, LateSince, InTransaction;
  }

  lemma SurvivesNoCrash(c: Config, before: seq<Event>, body: seq<Event>)
    requires Survives(c, 0, before + body)
    ensures NoCrash(before, body)
  {
    hide CrashesOn, BlocksOn;
    var evs := before + body;
    forall i | 0 <= i < |body| ensures !CrashesOn(before + body[..i], body[i]) {
      var k := |before| + i;
      assert evs[..k] == before + body[..i] && evs[k] == body[i];
      assert !EndsOn(c, 0, evs[..k], evs[k]);
    }
  }

  lemma {:induction false} StaysEnded(c: Config, evs: seq<Event>, more: seq<Event>)
    requires Run(c, 0, evs).health != Running
    ensures Run(c, 0, evs + more) == Run(c, 0, evs)
  {
    if more == [] {
      assert evs + more == evs;
    } else {
      StaysEnded(c, evs, Past(more));
      assert Past(evs + more) == evs + Past(more);
    }
  }

  lemma NotSurvived(c: Config, past: seq<Event>, ev: Event)
    requires EndsOn(c, 0, past, ev)
    ensures !Survives(c, 0, past + [ev])
  {
    var evs := past + [ev];
    assert evs[..|past|] == past && evs[|past|] == ev;
  }

  lemma OverfilledRun(c: Config, past: seq<Event>, begin: Event, body: seq<Event>, k: nat)
    requires !c.markers && begin.msg.Begin? && Survives(c, 0, past) && Inside(body) && c.capacity < UINT_RANGE
    requires k < |body| && Overfills(c, past + [begin] + body[..k], body[k]) && NoCrash(past + [begin], body[..k + 1])
    ensures Run(c, 0, past + [begin] + body).health == Blocked
  {
    hide Run, Survives, CrashesOn, BlocksOn, Overfills, InTransaction;
    var before := past + [begin];
    var front := body[..k + 1];
    assert front[..k] == body[..k] && front[k] == body[k];
    InsideTransaction(past, begin, body[..k]);
    OverfilledBlocks(c, before + body[..k], body[k]);
    NotSurvived(c, before + body[..k], body[k]);
    assert before + body[..k] + [body[k]] == before + front;
    HealthExactly(c, 0, before + front);
    var j := EndInside(c, past, begin, front);
    StaysEnded(c, before + front, body[k + 1..]);
    assert before + front + body[k + 1..] == before + body;
  }

  lemma BlockedRun(c: Config, past: seq<Event>, begin: Event, body: seq<Event>) returns (k: nat)
    requires !c.markers && begin.msg.Begin? && Survives(c, 0, past)
    requires Run(c, 0, past + [begin] + body).health == Blocked
    ensures c.capacity < UINT_RANGE && k < |body|
    ensures Overfills(c, past + [begin] + body[..k], body[k]) && NoCrash(past + [begin], body[..k + 1])
  {
    hide Run, Survives, CrashesOn, BlocksOn, Overfills;
    var before := past + [begin];
    k := EndInside(c, past, begin, body);
    BlocksBecauseOverfilled(c, before + body[..k], body[k]);
    SurvivesNoCrash(c, before, body[..k]);
    BlocksWithoutCrash(c, 0, before + body[..k], body[k]);
    assert forall i :: 0 <= i <= k ==> body[..k + 1][..i] == body[..i];
    assert forall i :: 0 <= i < k ==> body[..k][..i] == body[..i] && body[..k][i] == body[i];
  }

  /** As constructed, a transaction blocks the dispatcher for good exactly when, without a crash before, one more record
      is collected than the queue has slots, and none before it was late. */
  lemma ZeroBlocksExactly(c: Config, past: seq<Event>, begin: Event, body: seq<Event>)
    requires !c.markers && begin.msg.Begin? && Survives(c, 0, past) && Inside(body)
    ensures var before := past + [begin];
            Run(c, 0, before + body).health == Blocked <==>
              && c.capacity < UINT_RANGE
              && exists k ::
                   0 <= k < |body| && Overfills(c, before + body[..k], body[k]) && NoCrash(before, body[..k + 1])
  {
    hide Run, Survives, NoCrash, Overfills, Inside;
    var before := past + [begin];
    if Run(c, 0, before + body).health == Blocked {
      var k := BlockedRun(c, past, begin, body);
    }
    if c.capacity < UINT_RANGE {
      if k :| 0 <= k < |body| && Overfills(c, before + body[..k], body[k]) && NoCrash(before, body[..k + 1]) {
        OverfilledRun(c, past, begin, body, k);
      }
    }
  }

  /** If nothing crashes it and no record is late, that is when more records are collected than the queue has slots. */
  lemma TimelyBlocksExactly(c: Config, past: seq<Event>, begin: Event, body: seq<Event>)
    requires !c.markers && begin.msg.Begin? && Survives(c, 0, past) && Inside(body)
    requires NoCrash(past + [begin], body) && !LateSince(c, past + [begin] + body)
    ensures Run(c, 0, past + [begin] + body).health == Blocked <==>
              c.capacity < UINT_RANGE && |SubmittedSince(c, past + [begin] + body)| > c.capacity
  {
    hide Run, Survives, CrashesOn, BlocksOn, InTransaction, LateSince, Submits;
    var before := past + [begin];
    HealthExactly(c, 0, before + body);
    if Run(c, 0, before + body).health == Blocked {
      var k := BlockedRun(c, past, begin, body);
      SubmittedGrows(c, before, body, k + 1);
      var next := before + body[..k + 1];
      assert Past(next) == before + body[..k] && Latest(next) == body[k];
    } else if Run(c, 0, before + body).health == Crashed {
      var k := EndInside(c, past, begin, body);
    } else if c.capacity < UINT_RANGE {
      InsideTransaction(past, begin, body);
      SurvivorsFit(c, before + body);
    }
  }

  // ---------------------------------------------------------------------------------------------
  // A transaction of inserts
  // ---------------------------------------------------------------------------------------------

  function Inserts(n: nat): seq<Event> {
    seq(n, i => Timely(Insert(2)))
  }

  lemma {:induction false} InsertsRead(c: Config, n: nat)
    requires c.genInsert
    ensures var evs := Opening() + Inserts(n);
            && |SubmittedSince(c, evs)| == n && !LateSince(c, evs) && LastDecompression(evs) == -1
            && Announced(evs) == map[1 := ChunkCatalog, 2 := UserTable]
  {
    hide Announced, LastCompression, LastDecompression, InTransaction, SubmittedSince, LateSince;
    OpeningRead(c);
    if n == 0 {
      assert Opening() + Inserts(0) == Opening();
    } else {
      InsertsRead(c, n - 1);
      OneMore(c, Opening() + Inserts(n - 1), Timely(Insert(2)));
      assert Opening() + Inserts(n) == Opening() + Inserts(n - 1) + [Timely(Insert(2))];
    }
  }

  /** A transaction of timely, wanted inserts blocks exactly if there are more of them than slots. */
  lemma InsertsBlockExactly(c: Config, n: nat)
    requires !c.markers && c.genInsert && c.capacity < UINT_RANGE
    ensures Run(c, 0, Opening() + Inserts(n)).health == Blocked <==> n > c.capacity
  {
    hide Run, Announced, LastDecompression, InTransaction, SubmittedSince, LateSince, Submits, DrainedEarly;
    InsertsRead(c, n);
    forall i | 0 <= i < n ensures !CrashesOn(Opening() + Inserts(n)[..i], Inserts(n)[i]) {
      InsertsRead(c, i);
      assert Inserts(n)[..i] == Inserts(i);
    }
    AnnouncementsSurvive(c);
    TimelyBlocksExactly(c, Announcements(), Timely(Begin), Inserts(n));
  }

  lemma AnnouncementsSurvive(c: Config)
    ensures Survives(c, 0, Announcements())
  {
  }
}
