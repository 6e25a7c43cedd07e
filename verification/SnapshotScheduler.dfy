/** The scheduler of the initial snapshot: tables are snapshotted one after another, hypertables first, in whatever
    order the iteration over the catalog picks them. */
module SnapshotScheduler {
  import opened Wrappers

  /** The catalog by canonical name. */
  datatype Catalog = Catalog(hypertables: set<string>, vanillaTables: set<string>)

  function Tables(c: Catalog): set<string> {
    c.hypertables + c.vanillaTables
  }

  datatype Task =
    | StartTable(table: string)
    | FinishTable(table: string)
    | FinishAll

  /** `complete` are the tables whose watermark is complete in the snapshot context, `pending` is the one task under
      way, `snapshotted` the tables handed to the snapshotter, `raised` how often the finished event was raised. */
  datatype State = State(
    handled: set<string>,
    complete: set<string>,
    pending: Option<Task>,
    snapshotted: seq<string>,
    raised: nat)

  /** What may be scheduled when the tables `handled` have been handled. */
  predicate MayFollow(c: Catalog, handled: set<string>, task: Task) {
    match task
    case StartTable(t) => t !in handled && (t in c.hypertables || (t in c.vanillaTables && c.hypertables <= handled))
    case FinishTable(_) => false
    case FinishAll => Tables(c) <= handled
  }

  ghost predicate Init(c: Catalog, s: State) {
    && s.handled == {} && s.snapshotted == [] && s.raised == 0
    && s.pending.Some? && MayFollow(c, {}, s.pending.value)
  }

  ghost predicate Step(c: Catalog, s: State, s': State) {
    match s.pending
    case None => s' == s
    case Some(StartTable(t)) =>
      if t in s.complete then
        s'.pending.Some? && MayFollow(c, s.handled, s'.pending.value) && s' == s.(pending := s'.pending)
      else s' == s.(pending := Some(FinishTable(t)), snapshotted := s.snapshotted + [t])
    case Some(FinishTable(t)) =>
      && s'.pending.Some? && MayFollow(c, s.handled + {t}, s'.pending.value)
      && s' == s.(handled := s.handled + {t}, complete := s.complete + {t}, pending := s'.pending)
    case Some(FinishAll) => s' == s.(pending := None, raised := s.raised + 1)
  }

  ghost predicate Behaviour(c: Catalog, states: seq<State>) {
    && states != []
    && Init(c, states[0])
    && forall i :: 0 <= i < |states| - 1 ==> Step(c, states[i], states[i + 1])
  }

  // ---------------------------------------------------------------------------------------------
  // The scheduler as an object
  // ---------------------------------------------------------------------------------------------

  class SnapshottingEventHandler {
    const catalog: Catalog
    var handledTables: set<string>
    var complete: set<string>
    var pending: Option<Task>
    var snapshotted: seq<string>
    var raised: nat

    function View(): State
      reads this
    {
      State(handledTables, complete, pending, snapshotted, raised)
    }

    constructor (catalog: Catalog, complete: set<string>)
      ensures this.catalog == catalog && View() == State({}, complete, None, [], 0)
    {
      this.catalog := catalog;
      this.handledTables := {};
      this.complete := complete;
      this.pending := None;
      this.snapshotted := [];
      this.raised := 0;
    }

    method OnSnapshottingStartedEvent()
      requires handledTables == {} && snapshotted == [] && raised == 0
      modifies this`pending
      ensures Init(catalog, View())
    {
      if catalog.hypertables == {} && catalog.vanillaTables == {} {
        pending := Some(FinishAll);
      } else if catalog.hypertables != {} {
        var table :| table in catalog.hypertables;
        pending := Some(StartTable(table));
      } else {
        var table :| table in catalog.vanillaTables;
        pending := Some(StartTable(table));
      }
    }

    method OnTableSnapshotStartedEvent(table: string)
      requires pending == Some(StartTable(table))
      modifies this
      ensures Step(catalog, old(View()), View())
    {
      if table in complete {
        ScheduleNextSnapshotHypertableOrFinish();
      } else {
        snapshotted := snapshotted + [table];
        pending := Some(FinishTable(table));
      }
    }

    method OnTableSnapshotFinishedEvent(table: string)
      requires pending == Some(FinishTable(table))
      modifies this
      ensures Step(catalog, old(View()), View())
    {
      handledTables := handledTables + {table};
      complete := complete + {table};
      ScheduleNextSnapshotHypertableOrFinish();
    }

    method OnSnapshottingFinishedEvent()
      requires pending == Some(FinishAll)
      modifies this
      ensures Step(catalog, old(View()), View())
    {
      raised := raised + 1;
      pending := None;
    }

    method NextSnapshotTable() returns (table: Option<string>)
      ensures if table.Some? then MayFollow(catalog, handledTables, StartTable(table.value))
              else MayFollow(catalog, handledTables, FinishAll)
    {
      var hypertables := catalog.hypertables;
      while hypertables != {}
        invariant hypertables <= catalog.hypertables && catalog.hypertables - hypertables <= handledTables
        decreases |hypertables|
      {
        var t :| t in hypertables;
        if t !in handledTables {
          return Some(t);
        }
        hypertables := hypertables - {t};
      }
      var vanillaTables := catalog.vanillaTables;
      while vanillaTables != {}
        invariant vanillaTables <= catalog.vanillaTables && catalog.vanillaTables - vanillaTables <= handledTables
        decreases |vanillaTables|
      {
        var t :| t in vanillaTables;
        if t !in handledTables {
          return Some(t);
        }
        vanillaTables := vanillaTables - {t};
      }
      table := None;
    }

    method ScheduleNextSnapshotHypertableOrFinish()
      modifies this`pending
      ensures pending.Some? && MayFollow(catalog, handledTables, pending.value)
    {
      var nextTable := NextSnapshotTable();
      pending := Some(if nextTable.Some? then StartTable(nextTable.value) else FinishAll);
    }
  }

  // ---------------------------------------------------------------------------------------------
  // A fresh run
  // ---------------------------------------------------------------------------------------------

  ghost predicate Distinct(tables: seq<string>) {
    forall i, j :: 0 <= i < j < |tables| ==> tables[i] != tables[j]
  }

  /** No vanilla table stands before a hypertable. */
  ghost predicate HypertablesFirst(c: Catalog, tables: seq<string>) {
    forall i, j :: 0 <= i < j < |tables| && tables[j] in c.hypertables ==> tables[i] in c.hypertables
  }

  /** The tables handled, and the one being snapshotted. */
  function Taken(s: State): set<string> {
    if s.pending.Some? && s.pending.value.FinishTable? then s.handled + {s.pending.value.table} else s.handled
  }

  ghost predicate Steady(c: Catalog, s: State) {
    && s.handled <= Tables(c)
    && s.complete * Tables(c) == s.handled
    && Distinct(s.snapshotted) && HypertablesFirst(c, s.snapshotted)
    && (forall t :: t in s.snapshotted <==> t in Taken(s))
    && (forall t :: t in s.snapshotted && t !in c.hypertables ==> c.hypertables <= s.handled)
    && match s.pending
       case None => s.handled == Tables(c) && s.raised == 1
       case Some(StartTable(t)) => s.raised == 0 && MayFollow(c, s.handled, StartTable(t))
       case Some(FinishTable(t)) => s.raised == 0 && MayFollow(c, s.handled, StartTable(t))
       case Some(FinishAll) => s.raised == 0 && s.handled == Tables(c)
  }

  /** The number of steps that are left. */
  function Rank(c: Catalog, s: State): nat {
    var left := 2 * |Tables(c) - s.handled|;
    match s.pending
    case None => 0
    case Some(FinishTable(_)) => left
    case _ => left + 1
  }

  lemma SteadyInit(c: Catalog, s: State)
    requires Init(c, s) && s.complete !! Tables(c)
    ensures Steady(c, s) && Rank(c, s) == 2 * |Tables(c)| + 1
  {
    assert Tables(c) - s.handled == Tables(c);
    assert s.complete * Tables(c) == {};
    if s.pending.value.FinishAll? {
      assert Tables(c) == {};
    }
  }

  lemma SteadyStart(c: Catalog, s: State, s': State, t: string)
    requires Steady(c, s) && s.pending == Some(StartTable(t)) && Step(c, s, s')
    ensures Steady(c, s') && Rank(c, s') == Rank(c, s) - 1
  {
    assert t in Tables(c);
    assert t !in s.complete by {
      assert t !in s.complete * Tables(c);
    }
    assert t !in s.snapshotted;
  }

  lemma SteadyFinish(c: Catalog, s: State, s': State, t: string)
    requires Steady(c, s) && s.pending == Some(FinishTable(t)) && Step(c, s, s')
    ensures Steady(c, s') && Rank(c, s') == Rank(c, s) - 1
  {
    assert t in Tables(c);
    assert Tables(c) - s.handled == Tables(c) - s'.handled + {t};
    assert s'.complete * Tables(c) == s.complete * Tables(c) + {t};
    assert s'.pending.value.FinishAll? ==> s'.handled == Tables(c);
    if s'.pending.value.FinishAll? {
      assert Tables(c) - s'.handled == {};
    }
  }

  lemma SteadyStep(c: Catalog, s: State, s': State)
    requires Steady(c, s) && Step(c, s, s')
    ensures Steady(c, s') && Rank(c, s') == if Rank(c, s) == 0 then 0 else Rank(c, s) - 1
  {
    if s.pending.Some? && s.pending.value.StartTable? {
      SteadyStart(c, s, s', s.pending.value.table);
    } else if s.pending.Some? && s.pending.value.FinishTable? {
      SteadyFinish(c, s, s', s.pending.value.table);
      assert s.pending.value.table in Tables(c) - s.handled;
    } else if s.pending.Some? {
      assert Tables(c) - s.handled == {};
    }
  }

  lemma {:induction false} FreshSteady(c: Catalog, states: seq<State>)
    requires Behaviour(c, states) && states[0].complete !! Tables(c)
    ensures var last := states[|states| - 1];
            && Steady(c, last)
            && Rank(c, last) == if 2 * |Tables(c)| + 1 < |states| then 0 else 2 * |Tables(c)| + 2 - |states|
  {
    hide Steady, Step, Rank;
    var n := |states| - 1;
    if n == 0 {
      SteadyInit(c, states[0]);
    } else {
      var past := states[..n];
      assert Step(c, states[n - 1], states[n]);
      assert Behaviour(c, past) by {
        forall i | 0 <= i < |past| - 1 ensures Step(c, past[i], past[i + 1]) {
          assert Step(c, states[i], states[i + 1]);
        }
      }
      FreshSteady(c, past);
      SteadyStep(c, past[n - 1], states[n]);
    }
  }

  /** A fresh run, whatever the iterations pick: at any time no table has been started twice, hypertables come first,
      at most one table has been started and not finished, and the finished event is raised at most once, when every
      table has been snapshotted; after two steps per table and one more, it has been raised. */
  lemma FreshRun(c: Catalog, states: seq<State>)
    requires Behaviour(c, states) && states[0].complete !! Tables(c)
    ensures var last := states[|states| - 1];
            && Distinct(last.snapshotted) && HypertablesFirst(c, last.snapshotted)
            && (forall t :: t in last.snapshotted && t !in last.handled ==> last.pending == Some(FinishTable(t)))
            && last.raised <= 1
            && (last.raised == 1 ==> forall t :: t in last.snapshotted <==> t in Tables(c))
            && (|states| >= 2 * |Tables(c)| + 2 ==> last.raised == 1)
  {
    FreshSteady(c, states);
  }

  // ---------------------------------------------------------------------------------------------
  // A run on a context in which a table is already complete
  // ---------------------------------------------------------------------------------------------

  /** The table is never handled, so the scheduler never runs out of tables. */
  ghost predicate Stuck(c: Catalog, s: State, t: string) {
    && t in Tables(c) && t in s.complete && t !in s.handled && s.raised == 0
    && s.pending.Some? && !s.pending.value.FinishAll? && s.pending.value != FinishTable(t)
  }

  lemma {:induction false} StaleStuck(c: Catalog, states: seq<State>, t: string)
    requires Behaviour(c, states) && t in Tables(c) && t in states[0].complete
    ensures Stuck(c, states[|states| - 1], t)
  {
    var n := |states| - 1;
    if n > 0 {
      var past := states[..n];
      assert Step(c, states[n - 1], states[n]);
      assert Behaviour(c, past) by {
        forall i | 0 <= i < |past| - 1 ensures Step(c, past[i], past[i + 1]) {
          assert Step(c, states[i], states[i + 1]);
        }
      }
      StaleStuck(c, past, t);
    }
  }

  /** Snapshotting finishes, in every run that is long enough, if and only if no table of the catalog was complete
      in the snapshot context at the start. */
  lemma FinishesExactly(c: Catalog, states: seq<State>)
    requires Behaviour(c, states) && |states| >= 2 * |Tables(c)| + 2
    ensures states[|states| - 1].raised == 1 <==> states[0].complete !! Tables(c)
  {
    if states[0].complete !! Tables(c) {
      FreshRun(c, states);
    } else {
      var t :| t in states[0].complete && t in Tables(c);
      StaleStuck(c, states, t);
    }
  }

  // ---------------------------------------------------------------------------------------------
  // Every run
  // ---------------------------------------------------------------------------------------------

  /** What holds in every run that starts with the tables `before` complete. */
  ghost predicate Sound(c: Catalog, before: set<string>, s: State) {
    && Distinct(s.snapshotted) && HypertablesFirst(c, s.snapshotted)
    && (forall t :: t in s.snapshotted <==> t in Taken(s))
    && (forall t :: t in s.snapshotted ==> t in Tables(c) && t !in before)
    && (forall t :: t in s.snapshotted && t !in c.hypertables ==> c.hypertables <= s.handled)
    && s.complete == before + s.handled
    && match s.pending
       case Some(StartTable(t)) => MayFollow(c, s.handled, StartTable(t))
       case Some(FinishTable(t)) => MayFollow(c, s.handled, StartTable(t))
       case _ => Tables(c) <= s.handled
  }

  lemma SoundStep(c: Catalog, before: set<string>, s: State, s': State)
    requires Sound(c, before, s) && Step(c, s, s')
    ensures Sound(c, before, s')
  {
    if s.pending.Some? && s.pending.value.FinishTable? {
      assert s'.complete == before + s'.handled;
    }
  }

  /** Whatever is complete at the start and whatever the iterations pick: no table is snapshotted twice, hypertables
      come first, a table that was complete is not snapshotted at all, and the tables that become complete are exactly
      those whose snapshot has finished. */
  lemma {:induction false} EveryRun(c: Catalog, states: seq<State>)
    requires Behaviour(c, states)
    ensures Sound(c, states[0].complete, states[|states| - 1])
  {
    hide Sound, Step;
    var n := |states| - 1;
    if n == 0 {
      SoundInit(c, states[0]);
    } else {
      var past := states[..n];
      assert Step(c, states[n - 1], states[n]);
      assert Behaviour(c, past) by {
        forall i | 0 <= i < |past| - 1 ensures Step(c, past[i], past[i + 1]) {
          assert Step(c, states[i], states[i + 1]);
        }
      }
      EveryRun(c, past);
      SoundStep(c, states[0].complete, past[n - 1], states[n]);
    }
  }

  lemma SoundInit(c: Catalog, s: State)
    requires Init(c, s)
    ensures Sound(c, s.complete, s)
  {
  }
}
