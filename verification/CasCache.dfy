/** The copy-on-write cache, as the atomic steps of any number of interleaved calls.

    A published map is never changed again, and every successful exchange publishes a new pointer, so the
    pointer is modelled by the number of maps published so far; zero is the nil pointer. */
module CasCache {
  import opened Wrappers

  datatype Op<K, V> =
    | Get(key: K)
    | GetOrCompute(key: K)
    | Set(key: K, value: V)
    | SetAll(entries: map<K, V>)
    | Transform(key: K)

  datatype Reply<V> = Value(value: V) | Missing | Failed | Done

  /** The last run of the function a caller hands in, with its input, its result and the step of the schedule in which
      it returned; no result is an error. */
  datatype Callback<V> =
    | NotRun
    | ProducerRan(result: Option<V>, step: nat)
    | TransformerRan(input: V, result: Option<V>, step: nat)

  /** A finished call of a thread. It was invoked in step `started`, when `invoked` calls had finished, and takes effect
      when `point` calls had. */
  datatype Outcome<K, V> = Outcome(
    tid: nat,
    op: Op<K, V>,
    ran: Callback<V>,
    reply: Reply<V>,
    started: nat,
    invoked: nat,
    point: nat)

  /** Where a call is: `loaded` is the pointer it last loaded, `seen` the number of calls that had finished then, and
      `step` the step in which the callback returned. */
  datatype Pc<K, V> =
    | Called
    | Missed(seen: nat)                                // before the producer runs
    | Produced(value: V, step: nat)                    // at the head of the loop
    | ComputeReady(value: V, step: nat, loaded: nat)   // before the exchange
    | SetReady(loaded: nat)
    | SetAllHead(work: map<K, V>)
    | SetAllReady(work: map<K, V>, loaded: nat)
    | TransformHead
    | TransformLoaded(before: V, seen: nat, loaded: nat)   // before the transformer runs
    | TransformReady(before: V, after: V, step: nat, loaded: nat)

  datatype Call<K, V> = Call(op: Op<K, V>, pc: Pc<K, V>, started: nat, invoked: nat)

  /** `steps` counts the steps of the schedule. */
  datatype State<K, V> = State(
    versions: seq<map<K, V>>,
    calls: map<nat, Call<K, V>>,
    history: seq<Outcome<K, V>>,
    steps: nat)

  /** What a scheduler may let a thread do; `supplied` is the result of a producer or transformer. */
  datatype Move<K, V> =
    | Invoke(tid: nat, op: Op<K, V>)
    | Advance(tid: nat, supplied: Option<V>)

  function Initial<K, V>(): State<K, V> {
    State([], map[], [], 0)
  }

  function At<K, V>(s: State<K, V>, pointer: nat): map<K, V>
    requires pointer <= |s.versions|
  {
    if pointer == 0 then map[] else s.versions[pointer - 1]
  }

  function Current<K, V>(s: State<K, V>): map<K, V> {
    At(s, |s.versions|)
  }

  function Goto<K, V>(s: State<K, V>, tid: nat, pc: Pc<K, V>): State<K, V>
    requires tid in s.calls
  {
    s.(calls := s.calls[tid := s.calls[tid].(pc := pc)])
  }

  function OutcomeOf<K, V>(tid: nat, call: Call<K, V>, ran: Callback<V>, reply: Reply<V>, point: nat): Outcome<K, V> {
    Outcome(tid, call.op, ran, reply, call.started, call.invoked, point)
  }

  function FinishAt<K, V>(s: State<K, V>, tid: nat, ran: Callback<V>, reply: Reply<V>, point: nat): State<K, V>
    requires tid in s.calls
  {
    s.(calls := s.calls - {tid}, history := s.history + [OutcomeOf(tid, s.calls[tid], ran, reply, point)])
  }

  /** The call takes effect with its last step. */
  function Finish<K, V>(s: State<K, V>, tid: nat, ran: Callback<V>, reply: Reply<V>): State<K, V>
    requires tid in s.calls
  {
    FinishAt(s, tid, ran, reply, |s.history|)
  }

  function Publish<K, V>(s: State<K, V>, m: map<K, V>): State<K, V> {
    s.(versions := s.versions + [m])
  }

  function AdvanceGet<K, V>(s: State<K, V>, tid: nat): State<K, V>
    requires tid in s.calls && s.calls[tid].op.Get?
  {
    var key := s.calls[tid].op.key;
    Finish(s, tid, NotRun, if key in Current(s) then Value(Current(s)[key]) else Missing)
  }

  function AdvanceCompute<K, V>(s: State<K, V>, tid: nat, supplied: Option<V>): State<K, V>
    requires tid in s.calls && s.calls[tid].op.GetOrCompute?
  {
    var key := s.calls[tid].op.key;
    match s.calls[tid].pc
    case Called =>
      if key in Current(s) then Finish(s, tid, NotRun, Value(Current(s)[key])) else Goto(s, tid, Missed(|s.history|))
    case Missed(seen) =>
      if supplied.None? then FinishAt(s, tid, ProducerRan(None, s.steps), Failed, seen)
      else Goto(s, tid, Produced(supplied.value, s.steps))
    case Produced(v, step) =>
      if key in Current(s) then Finish(s, tid, ProducerRan(Some(v), step), Value(Current(s)[key]))
      else Goto(s, tid, ComputeReady(v, step, |s.versions|))
    case ComputeReady(v, step, loaded) =>
      if loaded == |s.versions| then
        Finish(Publish(s, map[key := v] + At(s, loaded)), tid, ProducerRan(Some(v), step), Value(v))
      else Goto(s, tid, Produced(v, step))
    case _ => s
  }

  function AdvanceSet<K, V>(s: State<K, V>, tid: nat): State<K, V>
    requires tid in s.calls && s.calls[tid].op.Set?
  {
    var op := s.calls[tid].op;
    match s.calls[tid].pc
    case Called => Goto(s, tid, SetReady(|s.versions|))
    case SetReady(loaded) =>
      if loaded == |s.versions| then Finish(Publish(s, map[op.key := op.value] + At(s, loaded)), tid, NotRun, Done)
      else Goto(s, tid, Called)
    case _ => s
  }

  /** SetAll copies the published entries into the map it was given, and keeps that map over a retry. */
  function AdvanceSetAll<K, V>(s: State<K, V>, tid: nat): State<K, V>
    requires tid in s.calls && s.calls[tid].op.SetAll?
  {
    match s.calls[tid].pc
    case Called => Goto(s, tid, SetAllHead(s.calls[tid].op.entries))
    case SetAllHead(work) => Goto(s, tid, SetAllReady(work + Current(s), |s.versions|))
    case SetAllReady(work, loaded) =>
      if loaded == |s.versions| then Finish(Publish(s, work), tid, NotRun, Done)
      else Goto(s, tid, SetAllHead(work))
    case _ => s
  }

  function AdvanceTransform<K, V>(s: State<K, V>, tid: nat, supplied: Option<V>): State<K, V>
    requires tid in s.calls && s.calls[tid].op.Transform?
  {
    var key := s.calls[tid].op.key;
    match s.calls[tid].pc
    case Called =>
      if s.versions == [] then Finish(s, tid, NotRun, Failed) else Goto(s, tid, TransformHead)
    case TransformHead =>
      if key !in Current(s) then Finish(s, tid, NotRun, Failed)
      else Goto(s, tid, TransformLoaded(Current(s)[key], |s.history|, |s.versions|))
    case TransformLoaded(before, seen, loaded) =>
      if supplied.None? then FinishAt(s, tid, TransformerRan(before, None, s.steps), Failed, seen)
      else Goto(s, tid, TransformReady(before, supplied.value, s.steps, loaded))
    case TransformReady(before, after, step, loaded) =>
      if loaded == |s.versions| then
        Finish(Publish(s, At(s, loaded)[key := after]), tid, TransformerRan(before, Some(after), step), Value(after))
      else Goto(s, tid, TransformHead)
    case _ => s
  }

  /** What a move does; a thread runs one call at a time. */
  function Moved<K, V>(s: State<K, V>, move: Move<K, V>): State<K, V> {
    match move
    case Invoke(tid, op) =>
      if tid in s.calls then s else s.(calls := s.calls[tid := Call(op, Called, s.steps, |s.history|)])
    case Advance(tid, supplied) =>
      if tid !in s.calls then s
      else match s.calls[tid].op
        case Get(_) => AdvanceGet(s, tid)
        case GetOrCompute(_) => AdvanceCompute(s, tid, supplied)
        case Set(_, _) => AdvanceSet(s, tid)
        case SetAll(_) => AdvanceSetAll(s, tid)
        case Transform(_) => AdvanceTransform(s, tid, supplied)
  }

  /** One atomic step. */
  function Step<K, V>(s: State<K, V>, move: Move<K, V>): State<K, V> {
    Moved(s, move).(steps := s.steps + 1)
  }

  function Run<K, V>(moves: seq<Move<K, V>>): State<K, V> {
    if moves == [] then Initial() else Step(Run(moves[..|moves| - 1]), moves[|moves| - 1])
  }

  // ---------------------------------------------------------------------------------------------
  // The atomic map
  // ---------------------------------------------------------------------------------------------

  /** The effect of a finished call on an atomic map. Set and SetAll never overwrite. */
  function Effect<K, V>(m: map<K, V>, o: Outcome<K, V>): map<K, V> {
    match (o.op, o.reply)
    case (GetOrCompute(key), Value(v)) => if key in m then m else m[key := v]
    case (Set(key, value), Done) => if key in m then m else m[key := value]
    case (SetAll(entries), Done) => entries + m
    case (Transform(key), Value(v)) => m[key := v]
    case _ => m
  }

  /** The reply an atomic map holding `m` gives. */
  predicate Answers<K, V(==)>(m: map<K, V>, o: Outcome<K, V>) {
    match o.op
    case Get(key) => o.reply == if key in m then Value(m[key]) else Missing
    case GetOrCompute(key) =>
      (match o.reply
       case Value(v) => if key in m then v == m[key] else o.ran.ProducerRan? && o.ran.result == Some(v)
       case Failed => key !in m && o.ran.ProducerRan? && o.ran.result.None?
       case _ => false)
    case Set(_, _) => o.reply.Done?
    case SetAll(_) => o.reply.Done?
    case Transform(key) =>
      (match o.reply
       case Value(v) => key in m && o.ran.TransformerRan? && o.ran.input == m[key] && o.ran.result == Some(v)
       case Failed =>
         if key in m then o.ran.TransformerRan? && o.ran.input == m[key] && o.ran.result.None? else o.ran.NotRun?
       case _ => false)
  }

  function Replay<K, V>(history: seq<Outcome<K, V>>): map<K, V> {
    if history == [] then map[]
    else Effect(Replay(history[..|history| - 1]), history[|history| - 1])
  }

  /** A call takes effect between its invocation and its end, a call with an effect at its end, and answers as the
      atomic map does at that point. */
  ghost predicate AtomicAt<K, V>(history: seq<Outcome<K, V>>, i: nat)
    requires i < |history|
  {
    var o := history[i];
    && o.invoked <= o.point <= i
    && (!o.reply.Failed? ==> o.point == i)
    && Answers(Replay(history[..o.point]), o)
  }

  ghost predicate Atomic<K, V>(history: seq<Outcome<K, V>>) {
    forall i :: 0 <= i < |history| ==> AtomicAt(history, i)
  }

  // ---------------------------------------------------------------------------------------------
  // Refinement
  // ---------------------------------------------------------------------------------------------

  ghost predicate CallValid<K, V>(s: State<K, V>, call: Call<K, V>) {
    && call.invoked <= |s.history|
    && match call.pc
       case Missed(seen) =>
         call.op.GetOrCompute? ==> call.invoked <= seen <= |s.history| && call.op.key !in Replay(s.history[..seen])
       case ComputeReady(_, _, loaded) =>
         call.op.GetOrCompute? ==> loaded <= |s.versions| && call.op.key !in At(s, loaded)
       case SetReady(loaded) => loaded <= |s.versions|
       case SetAllHead(work) => call.op.SetAll? ==> Overlaid(work, call.op.entries, Current(s))
       case SetAllReady(work, loaded) =>
         call.op.SetAll? ==> loaded <= |s.versions| && work == call.op.entries + At(s, loaded)
       case TransformHead => s.versions != []
       case TransformReady(before, _, _, loaded) => call.op.Transform? ==> LoadedFrom(s, loaded, call.op.key, before)
       case TransformLoaded(before, seen, loaded) =>
         call.op.Transform? ==>
           && LoadedFrom(s, loaded, call.op.key, before)
           && call.invoked <= seen <= |s.history|
           && call.op.key in Replay(s.history[..seen]) && Replay(s.history[..seen])[call.op.key] == before
       case _ => true
  }

  ghost predicate LoadedFrom<K, V>(s: State<K, V>, loaded: nat, key: K, value: V) {
    loaded <= |s.versions| && key in At(s, loaded) && At(s, loaded)[key] == value
  }

  /** What SetAll carries over a retry: its own entries, and copies of keys that are published. */
  predicate Overlaid<K, V(==)>(work: map<K, V>, entries: map<K, V>, current: map<K, V>) {
    && entries.Keys <= work.Keys
    && forall k :: k in work ==> k in current || (k in entries && work[k] == entries[k])
  }

  ghost predicate Grows<K, V>(s: State<K, V>) {
    forall i, j :: 0 <= i <= j <= |s.versions| ==> At(s, i).Keys <= At(s, j).Keys
  }

  ghost predicate Valid<K, V>(s: State<K, V>) {
    && Grows(s)
    && (forall tid :: tid in s.calls ==> CallValid(s, s.calls[tid]))
    && Current(s) == Replay(s.history)
    && Atomic(s.history)
  }

  lemma RetryLeavesNothingStale<K, V>(work: map<K, V>, entries: map<K, V>, current: map<K, V>)
    requires Overlaid(work, entries, current)
    ensures work + current == entries + current
  {
  }

  lemma AtomicAppend<K, V>(history: seq<Outcome<K, V>>, o: Outcome<K, V>)
    requires Atomic(history) && o.invoked <= o.point <= |history| && (!o.reply.Failed? ==> o.point == |history|)
    requires Answers(Replay(history[..o.point]), o)
    ensures Atomic(history + [o]) && Replay(history + [o]) == Effect(Replay(history), o)
  {
    hide Answers, Effect;
    var h := history + [o];
    assert h[..|h| - 1] == history;
    forall i | 0 <= i < |h| ensures AtomicAt(h, i) {
      if i < |history| {
        assert AtomicAt(history, i);
      }
      assert h[..h[i].point] == history[..h[i].point];
    }
  }

  /** What calls know about the past stays true when maps are published and calls finish. */
  lemma CallStaysValid<K, V>(s: State<K, V>, s': State<K, V>, call: Call<K, V>)
    requires CallValid(s, call) && s.versions <= s'.versions && s.history <= s'.history
    requires Current(s).Keys <= Current(s').Keys
    ensures CallValid(s', call)
  {
    assert forall i :: 0 <= i <= |s.versions| ==> At(s', i) == At(s, i);
    assert forall i :: 0 <= i <= |s.history| ==> s'.history[..i] == s.history[..i];
  }

  lemma GotoValid<K, V>(s: State<K, V>, tid: nat, pc: Pc<K, V>)
    requires Valid(s) && tid in s.calls && CallValid(s, s.calls[tid].(pc := pc))
    ensures Valid(Goto(s, tid, pc))
  {
    hide CallValid;
    var s' := Goto(s, tid, pc);
    assert forall i :: 0 <= i <= |s.versions| ==> At(s', i) == At(s, i);
    forall t | t in s'.calls ensures CallValid(s', s'.calls[t]) {
      CallStaysValid(s, s', s'.calls[t]);
    }
  }

  lemma FinishValid<K, V>(s: State<K, V>, tid: nat, ran: Callback<V>, reply: Reply<V>, point: nat)
    requires Valid(s) && tid in s.calls && s.calls[tid].invoked <= point <= |s.history|
    requires !reply.Failed? ==> point == |s.history|
    requires Answers(Replay(s.history[..point]), OutcomeOf(tid, s.calls[tid], ran, reply, point))
    requires Effect(Current(s), OutcomeOf(tid, s.calls[tid], ran, reply, point)) == Current(s)
    ensures Valid(FinishAt(s, tid, ran, reply, point))
  {
    hide CallValid, Answers, Effect, Atomic, Replay;
    var s' := FinishAt(s, tid, ran, reply, point);
    assert forall i :: 0 <= i <= |s.versions| ==> At(s', i) == At(s, i);
    AtomicAppend(s.history, OutcomeOf(tid, s.calls[tid], ran, reply, point));
    forall t | t in s'.calls ensures CallValid(s', s'.calls[t]) {
      CallStaysValid(s, s', s'.calls[t]);
    }
  }

  /** A call that answers from what is published now. */
  lemma FinishNowValid<K, V>(s: State<K, V>, tid: nat, ran: Callback<V>, reply: Reply<V>)
    requires Valid(s) && tid in s.calls
    requires Answers(Current(s), OutcomeOf(tid, s.calls[tid], ran, reply, |s.history|))
    requires Effect(Current(s), OutcomeOf(tid, s.calls[tid], ran, reply, |s.history|)) == Current(s)
    ensures Valid(Finish(s, tid, ran, reply))
  {
    hide Answers, Effect;
    assert CallValid(s, s.calls[tid]);
    assert s.history[..|s.history|] == s.history;
    FinishValid(s, tid, ran, reply, |s.history|);
  }

  /** A successful exchange of a map that keeps every key. */
  lemma PublishValid<K, V>(s: State<K, V>, m: map<K, V>, tid: nat, ran: Callback<V>, reply: Reply<V>)
    requires Valid(s) && tid in s.calls && Current(s).Keys <= m.Keys
    requires Answers(Current(s), OutcomeOf(tid, s.calls[tid], ran, reply, |s.history|))
    requires Effect(Current(s), OutcomeOf(tid, s.calls[tid], ran, reply, |s.history|)) == m
    ensures Valid(Finish(Publish(s, m), tid, ran, reply))
  {
    hide Answers, Effect, Atomic, Replay;
    var s' := Finish(Publish(s, m), tid, ran, reply);
    assert CallValid(s, s.calls[tid]);
    assert s.history[..|s.history|] == s.history;
    assert forall i :: 0 <= i <= |s.versions| ==> At(s', i) == At(s, i);
    AtomicAppend(s.history, OutcomeOf(tid, s.calls[tid], ran, reply, |s.history|));
    forall t | t in s'.calls ensures CallValid(s', s'.calls[t]) {
      CallStaysValid(s, s', s'.calls[t]);
    }
  }

  /** What is published now is what the finished calls leave. */
  lemma CurrentIsReplay<K, V>(s: State<K, V>)
    requires Valid(s)
    ensures Replay(s.history[..|s.history|]) == Current(s)
  {
    assert s.history[..|s.history|] == s.history;
  }

  lemma ComputeValid<K, V>(s: State<K, V>, tid: nat, supplied: Option<V>)
    requires Valid(s) && tid in s.calls && s.calls[tid].op.GetOrCompute?
    ensures Valid(AdvanceCompute(s, tid, supplied))
  {
    var key := s.calls[tid].op.key;
    assert CallValid(s, s.calls[tid]);
    CurrentIsReplay(s);
    hide Valid, Replay;
    match s.calls[tid].pc {
      case Called =>
        if key in Current(s) {
          FinishNowValid(s, tid, NotRun, Value(Current(s)[key]));
        } else {
          GotoValid(s, tid, Missed(|s.history|));
        }
      case Missed(seen) =>
        if supplied.None? {
          FinishValid(s, tid, ProducerRan(None, s.steps), Failed, seen);
        } else {
          GotoValid(s, tid, Produced(supplied.value, s.steps));
        }
      case Produced(v, step) =>
        if key in Current(s) {
          FinishNowValid(s, tid, ProducerRan(Some(v), step), Value(Current(s)[key]));
        } else {
          GotoValid(s, tid, ComputeReady(v, step, |s.versions|));
        }
      case ComputeReady(v, step, loaded) =>
        if loaded == |s.versions| {
          PublishValid(s, map[key := v] + At(s, loaded), tid, ProducerRan(Some(v), step), Value(v));
        } else {
          GotoValid(s, tid, Produced(v, step));
        }
      case _ =>
    }
  }

  lemma SetValid<K, V>(s: State<K, V>, tid: nat)
    requires Valid(s) && tid in s.calls && s.calls[tid].op.Set?
    ensures Valid(AdvanceSet(s, tid))
  {
    var op := s.calls[tid].op;
    assert CallValid(s, s.calls[tid]);
    hide Valid;
    match s.calls[tid].pc {
      case Called => GotoValid(s, tid, SetReady(|s.versions|));
      case SetReady(loaded) =>
        if loaded == |s.versions| { PublishValid(s, map[op.key := op.value] + At(s, loaded), tid, NotRun, Done); }
        else { GotoValid(s, tid, Called); }
      case _ =>
    }
  }

  lemma SetAllValid<K, V>(s: State<K, V>, tid: nat)
    requires Valid(s) && tid in s.calls && s.calls[tid].op.SetAll?
    ensures Valid(AdvanceSetAll(s, tid))
  {
    var entries := s.calls[tid].op.entries;
    assert CallValid(s, s.calls[tid]);
    match s.calls[tid].pc {
      case Called => GotoValid(s, tid, SetAllHead(entries));
      case SetAllHead(work) =>
        RetryLeavesNothingStale(work, entries, Current(s));
        GotoValid(s, tid, SetAllReady(work + Current(s), |s.versions|));
      case SetAllReady(work, loaded) =>
        if loaded == |s.versions| {
          PublishValid(s, work, tid, NotRun, Done);
        } else {
          assert At(s, loaded).Keys <= Current(s).Keys;
          GotoValid(s, tid, SetAllHead(work));
        }
      case _ =>
    }
  }

  lemma TransformValid<K, V>(s: State<K, V>, tid: nat, supplied: Option<V>)
    requires Valid(s) && tid in s.calls && s.calls[tid].op.Transform?
    ensures Valid(AdvanceTransform(s, tid, supplied))
  {
    var key := s.calls[tid].op.key;
    assert CallValid(s, s.calls[tid]);
    CurrentIsReplay(s);
    hide Valid, Replay;
    match s.calls[tid].pc {
      case Called =>
        if s.versions == [] {
          FinishNowValid(s, tid, NotRun, Failed);
        } else {
          GotoValid(s, tid, TransformHead);
        }
      case TransformHead =>
        if key !in Current(s) {
          FinishNowValid(s, tid, NotRun, Failed);
        } else {
          GotoValid(s, tid, TransformLoaded(Current(s)[key], |s.history|, |s.versions|));
        }
      case TransformLoaded(before, seen, loaded) =>
        if supplied.None? {
          FinishValid(s, tid, TransformerRan(before, None, s.steps), Failed, seen);
        } else {
          GotoValid(s, tid, TransformReady(before, supplied.value, s.steps, loaded));
        }
      case TransformReady(before, after, step, loaded) =>
        if loaded == |s.versions| {
          PublishValid(s, At(s, loaded)[key := after], tid, TransformerRan(before, Some(after), step), Value(after));
        } else {
          GotoValid(s, tid, TransformHead);
        }
      case _ =>
    }
  }

  lemma MovedValid<K, V>(s: State<K, V>, move: Move<K, V>)
    requires Valid(s)
    ensures Valid(Moved(s, move))
  {
    match move {
      case Invoke(tid, op) =>
        if tid !in s.calls {
          var s' := Moved(s, move);
          assert forall i :: 0 <= i <= |s.versions| ==> At(s', i) == At(s, i);
          forall t | t in s'.calls ensures CallValid(s', s'.calls[t]) {
            if t != tid { CallStaysValid(s, s', s.calls[t]); }
          }
        }
      case Advance(tid, supplied) =>
        if tid in s.calls {
          match s.calls[tid].op {
            case Get(key) =>
              FinishNowValid(s, tid, NotRun, if key in Current(s) then Value(Current(s)[key]) else Missing);
            case GetOrCompute(_) => ComputeValid(s, tid, supplied);
            case Set(_, _) => SetValid(s, tid);
            case SetAll(_) => SetAllValid(s, tid);
            case Transform(_) => TransformValid(s, tid, supplied);
          }
        }
    }
  }

  lemma StepValid<K, V>(s: State<K, V>, move: Move<K, V>)
    requires Valid(s)
    ensures Valid(Step(s, move))
  {
    hide Moved;
    MovedValid(s, move);
    var s', s'' := Moved(s, move), Step(s, move);
    assert forall i :: 0 <= i <= |s'.versions| ==> At(s'', i) == At(s', i);
    forall t | t in s''.calls ensures CallValid(s'', s''.calls[t]) {
      CallStaysValid(s', s'', s'.calls[t]);
    }
  }

  /** In every interleaving the finished calls are a run of the atomic map, each at a point between its invocation and
      its end, and the published map is what that run leaves. */
  lemma {:induction false} Linearizable<K, V>(moves: seq<Move<K, V>>)
    ensures Valid(Run(moves))
  {
    if moves != [] {
      Linearizable(moves[..|moves| - 1]);
      hide Valid, Step;
      StepValid(Run(moves[..|moves| - 1]), moves[|moves| - 1]);
    }
  }

  // ---------------------------------------------------------------------------------------------
  // Consequences
  // ---------------------------------------------------------------------------------------------

  lemma {:induction false} KeysKept<K, V>(history: seq<Outcome<K, V>>, n: nat)
    requires n <= |history|
    ensures Replay(history[..n]).Keys <= Replay(history).Keys
  {
    if n == |history| {
      assert history[..n] == history;
    } else {
      var past := history[..|history| - 1];
      KeysKept(past, n);
      assert past[..n] == history[..n];
    }
  }

  lemma StepHistory<K, V>(s: State<K, V>, move: Move<K, V>)
    ensures s.history <= Step(s, move).history
  {
  }

  lemma {:induction false} HistoryGrows<K, V>(moves: seq<Move<K, V>>, more: seq<Move<K, V>>)
    ensures Run(moves).history <= Run(moves + more).history
  {
    if more == [] {
      assert moves + more == moves;
    } else {
      hide Step;
      HistoryGrows(moves, more[..|more| - 1]);
      assert (moves + more)[..|moves + more| - 1] == moves + more[..|more| - 1];
      StepHistory(Run(moves + more[..|more| - 1]), more[|more| - 1]);
    }
  }

  /** No key is ever lost: what is published at some point stays published in every continuation. */
  lemma NoKeyLost<K, V>(moves: seq<Move<K, V>>, more: seq<Move<K, V>>)
    ensures Current(Run(moves)).Keys <= Current(Run(moves + more)).Keys
  {
    var h, h' := Run(moves).history, Run(moves + more).history;
    Linearizable(moves);
    Linearizable(moves + more);
    HistoryGrows(moves, more);
    assert h'[..|h|] == h;
    KeysKept(h', |h|);
  }

  predicate Transforms<K, V>(o: Outcome<K, V>) {
    o.op.Transform?
  }

  /** Without transformations a value, once published, stays. */
  lemma {:induction false} ValuesKept<K, V>(history: seq<Outcome<K, V>>, n: nat, key: K)
    requires n <= |history| && key in Replay(history[..n])
    requires forall i :: 0 <= i < |history| ==> !Transforms(history[i])
    ensures key in Replay(history) && Replay(history)[key] == Replay(history[..n])[key]
  {
    if n == |history| {
      assert history[..n] == history;
    } else {
      var past := history[..|history| - 1];
      assert past[..n] == history[..n];
      ValuesKept(past, n, key);
    }
  }

  predicate Obtains<K, V>(o: Outcome<K, V>, key: K) {
    (o.op == GetOrCompute(key) || o.op == Get(key)) && o.reply.Value?
  }

  lemma ObtainedOnce<K, V>(h: seq<Outcome<K, V>>, key: K, i: nat, j: nat)
    requires Atomic(h) && (forall n :: 0 <= n < |h| ==> !Transforms(h[n]))
    requires i < j < |h| && Obtains(h[i], key) && Obtains(h[j], key)
    ensures h[i].reply == h[j].reply
  {
    assert AtomicAt(h, i) && AtomicAt(h, j);
    var upToI := h[..i + 1];
    assert upToI[..i] == h[..i] && upToI[i] == h[i];
    assert key in Replay(upToI) && Value(Replay(upToI)[key]) == h[i].reply;
    assert h[..j][..i + 1] == upToI;
    ValuesKept(h[..j], i + 1, key);
  }

  /** Without transformations all successful lookups of a key obtain the same value, whichever thread
      computed it and however often the producer ran. */
  lemma ComputedOnce<K, V>(moves: seq<Move<K, V>>, key: K, i: nat, j: nat)
    requires forall n :: 0 <= n < |Run(moves).history| ==> !Transforms(Run(moves).history[n])
    requires i < j < |Run(moves).history|
    requires Obtains(Run(moves).history[i], key) && Obtains(Run(moves).history[j], key)
    ensures Run(moves).history[i].reply == Run(moves).history[j].reply
  {
    hide Run, Atomic, Obtains, Transforms;
    Linearizable(moves);
    ObtainedOnce(Run(moves).history, key, i, j);
  }

  // ---------------------------------------------------------------------------------------------
  // Where values come from
  // ---------------------------------------------------------------------------------------------

  /** What a callback returned, and in which step. */
  datatype Returned<V> = Returned(result: Option<V>, step: nat)

  /** What the callback returned to the call, if it has run. */
  function Held<K, V>(pc: Pc<K, V>): Option<Returned<V>> {
    match pc
    case Produced(v, step) => Some(Returned(Some(v), step))
    case ComputeReady(v, step, _) => Some(Returned(Some(v), step))
    case TransformReady(_, after, step, _) => Some(Returned(Some(after), step))
    case _ => None
  }

  function Recorded<V>(ran: Callback<V>): Option<Returned<V>> {
    if ran.NotRun? then None else Some(Returned(ran.result, ran.step))
  }

  /** The call was invoked by its thread in the schedule, and what its callback returned was supplied to it
      afterwards. */
  ghost predicate Supplied<K, V>(moves: seq<Move<K, V>>, tid: nat, op: Op<K, V>, started: nat, r: Option<Returned<V>>) {
    && started < |moves| && moves[started] == Invoke(tid, op)
    && (r.Some? ==> started < r.value.step < |moves| && moves[r.value.step] == Advance(tid, r.value.result))
  }

  ghost predicate CallSupplied<K, V>(moves: seq<Move<K, V>>, tid: nat, call: Call<K, V>) {
    Supplied(moves, tid, call.op, call.started, Held(call.pc))
  }

  ghost predicate OutcomeSupplied<K, V>(moves: seq<Move<K, V>>, o: Outcome<K, V>) {
    Supplied(moves, o.tid, o.op, o.started, Recorded(o.ran))
  }

  ghost predicate AllSupplied<K, V>(moves: seq<Move<K, V>>, s: State<K, V>) {
    && s.steps == |moves|
    && (forall tid :: tid in s.calls ==> CallSupplied(moves, tid, s.calls[tid]))
    && (forall i :: 0 <= i < |s.history| ==> OutcomeSupplied(moves, s.history[i]))
  }

  /** A step of a call holds or records only what the callback returned to the call before or returns now. */
  ghost predicate Passes<K, V>(s: State<K, V>, s': State<K, V>, tid: nat, supplied: Option<V>)
    requires tid in s.calls
  {
    var call := s.calls[tid];
    var held := {None, Held(call.pc), Some(Returned(supplied, s.steps))};
    && (forall t :: t in s'.calls && t != tid ==> t in s.calls && s'.calls[t] == s.calls[t])
    && (tid in s'.calls ==>
          && s'.calls[tid].op == call.op && s'.calls[tid].started == call.started
          && Held(s'.calls[tid].pc) in held)
    && s.history <= s'.history && |s'.history| <= |s.history| + 1
    && (|s'.history| == |s.history| + 1 ==>
          var o := s'.history[|s.history|];
          o.tid == tid && o.op == call.op && o.started == call.started && Recorded(o.ran) in held)
  }

  lemma GotoPasses<K, V>(s: State<K, V>, tid: nat, pc: Pc<K, V>, supplied: Option<V>)
    requires tid in s.calls && Held(pc) in {None, Held(s.calls[tid].pc), Some(Returned(supplied, s.steps))}
    ensures Passes(s, Goto(s, tid, pc), tid, supplied)
  {
  }

  lemma FinishPasses<K, V>(s: State<K, V>, published: State<K, V>, tid: nat, ran: Callback<V>, reply: Reply<V>,
                           point: nat, supplied: Option<V>)
    requires tid in s.calls && published == s.(versions := published.versions)
    requires Recorded(ran) in {None, Held(s.calls[tid].pc), Some(Returned(supplied, s.steps))}
    ensures Passes(s, FinishAt(published, tid, ran, reply, point), tid, supplied)
  {
    var o := OutcomeOf(tid, s.calls[tid], ran, reply, point);
    assert FinishAt(published, tid, ran, reply, point).history == s.history + [o];
  }

  lemma ComputePasses<K, V>(s: State<K, V>, tid: nat, supplied: Option<V>)
    requires tid in s.calls && s.calls[tid].op.GetOrCompute?
    ensures Passes(s, AdvanceCompute(s, tid, supplied), tid, supplied)
  {
    hide Passes, FinishAt, Goto, At;
    var key, n := s.calls[tid].op.key, |s.history|;
    match s.calls[tid].pc {
      case Called =>
        if key in Current(s) { FinishPasses(s, s, tid, NotRun, Value(Current(s)[key]), n, supplied); }
        else { GotoPasses(s, tid, Missed(n), supplied); }
      case Missed(seen) =>
        if supplied.None? { FinishPasses(s, s, tid, ProducerRan(None, s.steps), Failed, seen, supplied); }
        else { GotoPasses(s, tid, Produced(supplied.value, s.steps), supplied); }
      case Produced(v, step) =>
        if key in Current(s) {
          FinishPasses(s, s, tid, ProducerRan(Some(v), step), Value(Current(s)[key]), n, supplied);
        } else {
          GotoPasses(s, tid, ComputeReady(v, step, |s.versions|), supplied);
        }
      case ComputeReady(v, step, loaded) =>
        if loaded == |s.versions| {
          var published := Publish(s, map[key := v] + At(s, loaded));
          FinishPasses(s, published, tid, ProducerRan(Some(v), step), Value(v), n, supplied);
        } else {
          GotoPasses(s, tid, Produced(v, step), supplied);
        }
      case _ => Stays(s, tid, supplied);
    }
  }

  lemma Stays<K, V>(s: State<K, V>, tid: nat, supplied: Option<V>)
    requires tid in s.calls
    ensures Passes(s, s, tid, supplied)
  {
  }

  lemma TransformPasses<K, V>(s: State<K, V>, tid: nat, supplied: Option<V>)
    requires tid in s.calls && s.calls[tid].op.Transform?
    ensures Passes(s, AdvanceTransform(s, tid, supplied), tid, supplied)
  {
    hide Passes, FinishAt, Goto, At;
    var key, n := s.calls[tid].op.key, |s.history|;
    match s.calls[tid].pc {
      case Called =>
        if s.versions == [] { FinishPasses(s, s, tid, NotRun, Failed, n, supplied); }
        else { GotoPasses(s, tid, TransformHead, supplied); }
      case TransformHead =>
        if key !in Current(s) { FinishPasses(s, s, tid, NotRun, Failed, n, supplied); }
        else { GotoPasses(s, tid, TransformLoaded(Current(s)[key], n, |s.versions|), supplied); }
      case TransformLoaded(before, seen, loaded) =>
        if supplied.None? { FinishPasses(s, s, tid, TransformerRan(before, None, s.steps), Failed, seen, supplied); }
        else { GotoPasses(s, tid, TransformReady(before, supplied.value, s.steps, loaded), supplied); }
      case TransformReady(before, after, step, loaded) =>
        if loaded == |s.versions| {
          var published := Publish(s, At(s, loaded)[key := after]);
          FinishPasses(s, published, tid, TransformerRan(before, Some(after), step), Value(after), n, supplied);
        } else {
          GotoPasses(s, tid, TransformHead, supplied);
        }
      case _ => Stays(s, tid, supplied);
    }
  }

  lemma SetPasses<K, V>(s: State<K, V>, tid: nat, supplied: Option<V>)
    requires tid in s.calls && s.calls[tid].op.Set?
    ensures Passes(s, AdvanceSet(s, tid), tid, supplied)
  {
    hide Passes, FinishAt, Goto, At;
    var op := s.calls[tid].op;
    match s.calls[tid].pc {
      case Called => GotoPasses(s, tid, SetReady(|s.versions|), supplied);
      case SetReady(loaded) =>
        if loaded == |s.versions| {
          var published := Publish(s, map[op.key := op.value] + At(s, loaded));
          FinishPasses(s, published, tid, NotRun, Done, |s.history|, supplied);
        } else {
          GotoPasses(s, tid, Called, supplied);
        }
      case _ => Stays(s, tid, supplied);
    }
  }

  lemma SetAllPasses<K, V>(s: State<K, V>, tid: nat, supplied: Option<V>)
    requires tid in s.calls && s.calls[tid].op.SetAll?
    ensures Passes(s, AdvanceSetAll(s, tid), tid, supplied)
  {
    hide Passes, FinishAt, Goto, At;
    match s.calls[tid].pc {
      case Called => GotoPasses(s, tid, SetAllHead(s.calls[tid].op.entries), supplied);
      case SetAllHead(work) => GotoPasses(s, tid, SetAllReady(work + Current(s), |s.versions|), supplied);
      case SetAllReady(work, loaded) =>
        if loaded == |s.versions| {
          FinishPasses(s, Publish(s, work), tid, NotRun, Done, |s.history|, supplied);
        } else {
          GotoPasses(s, tid, SetAllHead(work), supplied);
        }
      case _ => Stays(s, tid, supplied);
    }
  }

  lemma AdvancePasses<K, V>(s: State<K, V>, tid: nat, supplied: Option<V>)
    requires tid in s.calls
    ensures Passes(s, Moved(s, Advance(tid, supplied)), tid, supplied)
  {
    hide Passes, FinishAt, AdvanceCompute, AdvanceSet, AdvanceSetAll, AdvanceTransform;
    match s.calls[tid].op {
      case Get(key) =>
        var reply := if key in Current(s) then Value(Current(s)[key]) else Missing;
        FinishPasses(s, s, tid, NotRun, reply, |s.history|, supplied);
      case GetOrCompute(_) => ComputePasses(s, tid, supplied);
      case Set(_, _) => SetPasses(s, tid, supplied);
      case SetAll(_) => SetAllPasses(s, tid, supplied);
      case Transform(_) => TransformPasses(s, tid, supplied);
    }
  }

  lemma SuppliedMore<K, V>(past: seq<Move<K, V>>, move: Move<K, V>, tid: nat, op: Op<K, V>, started: nat,
                           r: Option<Returned<V>>)
    requires Supplied(past, tid, op, started, r)
    ensures Supplied(past + [move], tid, op, started, r)
    ensures Supplied(past + [move], tid, op, started, None)
    ensures move.Advance? && move.tid == tid ==>
              Supplied(past + [move], tid, op, started, Some(Returned(move.supplied, |past|)))
  {
  }

  lemma PassesSupplied<K, V>(past: seq<Move<K, V>>, s: State<K, V>, s': State<K, V>, move: Move<K, V>)
    requires AllSupplied(past, s) && move.Advance? && move.tid in s.calls
    requires Passes(s, s', move.tid, move.supplied) && s'.steps == s.steps
    ensures AllSupplied(past + [move], s'.(steps := s.steps + 1))
  {
    hide Supplied;
    var moves, call := past + [move], s.calls[move.tid];
    assert CallSupplied(past, move.tid, call);
    SuppliedMore(past, move, move.tid, call.op, call.started, Held(call.pc));
    forall tid | tid in s'.calls ensures CallSupplied(moves, tid, s'.calls[tid]) {
      if tid != move.tid {
        assert CallSupplied(past, tid, s.calls[tid]);
        SuppliedMore(past, move, tid, s.calls[tid].op, s.calls[tid].started, Held(s.calls[tid].pc));
      }
    }
    forall i | 0 <= i < |s'.history| ensures OutcomeSupplied(moves, s'.history[i]) {
      if i < |s.history| {
        var o := s.history[i];
        assert s'.history[i] == o && OutcomeSupplied(past, o);
        SuppliedMore(past, move, o.tid, o.op, o.started, Recorded(o.ran));
      }
    }
  }

  lemma IdleSupplied<K, V>(past: seq<Move<K, V>>, s: State<K, V>, move: Move<K, V>)
    requires AllSupplied(past, s) && (move.Advance? ==> move.tid !in s.calls)
    ensures AllSupplied(past + [move], Step(s, move))
  {
    hide Supplied;
    var moves, s' := past + [move], Step(s, move);
    forall tid | tid in s'.calls ensures CallSupplied(moves, tid, s'.calls[tid]) {
      if tid in s.calls {
        assert CallSupplied(past, tid, s.calls[tid]);
        SuppliedMore(past, move, tid, s.calls[tid].op, s.calls[tid].started, Held(s.calls[tid].pc));
      } else {
        JustInvoked(past, move, move.op);
      }
    }
    forall i | 0 <= i < |s'.history| ensures OutcomeSupplied(moves, s'.history[i]) {
      var o := s.history[i];
      assert OutcomeSupplied(past, o);
      SuppliedMore(past, move, o.tid, o.op, o.started, Recorded(o.ran));
    }
  }

  lemma JustInvoked<K, V>(past: seq<Move<K, V>>, move: Move<K, V>, op: Op<K, V>)
    requires move.Invoke? && move.op == op
    ensures Supplied(past + [move], move.tid, op, |past|, None)
  {
  }

  lemma SuppliedStep<K, V>(past: seq<Move<K, V>>, s: State<K, V>, move: Move<K, V>)
    requires AllSupplied(past, s)
    ensures AllSupplied(past + [move], Step(s, move))
  {
    hide Moved, AllSupplied, Passes;
    if move.Advance? && move.tid in s.calls {
      AdvancePasses(s, move.tid, move.supplied);
      MovedSteps(s, move);
      PassesSupplied(past, s, Moved(s, move), move);
    } else {
      IdleSupplied(past, s, move);
    }
  }

  /** Whatever a callback is recorded to have returned was supplied to that very call, by its thread and after its
      invocation. */
  lemma {:induction false} ResultsAreSupplied<K, V>(moves: seq<Move<K, V>>)
    ensures AllSupplied(moves, Run(moves))
  {
    hide Step, AllSupplied, Run;
    if moves == [] {
      NothingSupplied(moves);
    } else {
      var n := |moves| - 1;
      ResultsAreSupplied(moves[..n]);
      SuppliedStep(moves[..n], Run(moves[..n]), moves[n]);
      RunOne(moves[..n], moves[n]);
      assert moves[..n] + [moves[n]] == moves;
    }
  }

  lemma NothingSupplied<K, V>(moves: seq<Move<K, V>>)
    requires moves == []
    ensures AllSupplied(moves, Run(moves))
  {
  }

  lemma RunOne<K, V>(moves: seq<Move<K, V>>, move: Move<K, V>)
    ensures Run(moves + [move]) == Step(Run(moves), move)
  {
    assert (moves + [move])[..|moves|] == moves;
  }

  lemma MovedSteps<K, V>(s: State<K, V>, move: Move<K, V>)
    ensures Moved(s, move).steps == s.steps
  {
  }
}
