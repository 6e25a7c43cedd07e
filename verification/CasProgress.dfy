/** The copy-on-write cache makes progress: a call alone finishes, and only a publication of another call delays it. */
module CasProgress {
  import opened Wrappers
  import opened CasCache

  /** Where a call of each operation can be. */
  predicate Fits<K, V>(call: Call<K, V>) {
    match call.op
    case Get(_) => call.pc.Called?
    case GetOrCompute(_) => call.pc.Called? || call.pc.Missed? || call.pc.Produced? || call.pc.ComputeReady?
    case Set(_, _) => call.pc.Called? || call.pc.SetReady?
    case SetAll(_) => call.pc.Called? || call.pc.SetAllHead? || call.pc.SetAllReady?
    case Transform(_) =>
      call.pc.Called? || call.pc.TransformHead? || call.pc.TransformLoaded? || call.pc.TransformReady?
  }

  /** The pointer a call has loaded and is to exchange. */
  function Pointer<K, V>(pc: Pc<K, V>): Option<nat> {
    match pc
    case ComputeReady(_, _, loaded) => Some(loaded)
    case SetReady(loaded) => Some(loaded)
    case SetAllReady(_, loaded) => Some(loaded)
    case TransformLoaded(_, _, loaded) => Some(loaded)
    case TransformReady(_, _, _, loaded) => Some(loaded)
    case _ => None
  }

  /** How many steps of its own a call needs at most, if no other call publishes and `published` maps are. */
  function Left<K, V>(call: Call<K, V>, published: nat): nat {
    match call.pc
    case Called =>
      (match call.op case Get(_) => 1 case Set(_, _) => 2 case SetAll(_) => 3 case _ => 4)
    case Missed(_) => 3
    case Produced(_, _) => 2
    case SetAllHead(_) => 2
    case TransformHead => 3
    case TransformLoaded(_, _, loaded) => if loaded == published then 2 else 5
    case TransformReady(_, _, _, loaded) => if loaded == published then 1 else 4
    case _ => if Pointer(call.pc) == Some(published) then 1 else 3
  }

  lemma LeftBounds<K, V>(call: Call<K, V>, published: nat, more: nat)
    ensures 1 <= Left(call, published) <= 5
    ensures published <= more ==> Left(call, more) <= Left(call, published) + 3 * (more - published)
  {
  }

  // ---------------------------------------------------------------------------------------------
  // One step
  // ---------------------------------------------------------------------------------------------

  /** The call goes on: nothing is published or finished, and it is closer to its end. It loads the current pointer,
      keeps it, or gives up one that is not current any more. */
  ghost predicate GoesOn<K, V>(s: State<K, V>, s': State<K, V>, tid: nat)
    requires tid in s.calls
  {
    var call := s.calls[tid];
    && tid in s'.calls && s'.calls == s.calls[tid := s'.calls[tid]]
    && s'.versions == s.versions && s'.history == s.history
    && s'.calls[tid] == call.(pc := s'.calls[tid].pc) && Fits(s'.calls[tid])
    && Left(s'.calls[tid], |s'.versions|) < Left(call, |s.versions|)
    && (match Pointer(s'.calls[tid].pc)
        case Some(p) => Pointer(call.pc) == Some(p) || (Pointer(call.pc).None? && p == |s.versions|)
        case None => Pointer(call.pc) != Some(|s.versions|))
  }

  /** The call finishes, with one outcome and at most one publication. */
  ghost predicate Finishes<K, V>(s: State<K, V>, s': State<K, V>, tid: nat)
    requires tid in s.calls
  {
    && s'.calls == s.calls - {tid}
    && |s.versions| <= |s'.versions| <= |s.versions| + 1
    && |s'.history| == |s.history| + 1 && s.history <= s'.history
    && var o := s'.history[|s.history|];
       o.tid == tid && o.op == s.calls[tid].op && o.invoked == s.calls[tid].invoked && o.started == s.calls[tid].started
  }

  ghost predicate Moves<K, V>(s: State<K, V>, s': State<K, V>, tid: nat)
    requires tid in s.calls
  {
    GoesOn(s, s', tid) || Finishes(s, s', tid)
  }

  lemma GotoMoves<K, V>(s: State<K, V>, tid: nat, pc: Pc<K, V>)
    requires tid in s.calls && Fits(s.calls[tid].(pc := pc))
    requires Left(s.calls[tid].(pc := pc), |s.versions|) < Left(s.calls[tid], |s.versions|)
    requires match Pointer(pc)
             case Some(p) =>
               Pointer(s.calls[tid].pc) == Some(p) || (Pointer(s.calls[tid].pc).None? && p == |s.versions|)
             case None => Pointer(s.calls[tid].pc) != Some(|s.versions|)
    ensures Moves(s, Goto(s, tid, pc), tid)
  {
  }

  lemma FinishMoves<K, V>(s: State<K, V>, published: State<K, V>, tid: nat, ran: Callback<V>, reply: Reply<V>,
                          point: nat)
    requires tid in s.calls && published == s.(versions := published.versions)
    requires |s.versions| <= |published.versions| <= |s.versions| + 1
    ensures Moves(s, FinishAt(published, tid, ran, reply, point), tid)
  {
  }

  lemma ComputeMoves<K, V>(s: State<K, V>, tid: nat, supplied: Option<V>)
    requires tid in s.calls && s.calls[tid].op.GetOrCompute? && Fits(s.calls[tid])
    ensures Moves(s, AdvanceCompute(s, tid, supplied), tid)
  {
    hide Moves, FinishAt, Goto, At;
    var key, n := s.calls[tid].op.key, |s.history|;
    match s.calls[tid].pc {
      case Called =>
        if key in Current(s) { FinishMoves(s, s, tid, NotRun, Value(Current(s)[key]), n); }
        else { GotoMoves(s, tid, Missed(n)); }
      case Missed(seen) =>
        if supplied.None? { FinishMoves(s, s, tid, ProducerRan(None, s.steps), Failed, seen); }
        else { GotoMoves(s, tid, Produced(supplied.value, s.steps)); }
      case Produced(v, step) =>
        if key in Current(s) { FinishMoves(s, s, tid, ProducerRan(Some(v), step), Value(Current(s)[key]), n); }
        else { GotoMoves(s, tid, ComputeReady(v, step, |s.versions|)); }
      case ComputeReady(v, step, loaded) =>
        if loaded == |s.versions| {
          var published := Publish(s, map[key := v] + At(s, loaded));
          FinishMoves(s, published, tid, ProducerRan(Some(v), step), Value(v), n);
        } else {
          GotoMoves(s, tid, Produced(v, step));
        }
    }
  }

  lemma SetMoves<K, V>(s: State<K, V>, tid: nat)
    requires tid in s.calls && s.calls[tid].op.Set? && Fits(s.calls[tid])
    ensures Moves(s, AdvanceSet(s, tid), tid)
  {
    hide Moves, FinishAt, Goto, At;
    var op := s.calls[tid].op;
    match s.calls[tid].pc {
      case Called => GotoMoves(s, tid, SetReady(|s.versions|));
      case SetReady(loaded) =>
        if loaded == |s.versions| {
          FinishMoves(s, Publish(s, map[op.key := op.value] + At(s, loaded)), tid, NotRun, Done, |s.history|);
        } else {
          GotoMoves(s, tid, Called);
        }
    }
  }

  lemma SetAllMoves<K, V>(s: State<K, V>, tid: nat)
    requires tid in s.calls && s.calls[tid].op.SetAll? && Fits(s.calls[tid])
    ensures Moves(s, AdvanceSetAll(s, tid), tid)
  {
    hide Moves, FinishAt, Goto, At;
    match s.calls[tid].pc {
      case Called => GotoMoves(s, tid, SetAllHead(s.calls[tid].op.entries));
      case SetAllHead(work) => GotoMoves(s, tid, SetAllReady(work + Current(s), |s.versions|));
      case SetAllReady(work, loaded) =>
        if loaded == |s.versions| {
          FinishMoves(s, Publish(s, work), tid, NotRun, Done, |s.history|);
        } else {
          GotoMoves(s, tid, SetAllHead(work));
        }
    }
  }

  lemma TransformMoves<K, V>(s: State<K, V>, tid: nat, supplied: Option<V>)
    requires tid in s.calls && s.calls[tid].op.Transform? && Fits(s.calls[tid])
    ensures Moves(s, AdvanceTransform(s, tid, supplied), tid)
  {
    hide Moves, FinishAt, Goto, At;
    var key, n := s.calls[tid].op.key, |s.history|;
    match s.calls[tid].pc {
      case Called =>
        if s.versions == [] { FinishMoves(s, s, tid, NotRun, Failed, n); } else { GotoMoves(s, tid, TransformHead); }
      case TransformHead =>
        if key !in Current(s) { FinishMoves(s, s, tid, NotRun, Failed, n); }
        else { GotoMoves(s, tid, TransformLoaded(Current(s)[key], n, |s.versions|)); }
      case TransformLoaded(before, seen, loaded) =>
        if supplied.None? { FinishMoves(s, s, tid, TransformerRan(before, None, s.steps), Failed, seen); }
        else { GotoMoves(s, tid, TransformReady(before, supplied.value, s.steps, loaded)); }
      case TransformReady(before, after, step, loaded) =>
        if loaded == |s.versions| {
          var published := Publish(s, At(s, loaded)[key := after]);
          FinishMoves(s, published, tid, TransformerRan(before, Some(after), step), Value(after), n);
        } else {
          GotoMoves(s, tid, TransformHead);
        }
    }
  }

  lemma AdvanceMoves<K, V>(s: State<K, V>, tid: nat, supplied: Option<V>)
    requires tid in s.calls && Fits(s.calls[tid])
    ensures Moves(s, Step(s, Advance(tid, supplied)), tid)
  {
    hide Moves, FinishAt, AdvanceCompute, AdvanceSet, AdvanceSetAll, AdvanceTransform;
    match s.calls[tid].op {
      case Get(key) =>
        var reply := if key in Current(s) then Value(Current(s)[key]) else Missing;
        FinishMoves(s, s, tid, NotRun, reply, |s.history|);
      case GetOrCompute(_) => ComputeMoves(s, tid, supplied);
      case Set(_, _) => SetMoves(s, tid);
      case SetAll(_) => SetAllMoves(s, tid);
      case Transform(_) => TransformMoves(s, tid, supplied);
    }
    StepsDoNotMatter(s, Moved(s, Advance(tid, supplied)), tid);
  }

  lemma StepsDoNotMatter<K, V>(s: State<K, V>, s': State<K, V>, tid: nat)
    requires tid in s.calls && Moves(s, s', tid)
    ensures forall steps: nat :: Moves(s, s'.(steps := steps), tid)
  {
  }

  /** What a step may change for a call of another thread: nothing but what is published and finished. */
  lemma OtherMoves<K, V>(s: State<K, V>, move: Move<K, V>, tid: nat)
    requires tid in s.calls && (forall t :: t in s.calls ==> Fits(s.calls[t]))
    requires move.Advance? ==> move.tid != tid
    ensures var s' := Step(s, move);
            && tid in s'.calls && s'.calls[tid] == s.calls[tid]
            && s.history <= s'.history && 0 <= |s'.versions| - |s.versions| <= |s'.history| - |s.history|
            && forall i :: |s.history| <= i < |s'.history| ==> s'.history[i].tid != tid
  {
    if move.Advance? && move.tid in s.calls {
      AdvanceMoves(s, move.tid, move.supplied);
      hide Step;
    }
  }

  lemma {:induction false} AllFit<K, V>(moves: seq<Move<K, V>>)
    ensures forall tid :: tid in Run(moves).calls ==> Fits(Run(moves).calls[tid])
  {
    if moves != [] {
      var past, move := moves[..|moves| - 1], moves[|moves| - 1];
      AllFit(past);
      var s := Run(past);
      if move.Advance? && move.tid in s.calls {
        AdvanceMoves(s, move.tid, move.supplied);
        hide Step, Fits;
      }
    }
  }

  // ---------------------------------------------------------------------------------------------
  // Lock-freedom
  // ---------------------------------------------------------------------------------------------

  /** How many steps of the schedule are steps of the thread. */
  function Own<K, V>(moves: seq<Move<K, V>>, tid: nat): nat {
    if moves == [] then 0
    else
      var move := moves[|moves| - 1];
      Own(moves[..|moves| - 1], tid) + if move.Advance? && move.tid == tid then 1 else 0
  }

  /** The call of the thread does not finish during the moves. */
  ghost predicate Pending<K, V>(moves: seq<Move<K, V>>, more: seq<Move<K, V>>, tid: nat) {
    forall k :: 0 <= k <= |more| ==> tid in Run(moves + more[..k]).calls
  }

  lemma PendingPast<K, V>(moves: seq<Move<K, V>>, more: seq<Move<K, V>>, tid: nat)
    requires Pending(moves, more, tid)
    ensures tid in Run(moves).calls && tid in Run(moves + more).calls
    ensures more != [] ==> Pending(moves, more[..|more| - 1], tid)
  {
    assert moves + more[..0] == moves && more[..|more|] == more;
    if more != [] {
      var past := more[..|more| - 1];
      assert forall k :: 0 <= k <= |past| ==> past[..k] == more[..k];
    }
  }

  /** What happened while the call was pending. */
  ghost predicate Delayed<K, V>(s: State<K, V>, s': State<K, V>, tid: nat, own: nat)
    requires tid in s.calls && tid in s'.calls
  {
    && own + Left(s'.calls[tid], |s'.versions|) <=
       Left(s.calls[tid], |s.versions|) + 3 * (|s'.versions| - |s.versions|)
    && s.history <= s'.history && 0 <= |s'.versions| - |s.versions| <= |s'.history| - |s.history|
    && (forall i :: |s.history| <= i < |s'.history| ==> s'.history[i].tid != tid)
  }

  lemma DelayedStep<K, V>(s: State<K, V>, s': State<K, V>, move: Move<K, V>, tid: nat, own: nat)
    requires tid in s.calls && tid in s'.calls && Delayed(s, s', tid, own) && tid in Step(s', move).calls
    requires forall t :: t in s'.calls ==> Fits(s'.calls[t])
    ensures Delayed(s, Step(s', move), tid, own + if move.Advance? && move.tid == tid then 1 else 0)
  {
    hide Step, Left, Fits;
    if move.Advance? && move.tid == tid {
      AdvanceMoves(s', tid, move.supplied);
    } else {
      OtherMoves(s', move, tid);
      LeftBounds(s'.calls[tid], |s'.versions|, |Step(s', move).versions|);
    }
  }

  lemma {:induction false} DelayedRun<K, V>(moves: seq<Move<K, V>>, more: seq<Move<K, V>>, tid: nat)
    requires Pending(moves, more, tid)
    ensures tid in Run(moves).calls && tid in Run(moves + more).calls
    ensures Delayed(Run(moves), Run(moves + more), tid, Own(more, tid))
  {
    hide Step, Run, Left, Pending;
    PendingPast(moves, more, tid);
    if more == [] {
      assert moves + more == moves;
    } else {
      var past, move := more[..|more| - 1], more[|more| - 1];
      DelayedRun(moves, past, tid);
      RunOne(moves + past, move);
      assert moves + past + [move] == moves + more;
      AllFit(moves + past);
      DelayedStep(Run(moves), Run(moves + past), move, tid, Own(past, tid));
    }
  }

  /** In every schedule, a call that does not finish takes at most four steps of its own, and three more for every map
      that other calls publish meanwhile; each of these publications finishes a call of another thread. */
  lemma LockFree<K, V>(moves: seq<Move<K, V>>, more: seq<Move<K, V>>, tid: nat)
    requires Pending(moves, more, tid)
    ensures var s, s' := Run(moves), Run(moves + more);
            && Own(more, tid) <= 4 + 3 * (|s'.versions| - |s.versions|)
            && s.history <= s'.history && |s'.versions| - |s.versions| <= |s'.history| - |s.history|
            && forall i :: |s.history| <= i < |s'.history| ==> s'.history[i].tid != tid
  {
    hide Run, Pending, Left;
    DelayedRun(moves, more, tid);
    var s, s' := Run(moves), Run(moves + more);
    LeftBounds(s.calls[tid], |s.versions|, |s.versions|);
    LeftBounds(s'.calls[tid], |s'.versions|, |s'.versions|);
  }

  // ---------------------------------------------------------------------------------------------
  // Why a call goes back to the head of its loop
  // ---------------------------------------------------------------------------------------------

  /** After the moves the call of the thread holds this pointer. */
  ghost predicate Holds<K, V>(moves: seq<Move<K, V>>, tid: nat, p: nat) {
    tid in Run(moves).calls && Pointer(Run(moves).calls[tid].pc) == Some(p)
  }

  /** The thread has held this pointer since step `i`. */
  ghost predicate HeldSince<K, V>(moves: seq<Move<K, V>>, tid: nat, p: nat, i: nat) {
    forall k :: i < k <= |moves| ==> Holds(moves[..k], tid, p)
  }

  /** A pointer is kept, or it is the current one and the step is the one that loads it. */
  lemma LoadsNow<K, V>(s: State<K, V>, move: Move<K, V>, tid: nat, p: nat)
    requires forall t :: t in s.calls ==> Fits(s.calls[t])
    requires tid in Step(s, move).calls && Pointer(Step(s, move).calls[tid].pc) == Some(p)
    ensures tid in s.calls
    ensures Pointer(s.calls[tid].pc) != Some(p) ==>
              move.Advance? && move.tid == tid && p == |s.versions| == |Step(s, move).versions|
  {
    hide Step, Fits, Left;
    JustCalled(s, move, tid);
    if move.Advance? && move.tid == tid {
      AdvanceMoves(s, tid, move.supplied);
    } else {
      OtherMoves(s, move, tid);
    }
  }

  lemma JustCalled<K, V>(s: State<K, V>, move: Move<K, V>, tid: nat)
    requires forall t :: t in s.calls ==> Fits(s.calls[t])
    requires tid in Step(s, move).calls
    ensures tid !in s.calls ==> Step(s, move).calls[tid].pc.Called?
  {
    if move.Advance? && move.tid in s.calls {
      AdvanceMoves(s, move.tid, move.supplied);
      hide Step;
    }
  }

  /** The step in which the pointer was loaded. */
  lemma {:induction false} LastLoad<K, V>(moves: seq<Move<K, V>>, tid: nat, p: nat) returns (i: nat)
    requires tid in Run(moves).calls && Pointer(Run(moves).calls[tid].pc) == Some(p)
    ensures i < |moves| && moves[i].Advance? && moves[i].tid == tid
    ensures p == |Run(moves[..i]).versions| == |Run(moves[..i + 1]).versions| && HeldSince(moves, tid, p, i)
  {
    hide Step, Run, Pointer, Fits;
    SomethingMoved(moves, tid);
    var n := |moves| - 1;
    var past := moves[..n];
    assert past + [moves[n]] == moves == moves[..n + 1];
    RunOne(past, moves[n]);
    AllFit(past);
    LoadsNow(Run(past), moves[n], tid, p);
    if Pointer(Run(past).calls[tid].pc) == Some(p) {
      i := LastLoad(past, tid, p);
      assert past[..i] == moves[..i] && past[..i + 1] == moves[..i + 1];
      HeldLonger(moves, tid, p, i);
    } else {
      i := n;
    }
  }

  lemma SomethingMoved<K, V>(moves: seq<Move<K, V>>, tid: nat)
    requires tid in Run(moves).calls
    ensures moves != []
  {
  }

  lemma HeldLonger<K, V>(moves: seq<Move<K, V>>, tid: nat, p: nat, i: nat)
    requires moves != [] && HeldSince(moves[..|moves| - 1], tid, p, i)
    requires Holds(moves, tid, p)
    ensures HeldSince(moves, tid, p, i)
  {
    hide Holds;
    var past := moves[..|moves| - 1];
    forall k | i < k <= |moves| ensures Holds(moves[..k], tid, p) {
      if k < |moves| {
        assert past[..k] == moves[..k];
      } else {
        assert moves[..k] == moves;
      }
    }
  }

  /** A step in which a map is published. */
  lemma {:induction false} SomePublication<K, V>(moves: seq<Move<K, V>>, i: nat) returns (j: nat)
    requires i <= |moves| && |Run(moves[..i]).versions| < |Run(moves).versions|
    ensures i <= j < |moves| && |Run(moves[..j]).versions| < |Run(moves[..j + 1]).versions|
  {
    hide Run;
    assert moves[..|moves|] == moves;
    var n := |moves| - 1;
    if |Run(moves[..n]).versions| < |Run(moves).versions| {
      j := n;
    } else {
      var past := moves[..n];
      assert past[..i] == moves[..i];
      j := SomePublication(past, i);
      assert past[..j] == moves[..j] && past[..j + 1] == moves[..j + 1];
    }
  }

  /** A call goes back to the head of its loop only if, since it loaded the pointer, a call of another thread
      published a map; otherwise its exchange succeeds. */
  lemma RetriesOnlyIfPublished<K, V>(moves: seq<Move<K, V>>, tid: nat, supplied: Option<V>) returns (i: nat, j: nat)
    requires tid in Run(moves).calls && Pointer(Run(moves).calls[tid].pc).Some?
    requires var s' := Run(moves + [Advance(tid, supplied)]);
             tid in s'.calls && Pointer(s'.calls[tid].pc).None?
    ensures i < j < |moves|
    ensures moves[i].Advance? && moves[i].tid == tid
    ensures HeldSince(moves, tid, |Run(moves[..i]).versions|, i)
    ensures moves[j].Advance? && moves[j].tid != tid
    ensures |Run(moves[..j]).versions| < |Run(moves[..j + 1]).versions|
  {
    hide Run, Holds;
    var p := Pointer(Run(moves).calls[tid].pc).value;
    NotCurrent(moves, tid, supplied);
    i := LastLoad(moves, tid, p);
    PointerIsOld(moves, tid);
    j := SomePublication(moves, i + 1);
    PublisherIsAnother(moves, tid, p, i, j);
  }

  lemma NotCurrent<K, V>(moves: seq<Move<K, V>>, tid: nat, supplied: Option<V>)
    requires tid in Run(moves).calls && Pointer(Run(moves).calls[tid].pc).Some?
    requires var s' := Run(moves + [Advance(tid, supplied)]);
             tid in s'.calls && Pointer(s'.calls[tid].pc).None?
    ensures Pointer(Run(moves).calls[tid].pc) != Some(|Run(moves).versions|)
  {
    hide Run, Step, Fits, Left;
    RunOne(moves, Advance(tid, supplied));
    AllFit(moves);
    AdvanceMoves(Run(moves), tid, supplied);
  }

  /** A loaded pointer is one that was published. */
  lemma PointerIsOld<K, V>(moves: seq<Move<K, V>>, tid: nat)
    requires tid in Run(moves).calls && Pointer(Run(moves).calls[tid].pc).Some?
    ensures Pointer(Run(moves).calls[tid].pc).value <= |Run(moves).versions|
  {
    hide Run;
    var p := Pointer(Run(moves).calls[tid].pc).value;
    var i := LastLoad(moves, tid, p);
    VersionsGrow(moves, i);
  }

  lemma {:induction false} VersionsGrow<K, V>(moves: seq<Move<K, V>>, i: nat)
    requires i <= |moves|
    ensures |Run(moves[..i]).versions| <= |Run(moves).versions|
  {
    if i == |moves| {
      assert moves[..i] == moves;
    } else {
      var past, move := moves[..|moves| - 1], moves[|moves| - 1];
      assert past[..i] == moves[..i];
      VersionsGrow(past, i);
      AllFit(past);
      if move.Advance? && move.tid in Run(past).calls {
        AdvanceMoves(Run(past), move.tid, move.supplied);
        hide Step;
      }
    }
  }

  lemma PublisherIsAnother<K, V>(moves: seq<Move<K, V>>, tid: nat, p: nat, i: nat, j: nat)
    requires i < j < |moves| && HeldSince(moves, tid, p, i)
    requires |Run(moves[..j]).versions| < |Run(moves[..j + 1]).versions|
    ensures moves[j].Advance? && moves[j].tid != tid
  {
    var past := moves[..j];
    assert moves[..j + 1] == past + [moves[j]];
    RunOne(past, moves[j]);
    AllFit(past);
    assert Holds(moves[..j], tid, p) && Holds(moves[..j + 1], tid, p);
    if moves[j].Advance? && moves[j].tid == tid {
      AdvanceMoves(Run(past), tid, moves[j].supplied);
    }
  }

  // ---------------------------------------------------------------------------------------------
  // A call that runs alone
  // ---------------------------------------------------------------------------------------------

  function Alone<K, V>(tid: nat, supplied: seq<Option<V>>): seq<Move<K, V>> {
    seq(|supplied|, i requires 0 <= i < |supplied| => Advance(tid, supplied[i]))
  }

  /** The call, and no other, has finished. */
  ghost predicate HasFinished<K, V>(s: State<K, V>, s': State<K, V>, tid: nat)
    requires tid in s.calls
  {
    && s'.calls == s.calls - {tid}
    && |s'.history| == |s.history| + 1 && s.history <= s'.history
    && var o := s'.history[|s.history|];
       o.tid == tid && o.op == s.calls[tid].op && o.invoked == s.calls[tid].invoked
  }

  lemma {:induction false} AloneEnds<K, V>(moves: seq<Move<K, V>>, tid: nat, supplied: seq<Option<V>>)
    requires tid in Run(moves).calls && |supplied| >= Left(Run(moves).calls[tid], |Run(moves).versions|)
    ensures HasFinished(Run(moves), Run(moves + Alone(tid, supplied)), tid)
    decreases |supplied|
  {
    var s := Run(moves);
    LeftBounds(s.calls[tid], |s.versions|, |s.versions|);
    var first, rest := Advance(tid, supplied[0]), supplied[1..];
    RunOne(moves, first);
    AllFit(moves);
    AdvanceMoves(s, tid, supplied[0]);
    hide Step, Run, Left, Fits;
    assert Alone(tid, supplied) == [first] + Alone(tid, rest);
    assert moves + Alone(tid, supplied) == moves + [first] + Alone(tid, rest);
    if tid in Run(moves + [first]).calls {
      AloneEnds(moves + [first], tid, rest);
    } else {
      NothingLeft(moves + [first], tid, rest);
    }
  }

  /** Steps of a thread without a call do nothing. */
  lemma {:induction false} NothingLeft<K, V>(moves: seq<Move<K, V>>, tid: nat, supplied: seq<Option<V>>)
    requires tid !in Run(moves).calls
    ensures var s := Run(moves);
            Run(moves + Alone(tid, supplied)) == s.(steps := s.steps + |supplied|)
    decreases |supplied|
  {
    if supplied == [] {
      assert moves + Alone(tid, supplied) == moves;
    } else {
      var first, rest := Advance(tid, supplied[0]), supplied[1..];
      RunOne(moves, first);
      assert Alone(tid, supplied) == [first] + Alone(tid, rest);
      assert moves + Alone(tid, supplied) == moves + [first] + Alone(tid, rest);
      NothingLeft(moves + [first], tid, rest);
    }
  }

  /** From every reachable state, five steps of a call are enough if no other call moves, whatever its callback
      returns. */
  lemma AloneFinishes<K, V>(moves: seq<Move<K, V>>, tid: nat, supplied: seq<Option<V>>)
    requires tid in Run(moves).calls && |supplied| >= 5
    ensures HasFinished(Run(moves), Run(moves + Alone(tid, supplied)), tid)
  {
    hide Run, Left;
    var s := Run(moves);
    LeftBounds(s.calls[tid], |s.versions|, |s.versions|);
    AloneEnds(moves, tid, supplied);
  }

  function Undisturbed<K, V>(tid: nat, op: Op<K, V>, supplied: seq<Option<V>>): seq<Move<K, V>> {
    [Invoke(tid, op)] + Alone(tid, supplied)
  }

  /** An undisturbed call of every operation is the atomic operation on what is published. */
  lemma UndisturbedIsAtomic<K, V>(moves: seq<Move<K, V>>, tid: nat, op: Op<K, V>, supplied: seq<Option<V>>)
    requires tid !in Run(moves).calls && |supplied| >= 5
    ensures var s, s' := Run(moves), Run(moves + Undisturbed(tid, op, supplied));
            && s'.calls == s.calls
            && |s'.history| == |s.history| + 1 && s.history <= s'.history
            && s'.history[|s.history|].op == op && s'.history[|s.history|].tid == tid
            && Answers(Current(s), s'.history[|s.history|])
            && Current(s') == Effect(Current(s), s'.history[|s.history|])
  {
    hide Run, Answers, Effect, Current, Alone;
    var invoked := moves + [Invoke(tid, op)];
    var all := moves + Undisturbed(tid, op, supplied);
    assert all == invoked + Alone(tid, supplied);
    Invoked(moves, tid, op);
    AloneFinishes(invoked, tid, supplied);
    HistoryIsAtomic(moves);
    HistoryIsAtomic(all);
    AtomicLast(Run(moves).history, Run(all).history);
  }

  lemma Invoked<K, V>(moves: seq<Move<K, V>>, tid: nat, op: Op<K, V>)
    requires tid !in Run(moves).calls
    ensures var s, s' := Run(moves), Run(moves + [Invoke(tid, op)]);
            && tid in s'.calls && s'.calls - {tid} == s.calls && s'.history == s.history
            && s'.calls[tid].op == op && s'.calls[tid].invoked == |s.history|
  {
    RunOne(moves, Invoke(tid, op));
  }

  lemma HistoryIsAtomic<K, V>(moves: seq<Move<K, V>>)
    ensures Atomic(Run(moves).history) && Current(Run(moves)) == Replay(Run(moves).history)
  {
    hide Run;
    Linearizable(moves);
  }

  lemma AtomicLast<K, V>(h: seq<Outcome<K, V>>, h': seq<Outcome<K, V>>)
    requires Atomic(h') && |h'| == |h| + 1 && h <= h' && h'[|h|].invoked == |h|
    ensures Answers(Replay(h), h'[|h|]) && Replay(h') == Effect(Replay(h), h'[|h|])
  {
    assert AtomicAt(h', |h|);
    assert h'[..|h|] == h;
  }

  /** After an undisturbed bulk set, a lookup of one of its keys answers what was published before, or else the value
      that was set. */
  lemma SetAllThenGet<K, V>(moves: seq<Move<K, V>>, tid: nat, entries: map<K, V>, key: K, a: seq<Option<V>>,
                            b: seq<Option<V>>)
    requires tid !in Run(moves).calls && |a| >= 5 && |b| >= 5 && key in entries
    ensures var s := Run(moves);
            var s' := Run(moves + Undisturbed(tid, SetAll(entries), a) + Undisturbed(tid, Get(key), b));
            && |s'.history| == |s.history| + 2
            && s'.history[|s.history| + 1].reply == Value(if key in Current(s) then Current(s)[key] else entries[key])
  {
    hide Run, Current;
    UndisturbedIsAtomic(moves, tid, SetAll(entries), a);
    UndisturbedIsAtomic(moves + Undisturbed(tid, SetAll(entries), a), tid, Get(key), b);
  }

  lemma SetThenGet<K, V>(moves: seq<Move<K, V>>, tid: nat, key: K, value: V, a: seq<Option<V>>, b: seq<Option<V>>)
    requires tid !in Run(moves).calls && |a| >= 5 && |b| >= 5
    ensures var s := Run(moves);
            var s' := Run(moves + Undisturbed(tid, Set(key, value), a) + Undisturbed(tid, Get(key), b));
            && |s'.history| == |s.history| + 2
            && s'.history[|s.history| + 1].reply == Value(if key in Current(s) then Current(s)[key] else value)
  {
    hide Run, Current;
    UndisturbedIsAtomic(moves, tid, Set(key, value), a);
    UndisturbedIsAtomic(moves + Undisturbed(tid, Set(key, value), a), tid, Get(key), b);
  }
}
