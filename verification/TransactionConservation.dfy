/** Nothing wanted is lost, over whole streams and from any Begin on, up to the message that ends the tracker. */
module TransactionConservation {
  import opened Wal
  import opened TransactionTracker
  import opened TransactionWindow
  import opened TransactionNotes
  import opened TransactionSurvival

  /** After `before`, the messages neither nest transactions nor change the status of a chunk. */
  predicate QuietSince(before: seq<Event>, body: seq<Event>) {
    forall k :: 0 <= k < |body| ==>
      && KeepsStatus(Announced(before + body[..k]), body[k])
      && (body[k].msg.Begin? ==> !InTransaction(before + body[..k]))
  }

  /** What the messages after `before` are to contribute, in stream order. */
  function ExpectedSince(c: Config, before: seq<Event>, body: seq<Event>): seq<Call> {
    if body == [] then []
    else
      var past := before + Past(body);
      ExpectedSince(c, before, Past(body)) + Adds(c, Announced(past), Entry(|past|, Latest(body).msg))
  }

  lemma SteadyAtBegin(c: Config, maxSize: nat, past: seq<Event>, begin: Event)
    requires !c.markers && begin.msg.Begin? && Run(c, maxSize, past + [begin]).health == Running
    ensures Steady(Run(c, maxSize, past + [begin]), past + [begin])
  {
    var evs := past + [begin];
    assert Past(evs) == past;
    StreamNotes(c, maxSize, evs);
  }

  lemma RunningBefore(c: Config, maxSize: nat, evs: seq<Event>)
    requires evs != [] && Run(c, maxSize, evs).health == Running
    ensures Run(c, maxSize, Past(evs)).health == Running
  {
  }

  lemma QuietSincePrefix(before: seq<Event>, body: seq<Event>, n: nat)
    requires QuietSince(before, body) && n <= |body|
    ensures QuietSince(before, body[..n])
  {
    assert forall k :: 0 <= k < n ==> body[..n][..k] == body[..k] && body[..n][k] == body[k];
  }

  lemma {:induction false} RunningSinceBegin(c: Config, maxSize: nat, past: seq<Event>, begin: Event, body: seq<Event>)
    requires !c.markers && begin.msg.Begin? && QuietSince(past + [begin], body)
    requires Run(c, maxSize, past + [begin] + body).health == Running
    ensures Steady(Run(c, maxSize, past + [begin] + body), past + [begin] + body)
    ensures Line(Run(c, maxSize, past + [begin] + body)) ==
            Select(Run(c, maxSize, past + [begin]).calls, InLine) + ExpectedSince(c, past + [begin], body)
    ensures !InTransaction(past + [begin] + body) ==>
              Select(Run(c, maxSize, past + [begin] + body).calls, InLine) ==
              Select(Run(c, maxSize, past + [begin]).calls, InLine) + ExpectedSince(c, past + [begin], body)
  {
    hide Run, Step, Select, Adds, Announced, InTransaction, KeepsStatus, Tidy;
    var before := past + [begin];
    var evs := before + body;
    if body == [] {
      assert evs == before;
      SteadyAtBegin(c, maxSize, past, begin);
      NothingAtBegin(c, maxSize, past, begin);
    } else {
      var n := |body| - 1;
      assert Past(evs) == before + Past(body) && Latest(evs) == Latest(body);
      assert Past(body) == body[..n];
      RunningBefore(c, maxSize, evs);
      assert QuietSince(before, Past(body)) by { QuietSincePrefix(before, body, n); }
      RunningSinceBegin(c, maxSize, past, begin, Past(body));
      assert KeepsStatus(Announced(before + body[..n]), body[n]);
      RunOne(c, maxSize, evs);
      QuietStep(c, Run(c, maxSize, Past(evs)), evs);
      assert LatestEntry(evs) == Entry(|before + Past(body)|, Latest(body).msg);
    }
  }

  lemma RunOne(c: Config, maxSize: nat, evs: seq<Event>)
    requires evs != []
    ensures Run(c, maxSize, evs) == Step(c, Run(c, maxSize, Past(evs)), |evs| - 1, Latest(evs))
  {
  }

  /** A transaction begins with nothing queued. */
  lemma NothingAtBegin(c: Config, maxSize: nat, past: seq<Event>, begin: Event)
    requires !c.markers && begin.msg.Begin? && Run(c, maxSize, past + [begin]).health == Running
    ensures Run(c, maxSize, past + [begin]).queue == []
  {
    assert Past(past + [begin]) == past;
    RunningBefore(c, maxSize, past + [begin]);
  }

  // ---------------------------------------------------------------------------------------------
  // Up to the message that ends the tracker
  // ---------------------------------------------------------------------------------------------

  lemma {:induction false} QuietPrefix(evs: seq<Event>, n: nat)
    requires Quiet(evs) && Bracketed(evs) && n <= |evs|
    ensures Quiet(evs[..n]) && Bracketed(evs[..n])
  {
    if n == |evs| {
      assert evs[..n] == evs;
    } else {
      QuietPrefix(Past(evs), n);
      assert Past(evs)[..n] == evs[..n];
    }
  }

  /** As long as transactions do not nest and no chunk changes between compressed and uncompressed, the delivered
      messages followed by those still queued are the wanted messages and commits in stream order, after every message
      and whatever times out or overflows, up to the message that ends the tracker. */
  lemma Conservation(c: Config, maxSize: nat, evs: seq<Event>)
    requires !c.markers && Quiet(evs) && Bracketed(evs)
    ensures var h := Handled(c, maxSize, evs);
            && Line(Run(c, maxSize, evs)) == Expected(c, h)
            && Select(Run(c, maxSize, evs).calls, OutOfLine) == Immediate(h)
            && Steady(Run(c, maxSize, h), h)
  {
    hide Run, Handled, Quiet, Bracketed, Expected, Immediate, Steady;
    var h := Handled(c, maxSize, evs);
    assert h == evs[..|h|];
    QuietPrefix(evs, |h|);
    RunHandled(c, maxSize, evs);
    RunningConserves(c, maxSize, h);
  }

  /** When a transaction has committed, everything it contained was handed on before its commit. */
  lemma CommittedIsDelivered(c: Config, maxSize: nat, evs: seq<Event>)
    requires !c.markers && Quiet(evs) && Bracketed(evs) && Survives(c, maxSize, evs) && !InTransaction(evs)
    ensures Run(c, maxSize, evs).queue == []
    ensures Select(Run(c, maxSize, evs).calls, InLine) == Expected(c, evs)
  {
    hide Run, Handled, Quiet, Bracketed, Expected, Survives, Select, InTransaction;
    HandledExactly(c, maxSize, evs);
    Conservation(c, maxSize, evs);
  }

  lemma {:induction false} HandledGrows(c: Config, maxSize: nat, evs: seq<Event>, more: seq<Event>)
    requires Handled(c, maxSize, evs) == evs
    ensures evs <= Handled(c, maxSize, evs + more)
  {
    hide EndsOn;
    if more == [] {
      assert evs + more == evs;
    } else {
      assert Past(evs + more) == evs + Past(more);
      HandledGrows(c, maxSize, evs, Past(more));
    }
  }

  lemma HandledBegin(c: Config, maxSize: nat, past: seq<Event>, begin: Event, body: seq<Event>)
    requires Survives(c, maxSize, past) && begin.msg.Begin?
    ensures past + [begin] <= Handled(c, maxSize, past + [begin] + body)
  {
    hide Survives, LastDecompression, DrainedEarly, SubmittedSince, Announced, InTransaction;
    HandledExactly(c, maxSize, past);
    assert Past(past + [begin]) == past;
    assert Handled(c, maxSize, past + [begin]) == past + [begin];
    HandledGrows(c, maxSize, past + [begin], body);
  }

  /** From the Begin of any transaction on, and as long as no chunk changes its status: whatever happened before and
      whatever times out or overflows, what was delivered at the Begin is followed by the wanted messages and commits
      since then, delivered or still queued, in stream order, up to the message that ends the tracker. At the end of a
      transaction all of them are delivered. */
  lemma SinceBegin(c: Config, maxSize: nat, past: seq<Event>, begin: Event, body: seq<Event>)
    requires !c.markers && begin.msg.Begin? && Survives(c, maxSize, past) && QuietSince(past + [begin], body)
    ensures var before := past + [begin];
            var h := Handled(c, maxSize, before + body);
            var s := Run(c, maxSize, before + body);
            && before <= h
            && Line(s) == Select(Run(c, maxSize, before).calls, InLine) + ExpectedSince(c, before, h[|before|..])
            && (!InTransaction(h) ==> s.queue == [] && Select(s.calls, InLine) == Line(s))
  {
    hide Run, Handled, Survives, QuietSince, ExpectedSince, InTransaction, Select, Tidy;
    var before := past + [begin];
    var h := Handled(c, maxSize, before + body);
    HandledBegin(c, maxSize, past, begin, body);
    var rest := h[|before|..];
    assert h == before + rest && rest == body[..|rest|];
    QuietSincePrefix(before, body, |rest|);
    RunHandled(c, maxSize, before + body);
    RunningSinceBegin(c, maxSize, past, begin, rest);
  }
}
