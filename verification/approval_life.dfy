/**
 A run from its start to its end, gate included: what the worker does between
 waits, stop requests, and everyone else's calls (backend/agents/orchestrator.py,
 backend/api/task_service.py). One event loop runs them all, so others act only
 while the worker waits or after the run has settled.
 */
module ApprovalLife {
  import opened Wrappers
  import opened Approval
  import opened ApprovalRuns

  /** A model call is polled for a stop while it is waited for; a tool call or a routing decision is not. */
  datatype Phase = Working | Waiting(polled: bool) | Settled

  /** `stop` is the request noted in `_cancelled`. */
  datatype Life = Life(world: World, phase: Phase, stop: bool)

  datatype Moment =
    | Rewrite(revised: Task)                                 // the run records what it has found
    | Stage                                                  // a stage call before the gate
    | BeginWait(polled: bool)                                // a model call, or a call that ignores stops
    | Wake(done: bool)                                       // the call answered, or time passed and a poll if there is one
    | Gate(required: bool, record: ApprovalRecord, rendered: Option<Deliverable>)
    | Outside(e: Event)

  /** Only the render at the gate adds a deliverable, and only a decision a signature. */
  function Worked(t: Task, revised: Task): Task
  {
    revised.(status := t.status, submitter := t.submitter, approval := t.approval, deliverables := t.deliverables)
  }

  /**
   The end of a run, from the render to the last stage call: no wait in it suspends. The flags are set
   first on the path without review; the stop is honoured by the stage call.
   */
  function AtGate(
      t: Task, policyFiles: string, required: bool, record: ApprovalRecord, rendered: Option<Deliverable>, stop: bool): Task
  {
    var drafted := if t.drafted && rendered.Some? then t.deliverables + [rendered.value.(released := false)] else t.deliverables;
    var ready := t.(approval := record.(signatures := []),
                    deliverables := if !required && t.drafted then AllReleased(drafted, true) else drafted);
    Persist(ready.(status := if stop then Cancelled else if required then Awaiting else Delivered), policyFiles)
  }

  function Stopped(l: Life): Life
  {
    l.(world := l.world.(task := l.world.task.(status := Cancelled)), phase := Settled)
  }

  function StepLife(l: Life, m: Moment): Life
  {
    var t := l.world.task;
    match m
    case Rewrite(revised) => if l.phase.Working? then l.(world := l.world.(task := Worked(t, revised))) else l
    case Stage => if l.phase.Working? && l.stop then Stopped(l) else l
    case BeginWait(polled) =>
      if !l.phase.Working? then l else if polled && l.stop then Stopped(l) else l.(phase := Waiting(polled))
    case Wake(done) =>
      if !l.phase.Waiting? then l
      else if done then l.(phase := Working)
      else if l.phase.polled && l.stop then Stopped(l)
      else l
    case Gate(required, record, rendered) =>
      if !l.phase.Working? then l
      else l.(world := l.world.(task := AtGate(t, l.world.policyFiles, required, record, rendered, l.stop)), phase := Settled)
    case Outside(e) =>
      if l.phase.Working? || (l.phase.Waiting? && e.Restart?) then l
      else l.(world := Next(l.world, e),
              stop := l.stop || (e.CancellationBy? && Cancel(t, l.world.policyFiles, e.u).1 == Changed))
  }

  function Live(l: Life, ms: seq<Moment>): Life
    decreases |ms|
  {
    if ms == [] then l else StepLife(Live(l, ms[..|ms| - 1]), ms[|ms| - 1])
  }

  /** A run as a worker starts it, or anywhere before its gate. */
  ghost predicate Underway(l: Life)
  {
    && !l.phase.Settled? && l.world.task.status == Executing
    && l.world.task.approval.signatures == [] && l.world.task.deliverables == []
  }

  /** A released deliverable on a run that is not delivered. */
  predicate Stray(t: Task)
  {
    t.status != Delivered && exists i :: 0 <= i < |t.deliverables| && t.deliverables[i].released
  }

  /** The one moment that leaves one: a gate without review, something drafted to release, and a stop still pending. */
  predicate Strays(l: Life, m: Moment)
  {
    && l.phase.Working? && l.stop && m.Gate? && !m.required && l.world.task.drafted && m.rendered.Some?
  }

  predicate EverStrays(l: Life, ms: seq<Moment>)
  {
    ms != [] && (EverStrays(l, ms[..|ms| - 1]) || Strays(Live(l, ms[..|ms| - 1]), ms[|ms| - 1]))
  }

  ghost predicate LifeInv(l: Life)
  {
    && (!l.phase.Settled? ==> Underway(l))
    && (l.phase.Settled? ==> Inv(l.world.task) || (Stray(l.world.task) && l.world.task.status == Cancelled))
  }

  lemma CancelledIsFinal(w: World, e: Event)
    requires w.task.status == Cancelled
    ensures Next(w, e).task == w.task
  {
  }

  lemma ExecutingIsLeftAlone(w: World, e: Event)
    requires w.task.status == Executing
    ensures Next(w, e).task == w.task
  {
  }

  /** At the gate there is at most the one deliverable just rendered. */
  lemma GateDeliverables(l: Life, m: Moment)
    requires Underway(l) && l.phase.Working? && m.Gate?
    ensures StepLife(l, m).world.task.deliverables ==
            if l.world.task.drafted && m.rendered.Some? then [m.rendered.value.(released := !m.required)] else []
  {
    if m.rendered.Some? {
      var one := m.rendered.value.(released := false);
      assert [] + [one] == [one];
      assert AllReleased([one], true) == [one.(released := true)];
    }
  }

  lemma GateOutcome(l: Life, m: Moment)
    requires Underway(l) && l.phase.Working? && m.Gate?
    ensures var t := StepLife(l, m).world.task;
            && (Inv(t) || (Stray(t) && t.status == Cancelled))
            && (Stray(t) <==> Strays(l, m))
  {
    GateDeliverables(l, m);
    var t := StepLife(l, m).world.task;
    assert t.approval.signatures == [];
    if Strays(l, m) {
      assert t.deliverables[0].released;
    }
  }

  lemma StepKeepsLife(l: Life, m: Moment)
    requires LifeInv(l)
    ensures LifeInv(StepLife(l, m))
    ensures Stray(StepLife(l, m).world.task) <==> Stray(l.world.task) || Strays(l, m)
  {
    match m
    case Gate(_, _, _) =>
      if l.phase.Working? {
        GateOutcome(l, m);
      }
    case Outside(e) =>
      if l.phase.Waiting? {
        ExecutingIsLeftAlone(l.world, e);
      } else if l.phase.Settled? {
        OutsideKeepsSettled(l, e);
      }
    case _ =>
  }

  lemma OutsideKeepsSettled(l: Life, e: Event)
    requires LifeInv(l) && l.phase.Settled?
    ensures LifeInv(StepLife(l, Outside(e)))
    ensures Stray(StepLife(l, Outside(e)).world.task) <==> Stray(l.world.task)
  {
    if Inv(l.world.task) {
      NextKeepsInv(l.world, e);
    } else {
      CancelledIsFinal(l.world, e);
    }
  }

  lemma {:induction false} LiveKeeps(l: Life, ms: seq<Moment>)
    requires Underway(l)
    ensures LifeInv(Live(l, ms))
    ensures Stray(Live(l, ms).world.task) <==> EverStrays(l, ms)
    decreases |ms|
  {
    if ms != [] {
      LiveKeeps(l, ms[..|ms| - 1]);
      StepKeepsLife(Live(l, ms[..|ms| - 1]), ms[|ms| - 1]);
    }
  }

  /**
   Over the whole life of a run, gate included, a released deliverable belongs to a delivered run, except
   exactly when the run met its gate without review, with something to release, while a stop was pending.
   */
  lemma ReleasedMeansDeliveredUnless(l: Life, ms: seq<Moment>)
    requires Underway(l)
    ensures (forall d :: d in Live(l, ms).world.task.deliverables && d.released ==> Live(l, ms).world.task.status == Delivered)
            <==> !EverStrays(l, ms)
  {
    LiveKeeps(l, ms);
    var t := Live(l, ms).world.task;
    if Stray(t) {
      var i :| 0 <= i < |t.deliverables| && t.deliverables[i].released;
      assert t.deliverables[i] in t.deliverables;
    }
  }

  /** A run may stray: a stop during a call whose answer arrives first, then a gate without review. */
  lemma LifeThatStrays(l: Life, u: User, polled: bool, record: ApprovalRecord, d: Deliverable) returns (ms: seq<Moment>)
    requires Underway(l) && l.phase.Working? && !l.stop && l.world.task.drafted
    requires u.id == l.world.task.submitter
    ensures ms == [BeginWait(polled), Outside(CancellationBy(u)), Wake(true), Gate(false, record, Some(d))]
    ensures EverStrays(l, ms)
    ensures var t := Live(l, ms).world.task; t.status == Cancelled && t.deliverables == [d.(released := true)]
  {
    ms := [BeginWait(polled), Outside(CancellationBy(u)), Wake(true), Gate(false, record, Some(d))];
    assert ms[..3][..2] == ms[..2] && ms[..2][..1] == ms[..1] && ms[..1][..0] == [];
    var waiting := StepLife(l, ms[0]);
    assert Live(l, ms[..1]) == waiting;
    ExecutingIsLeftAlone(waiting.world, CancellationBy(u));
    assert Live(l, ms[..2]) == StepLife(waiting, ms[1]) && Live(l, ms[..2]).stop;
    assert Live(l, ms[..3]) == StepLife(Live(l, ms[..2]), ms[2]);
    GateDeliverables(Live(l, ms[..3]), ms[3]);
  }

  /** A run whose gate asks for review never strays. */
  lemma {:induction false} ReviewedRunsNeverStray(l: Life, ms: seq<Moment>)
    requires forall k :: 0 <= k < |ms| && ms[k].Gate? ==> ms[k].required
    ensures !EverStrays(l, ms)
    decreases |ms|
  {
    if ms != [] {
      ReviewedRunsNeverStray(l, ms[..|ms| - 1]);
    }
  }

  /** What the gate holds for review is a held run, or a stopped one with nothing released. */
  lemma GateHolds(l: Life, record: ApprovalRecord, rendered: Option<Deliverable>)
    requires Underway(l) && l.phase.Working?
    ensures var t := StepLife(l, Gate(true, record, rendered)).world.task;
            Inv(t) && (if l.stop then t.status == Cancelled else Held(t))
  {
    GateOutcome(l, Gate(true, record, rendered));
  }

  /**
   What the gate leaves: the run held, delivered, or cancelled if a stop was pending; the one deliverable rendered,
   released exactly on the path without review; no signature; and nothing else of the run changed.
   */
  lemma GateLeaves(l: Life, required: bool, record: ApprovalRecord, rendered: Option<Deliverable>)
    requires Underway(l) && l.phase.Working?
    ensures var before, after := l.world.task, StepLife(l, Gate(required, record, rendered));
            var t := after.world.task;
            && after.phase.Settled? && after.stop == l.stop && after.world == l.world.(task := t)
            && t.status == (if l.stop then Cancelled else if required then Awaiting else Delivered)
            && t.approval == record.(signatures := [])
            && t.deliverables ==
                 (if before.drafted && rendered.Some? then [rendered.value.(released := !required)] else [])
            && t == before.(status := t.status, approval := t.approval, deliverables := t.deliverables,
                            storedDigest := Current(t, l.world.policyFiles))
  {
    GateDeliverables(l, Gate(required, record, rendered));
    var t := StepLife(l, Gate(required, record, rendered)).world.task;
    var drafted := t.(storedDigest := l.world.task.storedDigest);
    SameContent(t, drafted);
  }

  /** What every other moment leaves: a run works, waits and is stopped as its own code has it, and others reach it only while it waits or is settled. */
  lemma MomentLeaves(l: Life, m: Moment)
    requires !m.Gate?
    ensures var after := StepLife(l, m);
            var cancelled := l.(world := l.world.(task := l.world.task.(status := Cancelled)), phase := Settled);
            match m
            case Rewrite(revised) =>
              var t := l.world.task;
              after == if !l.phase.Working? then l
                       else l.(world := l.world.(task := revised.(status := t.status, submitter := t.submitter,
                                                                  approval := t.approval, deliverables := t.deliverables)))
            case Stage => after == if l.phase.Working? && l.stop then cancelled else l
            case BeginWait(polled) =>
              after == if !l.phase.Working? then l else if polled && l.stop then cancelled else l.(phase := Waiting(polled))
            case Wake(done) =>
              after == if !l.phase.Waiting? then l else if done then l.(phase := Working)
                       else if l.phase.polled && l.stop then cancelled else l
            case Outside(e) =>
              if l.phase.Working? || (l.phase.Waiting? && e.Restart?) then after == l
              else
                && after.phase == l.phase && after.world == Next(l.world, e)
                && (after.stop <==>
                      || l.stop
                      || (e.CancellationBy? && (e.u.id == l.world.task.submitter || e.u.readsAll)
                          && l.world.task.status !in {Delivered, Rejected, Cancelled}))
  {
  }

  // --- when a stop is pending at the gate ----------------------------------

  /** A stage call, and a model call as it begins: there a stop is honoured. */
  predicate Honours(m: Moment)
  {
    m.Stage? || m == BeginWait(true)
  }

  /**
   A stop came during a wait that ended without a poll, its answer having arrived first or nothing polling it,
   and the running code has met nothing since that honours it.
   */
  ghost predicate PassedAWait(l: Life, ms: seq<Moment>, i: nat)
  {
    && i < |ms| && ms[i] == Wake(true)
    && Live(l, ms[..i]).phase.Waiting? && Live(l, ms[..i]).stop
    && forall j :: i < j < |ms| && (Honours(ms[j]) || ms[j].Gate?) ==> !Live(l, ms[..j]).phase.Working?
  }

  lemma {:induction false} StopStays(l: Life, ms: seq<Moment>, i: nat)
    requires i <= |ms|
    ensures Live(l, ms[..i]).stop ==> Live(l, ms).stop
    decreases |ms|
  {
    if i < |ms| {
      var front := ms[..|ms| - 1];
      StopStays(l, front, i);
      assert front[..i] == ms[..i];
    } else {
      assert ms[..i] == ms;
    }
  }

  lemma {:induction false} PendingPassedAWait(l: Life, ms: seq<Moment>) returns (i: nat)
    requires !l.stop && Live(l, ms).phase.Working? && Live(l, ms).stop
    ensures PassedAWait(l, ms, i)
    decreases |ms|
  {
    var n := |ms| - 1;
    var front, before := ms[..n], Live(l, ms[..n]);
    if before.phase.Waiting? {
      i := n;
    } else {
      i := PendingPassedAWait(l, front);
      assert forall k :: 0 <= k < n ==> front[..k] == ms[..k] && front[k] == ms[k];
    }
  }

  /**
   A stop is pending in running code exactly when it was requested during a wait that ended before the next
   poll, if there is one, and no stage call or model call has begun since.
   */
  lemma PendingIff(l: Life, ms: seq<Moment>)
    requires !l.stop && Live(l, ms).phase.Working?
    ensures Live(l, ms).stop <==> exists i :: PassedAWait(l, ms, i)
  {
    if i :| PassedAWait(l, ms, i) {
      StopStays(l, ms, i);
    } else if Live(l, ms).stop {
      var i := PendingPassedAWait(l, ms);
    }
  }
}
