/**
 Where every submitted task has gone: the queue is what was submitted less what was
 taken, each task is waiting, announced, handed over or left for one reason, and
 stops and ends are each answered for by the step that made them (backend/api/task_service.py).
 */
module TaskQueueAccount {
  import opened Wrappers
  import opened TaskQueue

  // --- what a step does, read off the step and the state before it ---------

  predicate IdleAt(s: State, w: nat)
  {
    w < |s.workers| && s.workers[w].Idle?
  }

  /** The worker has announced this task and not yet handed it over. */
  predicate Announced(s: State, w: nat, id: Id)
  {
    w < |s.workers| && s.workers[w] == Starting(id)
  }

  /** The task is being run, or the error that ended it is being reported. */
  predicate Ending(s: State, w: nat, id: Id)
  {
    w < |s.workers| && (s.workers[w] == Running(id) || s.workers[w] == Failing(id))
  }

  predicate Submits(s: State, step: Step, id: Id)
  {
    step == Submit(id) && id !in s.created
  }

  predicate Takes(s: State, step: Step, id: Id)
  {
    step.Take? && IdleAt(s, step.w) && s.fifo != [] && s.fifo[0] == id
  }

  predicate Stops(s: State, step: Step, id: Id)
  {
    step == Cancel(id) && id in s.created && id !in s.finished
  }

  predicate HandsOver(s: State, step: Step, id: Id)
  {
    step.Begin? && step.found && Announced(s, step.w, id)
  }

  predicate Ends(s: State, step: Step, id: Id)
  {
    step.Finish? && Ending(s, step.w, id)
  }

  /** Why a task leaves without having been handed over. */
  datatype Reason = StoppedFirst | Gone | FailedFirst

  predicate Leaves(s: State, step: Step, id: Id, why: Reason)
  {
    match why
    case StoppedFirst => Takes(s, step, id) && id in s.cancelled
    case Gone => step.Begin? && !step.found && Announced(s, step.w, id)
    case FailedFirst => step.Fail? && Announced(s, step.w, id)
  }

  // --- first in, first out -------------------------------------------------

  function Submitted(s: State, steps: seq<Step>): seq<Id>
    decreases |steps|
  {
    if steps == [] then []
    else (if steps[0].Submit? && Submits(s, steps[0], steps[0].id) then [steps[0].id] else [])
         + Submitted(Next(s, steps[0]), steps[1..])
  }

  function Taken(s: State, steps: seq<Step>): seq<Id>
    decreases |steps|
  {
    if steps == [] then []
    else (if s.fifo != [] && Takes(s, steps[0], s.fifo[0]) then [s.fifo[0]] else []) + Taken(Next(s, steps[0]), steps[1..])
  }

  /** The tasks handed over, in the order the workers began them. */
  function Begun(s: State, steps: seq<Step>): seq<Id>
    decreases |steps|
  {
    if steps == [] then []
    else (if steps[0].Begin? && steps[0].w < |s.workers| && s.workers[steps[0].w].Starting?
             && HandsOver(s, steps[0], s.workers[steps[0].w].id) then [s.workers[steps[0].w].id] else [])
         + Begun(Next(s, steps[0]), steps[1..])
  }

  lemma QueueMoves(s: State, step: Step)
    ensures var added := if step.Submit? && Submits(s, step, step.id) then [step.id] else [];
            var taken := if s.fifo != [] && Takes(s, step, s.fifo[0]) then [s.fifo[0]] else [];
            s.fifo + added == taken + Next(s, step).fifo
  {
  }

  /** The queue is what it was and what has been submitted since, less what has been taken, in that order. */
  lemma {:induction false} FirstInFirstOut(s: State, steps: seq<Step>)
    ensures s.fifo + Submitted(s, steps) == Taken(s, steps) + Run(s, steps).fifo
    decreases |steps|
  {
    if steps != [] {
      var next, rest := Next(s, steps[0]), steps[1..];
      FirstInFirstOut(next, rest);
      QueueMoves(s, steps[0]);
      var added := if steps[0].Submit? && Submits(s, steps[0], steps[0].id) then [steps[0].id] else [];
      var taken := if s.fifo != [] && Takes(s, steps[0], s.fifo[0]) then [s.fifo[0]] else [];
      Regroup(s.fifo, added, Submitted(next, rest), taken, next.fifo, Taken(next, rest), Run(next, rest).fifo);
    }
  }

  lemma Regroup(a: seq<Id>, b: seq<Id>, c: seq<Id>, d: seq<Id>, e: seq<Id>, f: seq<Id>, g: seq<Id>)
    requires a + b == d + e && e + c == f + g
    ensures a + (b + c) == (d + f) + g
  {
    assert a + (b + c) == (a + b) + c;
    assert d + e + c == d + (e + c);
    assert d + (f + g) == (d + f) + g;
  }

  /** The tasks handed over are exactly those begun and found, in the order they were begun. */
  lemma {:induction false} HandedOverInOrder(s: State, steps: seq<Step>)
    ensures Run(s, steps).reached == s.reached + Begun(s, steps)
    decreases |steps|
  {
    if steps != [] {
      HandedOverInOrder(Next(s, steps[0]), steps[1..]);
    }
  }

  /** A task that is announced and found is handed over by that very step, and its worker runs it. */
  lemma FoundIsHandedOver(s: State, w: nat, id: Id)
    requires Announced(s, w, id)
    ensures var now := Next(s, Begin(w, true));
            now.reached == s.reached + [id] && now.workers == s.workers[w := Running(id)] && now.executing == s.executing
  {
  }

  // --- every task is somewhere ---------------------------------------------

  ghost predicate EverLeft(s: State, steps: seq<Step>, id: Id, why: Reason)
    decreases |steps|
  {
    steps != [] && (Leaves(s, steps[0], id, why) || EverLeft(Next(s, steps[0]), steps[1..], id, why))
  }

  ghost predicate SomewhereIn(s: State, id: Id)
  {
    id in s.fifo || id in s.reached || exists w: nat :: Announced(s, w, id)
  }

  lemma StepKeepsSomewhere(s: State, step: Step, id: Id)
    requires SomewhereIn(s, id)
    ensures SomewhereIn(Next(s, step), id) || exists why :: Leaves(s, step, id, why)
  {
    var now := Next(s, step);
    if w: nat :| Announced(s, w, id) {
      if (step.Begin? || step.Fail?) && step.w == w {
        assert step.Begin? && !step.found ==> Leaves(s, step, id, Gone);
        assert step.Fail? ==> Leaves(s, step, id, FailedFirst);
      } else {
        assert Announced(now, w, id);
      }
    } else if id in s.fifo && id !in s.reached {
      assert s.fifo == [s.fifo[0]] + s.fifo[1..];
      if Takes(s, step, id) {
        if id in s.cancelled {
          assert Leaves(s, step, id, StoppedFirst);
        } else {
          assert Announced(now, step.w, id);
        }
      }
    }
  }

  lemma NewIsQueued(s: State, step: Step, id: Id)
    requires id !in s.created && id in Next(s, step).created
    ensures Submits(s, step, id) && id in Next(s, step).fifo
  {
  }

  ghost predicate Accounted(s: State, steps: seq<Step>, id: Id)
  {
    || SomewhereIn(Run(s, steps), id)
    || EverLeft(s, steps, id, StoppedFirst) || EverLeft(s, steps, id, Gone) || EverLeft(s, steps, id, FailedFirst)
  }

  lemma AccountedFromNext(s: State, steps: seq<Step>, id: Id)
    requires steps != [] && Accounted(Next(s, steps[0]), steps[1..], id)
    ensures Accounted(s, steps, id)
  {
  }

  lemma {:induction false} StaysAccounted(s: State, steps: seq<Step>, id: Id)
    requires id in Run(s, steps).created && (id in s.created ==> SomewhereIn(s, id))
    ensures Accounted(s, steps, id)
    decreases |steps|
  {
    if steps != [] {
      var next := Next(s, steps[0]);
      if id in s.created {
        StepKeepsSomewhere(s, steps[0], id);
      } else if id in next.created {
        NewIsQueued(s, steps[0], id);
      }
      if forall why :: !Leaves(s, steps[0], id, why) {
        StaysAccounted(next, steps[1..], id);
        AccountedFromNext(s, steps, id);
      }
    }
  }

  /**
   Over every run of any number of workers: each task submitted is in the queue, announced by a worker, handed over, or
   has left for one of three reasons: stopped before any worker took it, gone when it was its turn, or failed while it
   was announced.
   */
  lemma EveryTaskIsAccountedFor(workers: nat, steps: seq<Step>, id: Id)
    requires id in Run(Init(workers), steps).created
    ensures Accounted(Init(workers), steps, id)
  {
    StaysAccounted(Init(workers), steps, id);
  }

  ghost predicate OutOfSight(s: State, id: Id)
  {
    id in s.created && !SomewhereIn(s, id)
  }

  lemma StepKeepsOut(s: State, step: Step, id: Id)
    requires Inv(s) && OutOfSight(s, id)
    ensures OutOfSight(Next(s, step), id)
    ensures forall why :: !Leaves(s, step, id, why)
  {
    var now := Next(s, step);
    assert s.fifo != [] ==> s.fifo[0] in s.fifo;
    forall w: nat
      ensures !Announced(now, w, id)
    {
      assert !Announced(s, w, id);
    }
    if step.Begin? && step.w < |s.workers| && s.workers[step.w].Starting? {
      assert Announced(s, step.w, s.workers[step.w].id);
    }
  }

  lemma {:induction false} RunKeepsOut(s: State, steps: seq<Step>, id: Id)
    requires Inv(s) && OutOfSight(s, id)
    ensures OutOfSight(Run(s, steps), id) && forall why :: !EverLeft(s, steps, id, why)
    decreases |steps|
  {
    if steps != [] {
      StepKeepsInv(s, steps[0]);
      StepKeepsOut(s, steps[0], id);
      RunKeepsOut(Next(s, steps[0]), steps[1..], id);
    }
  }

  lemma LeavingPutsOut(s: State, step: Step, id: Id, why: Reason)
    requires Inv(s) && Leaves(s, step, id, why)
    ensures OutOfSight(Next(s, step), id)
    ensures forall other :: Leaves(s, step, id, other) ==> other == why
  {
    var now := Next(s, step);
    if why.StoppedFirst? {
      assert s.fifo == [id] + s.fifo[1..];
      assert id in s.fifo;
      forall w: nat
        ensures !Announced(now, w, id)
      {
        if w < |s.workers| && s.workers[w] == Starting(id) {
          HeldIsExecuting(s, w);
        }
      }
    } else {
      HeldIsExecuting(s, step.w);
      forall w: nat
        ensures !Announced(now, w, id)
      {
        if w != step.w && w < |s.workers| {
          assert s.workers[w].Idle? || s.workers[w].id != s.workers[step.w].id;
        }
      }
    }
  }

  /** A task leaves once, for one reason, and is never queued, announced or handed over after that. */
  lemma {:induction false} LeftForGood(s: State, steps: seq<Step>, id: Id, why: Reason)
    requires Inv(s) && EverLeft(s, steps, id, why)
    ensures OutOfSight(Run(s, steps), id)
    ensures forall other :: EverLeft(s, steps, id, other) ==> other == why
    decreases |steps|
  {
    var next, rest := Next(s, steps[0]), steps[1..];
    StepKeepsInv(s, steps[0]);
    if Leaves(s, steps[0], id, why) {
      LeavingPutsOut(s, steps[0], id, why);
      RunKeepsOut(next, rest, id);
    } else {
      if other :| Leaves(s, steps[0], id, other) {
        LeavingPutsOut(s, steps[0], id, other);
        RunKeepsOut(next, rest, id);
      }
      LeftForGood(next, rest, id, why);
    }
  }

  // --- workers, stops and ends ---------------------------------------------

  /** A worker is moved by its own steps alone: it takes the head of the queue, begins it, reports its failure, or is done with it. */
  lemma WorkerIsMovedBy(s: State, step: Step, w: nat)
    requires w < |s.workers|
    ensures var now := Next(s, step).workers;
            && |now| == |s.workers|
            && (match s.workers[w]
                case Idle =>
                  now[w] == if step == Take(w) && s.fifo != [] && s.fifo[0] !in s.cancelled then Starting(s.fifo[0]) else Idle
                case Starting(id) =>
                  now[w] == if step == Begin(w, true) then Running(id) else if step == Begin(w, false) then Idle
                            else if step == Fail(w) then Failing(id) else Starting(id)
                case Running(id) =>
                  now[w] == if step.Finish? && step.w == w then Idle else if step == Fail(w) then Failing(id) else Running(id)
                case Failing(id) => now[w] == if step.Finish? && step.w == w then Idle else Failing(id))
  {
  }

  /** A stop stands from the moment it is accepted until its task is dropped from the queue or let go by its worker. */
  lemma StopsStandUntilSpent(s: State, step: Step, id: Id)
    ensures id in Next(s, step).cancelled <==>
              || Stops(s, step, id)
              || (id in s.cancelled && !Takes(s, step, id) && !Ends(s, step, id)
                  && !(step.Begin? && !step.found && Announced(s, step.w, id)))
  {
  }

  /** A task is closed by the stop that finds no worker holding it, or by the run that ended it for good. */
  lemma ClosedBy(s: State, step: Step, id: Id)
    requires Inv(s)
    ensures id in Next(s, step).finished <==>
              || id in s.finished
              || (Stops(s, step, id) && !Held(s.workers, id))
              || (Ends(s, step, id) && step.terminal)
  {
  }

  /** Submitting is the only way a task comes to be, and nothing forgets one. */
  lemma CreatedBy(s: State, step: Step, id: Id)
    ensures id in Next(s, step).created <==> id in s.created || Submits(s, step, id)
  {
  }
}
