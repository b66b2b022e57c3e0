/**
 The execution queue: one FIFO drained by any number of workers, with the order
 still waiting, what is executing, and the stop requests kept beside it
 (backend/api/task_service.py). A step is the code between two await points.

 One exception: storing a task and lining it up are one step here, although the
 source announces it in between. Publishing an event never suspends: its lock is
 uncontended and nothing is awaited while it is held (backend/core/events.py). Were
 a stop to land there, the task would be lined up although already stopped, and
 stay in the line until a worker dropped it.
 */
module TaskQueue {
  import opened Wrappers

  type Id = string

  /** Where a worker is suspended: on the queue, announcing what it took, in the run, or reporting an error. */
  datatype Worker = Idle | Starting(id: Id) | Running(id: Id) | Failing(id: Id)

  datatype State = State(
    fifo: seq<Id>,          // asyncio.Queue
    waiting: seq<Id>,       // _waiting
    executing: seq<Id>,     // _executing
    cancelled: set<Id>,     // _cancelled
    workers: seq<Worker>,
    created: set<Id>,       // every task the service has stored
    finished: set<Id>,      // those whose stored status is terminal
    reached: seq<Id>)       // those handed to the orchestrator, in order

  datatype Step =
    | Submit(id: Id)
    | Cancel(id: Id)
    | Take(w: nat)
    | Begin(w: nat, found: bool)
    | Fail(w: nat)
    | Finish(w: nat, terminal: bool)

  function Init(workers: nat): State
  {
    State([], [], [], {}, seq(workers, _ => Idle), {}, {}, [])
  }

  /** `list.remove`: the first occurrence. */
  function Remove(s: seq<Id>, x: Id): seq<Id>
  {
    if s == [] then [] else if s[0] == x then s[1..] else [s[0]] + Remove(s[1..], x)
  }

  function Without(s: seq<Id>, dropped: set<Id>): seq<Id>
  {
    if s == [] then [] else (if s[0] in dropped then [] else [s[0]]) + Without(s[1..], dropped)
  }

  /** The worker's `finally`: the run leaves the list and its stop request is spent. */
  function Release(s: State, w: nat): State
    requires w < |s.workers| && !s.workers[w].Idle?
  {
    var id := s.workers[w].id;
    s.(executing := Remove(s.executing, id), cancelled := s.cancelled - {id}, workers := s.workers[w := Idle])
  }

  /** One step; a step that cannot be taken now changes nothing. */
  function Next(s: State, step: Step): State
  {
    match step
    case Submit(id) =>
      if id in s.created then s
      else s.(waiting := s.waiting + [id], fifo := s.fifo + [id], created := s.created + {id})
    case Cancel(id) =>
      if id !in s.created || id in s.finished then s
      else s.(cancelled := s.cancelled + {id},
              waiting := Remove(s.waiting, id),
              finished := if id in s.executing then s.finished else s.finished + {id})
    case Take(w) =>
      if w >= |s.workers| || !s.workers[w].Idle? || s.fifo == [] then s
      else
        var id, rest := s.fifo[0], s.fifo[1..];
        if id in s.cancelled then s.(fifo := rest, waiting := Remove(s.waiting, id), cancelled := s.cancelled - {id})
        else s.(fifo := rest, waiting := Remove(s.waiting, id), executing := s.executing + [id],
                workers := s.workers[w := Starting(id)])
    case Begin(w, found) =>
      if w >= |s.workers| || !s.workers[w].Starting? then s
      else if !found then Release(s, w)
      else s.(workers := s.workers[w := Running(s.workers[w].id)], reached := s.reached + [s.workers[w].id])
    case Fail(w) =>
      if w >= |s.workers| || !(s.workers[w].Starting? || s.workers[w].Running?) then s
      else s.(workers := s.workers[w := Failing(s.workers[w].id)])
    case Finish(w, terminal) =>
      if w >= |s.workers| || !(s.workers[w].Running? || s.workers[w].Failing?) then s
      else Release(s, w).(finished := if terminal then s.finished + {s.workers[w].id} else s.finished)
  }

  function Run(s: State, steps: seq<Step>): State
    decreases |steps|
  {
    if steps == [] then s else Run(Next(s, steps[0]), steps[1..])
  }

  // --- the invariant -------------------------------------------------------

  ghost predicate Distinct(s: seq<Id>)
  {
    forall i, j :: 0 <= i < j < |s| ==> s[i] != s[j]
  }

  ghost predicate Held(workers: seq<Worker>, id: Id)
  {
    exists w :: 0 <= w < |workers| && !workers[w].Idle? && workers[w].id == id
  }

  /** The list of runs in progress is what the workers hold, one worker each. */
  ghost predicate HeldExactly(executing: seq<Id>, workers: seq<Worker>)
  {
    && Distinct(executing)
    && (forall id :: id in executing <==> Held(workers, id))
    && (forall v, w :: 0 <= v < w < |workers| && !workers[v].Idle? && !workers[w].Idle? ==> workers[v].id != workers[w].id)
  }

  ghost predicate Inv(s: State)
  {
    // The order reported is the queue, less what was stopped in it.
    && s.waiting == Without(s.fifo, s.cancelled)
    && Distinct(s.fifo)
    && s.cancelled <= s.created
    && HeldExactly(s.executing, s.workers)
    && (forall id :: id in s.fifo ==> id !in s.executing && id !in s.reached)
    && (forall id :: id in s.fifo || id in s.executing || id in s.reached ==> id in s.created)
    && Distinct(s.reached)
    && (forall w :: 0 <= w < |s.workers| && s.workers[w].Starting? ==> s.workers[w].id !in s.reached)
  }

  // --- list lemmas ---------------------------------------------------------

  lemma {:induction false} WithoutSame(s: seq<Id>, a: set<Id>, b: set<Id>)
    requires forall x :: x in s ==> (x in a <==> x in b)
    ensures Without(s, a) == Without(s, b)
  {
    if s != [] {
      WithoutSame(s[1..], a, b);
    }
  }

  lemma {:induction false} WithoutAppend(s: seq<Id>, x: Id, dropped: set<Id>)
    ensures Without(s + [x], dropped) == Without(s, dropped) + if x in dropped then [] else [x]
  {
    if s == [] {
      assert Without([x], dropped) == (if x in dropped then [] else [x]) + Without([x][1..], dropped);
    } else {
      WithoutAppend(s[1..], x, dropped);
      assert (s + [x])[1..] == s[1..] + [x];
    }
  }

  lemma {:induction false} WithoutElements(s: seq<Id>, dropped: set<Id>, x: Id)
    ensures x in Without(s, dropped) <==> x in s && x !in dropped
  {
    if s != [] {
      WithoutElements(s[1..], dropped, x);
      assert s == [s[0]] + s[1..];
    }
  }

  lemma {:induction false} WithoutDistinct(s: seq<Id>, dropped: set<Id>)
    requires Distinct(s)
    ensures Distinct(Without(s, dropped))
  {
    if s != [] {
      WithoutDistinct(s[1..], dropped);
      WithoutElements(s[1..], dropped, s[0]);
    }
  }

  /** Dropping one more is removing it from what is left. */
  lemma {:induction false} DropOneMore(s: seq<Id>, dropped: set<Id>, x: Id)
    requires Distinct(s)
    ensures Without(s, dropped + {x}) == Remove(Without(s, dropped), x)
  {
    if s != [] {
      var rest := Without(s[1..], dropped);
      DropOneMore(s[1..], dropped, x);
      assert ([s[0]] + rest)[1..] == rest;
      if s[0] == x {
        assert x !in s[1..];
        WithoutElements(s[1..], dropped, x);
        RemoveAbsent(rest, x);
        assert Without(s, dropped + {x}) == rest;
        assert Without(s, dropped) == if x in dropped then rest else [x] + rest;
      } else if s[0] in dropped {
        assert Without(s, dropped) == rest;
        assert Without(s, dropped + {x}) == Without(s[1..], dropped + {x});
      } else {
        assert Without(s, dropped) == [s[0]] + rest;
      }
    }
  }

  lemma {:induction false} RemoveAbsent(s: seq<Id>, x: Id)
    requires x !in s
    ensures Remove(s, x) == s
  {
    if s != [] {
      RemoveAbsent(s[1..], x);
    }
  }

  lemma {:induction false} RemoveLength(s: seq<Id>, x: Id)
    ensures |Remove(s, x)| <= |s|
  {
    if s != [] {
      RemoveLength(s[1..], x);
    }
  }

  lemma {:induction false} RemoveDistinct(s: seq<Id>, x: Id)
    requires Distinct(s)
    ensures Distinct(Remove(s, x)) && x !in Remove(s, x)
    ensures forall y :: y in Remove(s, x) <==> y in s && y != x
    ensures |Remove(s, x)| == if x in s then |s| - 1 else |s|
  {
    if s != [] {
      RemoveDistinct(s[1..], x);
      assert s == [s[0]] + s[1..];
      if s[0] != x {
        var rest := Remove(s[1..], x);
        assert s[0] !in s[1..];
        assert Distinct([s[0]] + rest);
      }
    }
  }

  lemma WorkerTakes(executing: seq<Id>, workers: seq<Worker>, w: nat, id: Id)
    requires HeldExactly(executing, workers) && w < |workers| && workers[w].Idle? && id !in executing
    ensures HeldExactly(executing + [id], workers[w := Starting(id)])
  {
    var now := workers[w := Starting(id)];
    assert !Held(workers, id);
    forall x
      ensures x in executing + [id] <==> Held(now, x)
    {
      if x == id {
        assert now[w].id == x;
      } else if Held(workers, x) {
        var v :| 0 <= v < |workers| && !workers[v].Idle? && workers[v].id == x;
        assert now[v] == workers[v];
      }
    }
  }

  lemma WorkerLetsGo(executing: seq<Id>, workers: seq<Worker>, w: nat)
    requires HeldExactly(executing, workers) && w < |workers| && !workers[w].Idle?
    ensures HeldExactly(Remove(executing, workers[w].id), workers[w := Idle])
  {
    var id, now := workers[w].id, workers[w := Idle];
    RemoveDistinct(executing, id);
    forall x
      ensures x in Remove(executing, id) <==> Held(now, x)
    {
      if x != id && Held(workers, x) {
        var v :| 0 <= v < |workers| && !workers[v].Idle? && workers[v].id == x;
        assert now[v] == workers[v];
      }
    }
  }

  lemma WorkerMovesOn(executing: seq<Id>, workers: seq<Worker>, w: nat, now: Worker)
    requires HeldExactly(executing, workers) && w < |workers| && !workers[w].Idle?
    requires !now.Idle? && now.id == workers[w].id
    ensures HeldExactly(executing, workers[w := now])
  {
    forall x
      ensures Held(workers, x) <==> Held(workers[w := now], x)
    {
      if Held(workers, x) {
        var v :| 0 <= v < |workers| && !workers[v].Idle? && workers[v].id == x;
        assert workers[w := now][v].id == x;
      }
    }
  }

  lemma {:induction false} NoMoreThanWorkers(executing: seq<Id>, workers: seq<Worker>)
    requires Distinct(executing) && forall id :: id in executing ==> Held(workers, id)
    ensures |executing| <= |workers|
    decreases |workers|
  {
    if executing != [] {
      assert executing[0] in executing && Held(workers, executing[0]);
    }
    if workers != [] {
      var n := |workers| - 1;
      var rest := if workers[n].Idle? then executing else Remove(executing, workers[n].id);
      if !workers[n].Idle? {
        RemoveDistinct(executing, workers[n].id);
      }
      forall id | id in rest
        ensures Held(workers[..n], id)
      {
        var v :| 0 <= v < |workers| && !workers[v].Idle? && workers[v].id == id;
        assert workers[..n][v] == workers[v];
      }
      NoMoreThanWorkers(rest, workers[..n]);
    }
  }

  // --- every step keeps it -------------------------------------------------

  lemma SubmitKeepsInv(s: State, id: Id)
    requires Inv(s)
    ensures Inv(Next(s, Submit(id)))
  {
    if id !in s.created {
      WithoutAppend(s.fifo, id, s.cancelled);
    }
  }

  lemma CancelKeepsInv(s: State, id: Id)
    requires Inv(s)
    ensures Inv(Next(s, Cancel(id)))
  {
    DropOneMore(s.fifo, s.cancelled, id);
  }

  /** The head of the queue is the head of the line, or was stopped in it. */
  lemma HeadOfLine(s: State)
    requires Inv(s) && s.fifo != []
    ensures var id, rest := s.fifo[0], s.fifo[1..];
            && (id in s.cancelled ==> Remove(s.waiting, id) == s.waiting == Without(rest, s.cancelled - {id}))
            && (id !in s.cancelled ==> s.waiting == [id] + Without(rest, s.cancelled)
                                       && Remove(s.waiting, id) == Without(rest, s.cancelled))
  {
    var id, rest := s.fifo[0], s.fifo[1..];
    WithoutElements(s.fifo, s.cancelled, id);
    if id in s.cancelled {
      RemoveAbsent(s.waiting, id);
      WithoutSame(rest, s.cancelled, s.cancelled - {id});
    } else {
      assert s.waiting[1..] == Without(rest, s.cancelled);
    }
  }

  lemma TakeKeepsInv(s: State, w: nat)
    requires Inv(s)
    ensures Inv(Next(s, Take(w)))
  {
    if w < |s.workers| && s.workers[w].Idle? && s.fifo != [] {
      HeadOfLine(s);
      var id, rest := s.fifo[0], s.fifo[1..];
      assert s.fifo == [id] + rest && id in s.fifo;
      if id !in s.cancelled {
        WorkerTakes(s.executing, s.workers, w, id);
      }
    }
  }

  lemma HeldIsExecuting(s: State, w: nat)
    requires Inv(s) && w < |s.workers| && !s.workers[w].Idle?
    ensures s.workers[w].id in s.executing && s.workers[w].id !in s.fifo
  {
    assert Held(s.workers, s.workers[w].id);
  }

  lemma ReleaseKeepsInv(s: State, w: nat)
    requires Inv(s) && w < |s.workers| && !s.workers[w].Idle?
    ensures Inv(Release(s, w))
  {
    var id := s.workers[w].id;
    HeldIsExecuting(s, w);
    WorkerLetsGo(s.executing, s.workers, w);
    RemoveDistinct(s.executing, id);
    WithoutSame(s.fifo, s.cancelled, s.cancelled - {id});
  }

  lemma MoveKeepsInv(s: State, w: nat)
    requires Inv(s) && w < |s.workers|
    ensures Inv(Next(s, Begin(w, true)))
    ensures Inv(Next(s, Fail(w)))
  {
    if !s.workers[w].Idle? {
      HeldIsExecuting(s, w);
      WorkerMovesOn(s.executing, s.workers, w, Running(s.workers[w].id));
      WorkerMovesOn(s.executing, s.workers, w, Failing(s.workers[w].id));
    }
  }

  lemma StepKeepsInv(s: State, step: Step)
    requires Inv(s)
    ensures Inv(Next(s, step))
  {
    match step
    case Submit(id) => SubmitKeepsInv(s, id);
    case Cancel(id) => CancelKeepsInv(s, id);
    case Take(w) => TakeKeepsInv(s, w);
    case Begin(w, found) =>
      if w < |s.workers| {
        MoveKeepsInv(s, w);
        if s.workers[w].Starting? {
          ReleaseKeepsInv(s, w);
        }
      }
    case Fail(w) =>
      if w < |s.workers| {
        MoveKeepsInv(s, w);
      }
    case Finish(w, _) =>
      if w < |s.workers| && !s.workers[w].Idle? {
        ReleaseKeepsInv(s, w);
      }
  }

  lemma {:induction false} RunKeepsInv(s: State, steps: seq<Step>)
    requires Inv(s)
    ensures Inv(Run(s, steps))
    ensures |Run(s, steps).workers| == |s.workers|
    decreases |steps|
  {
    if steps != [] {
      StepKeepsInv(s, steps[0]);
      RunKeepsInv(Next(s, steps[0]), steps[1..]);
    }
  }

  lemma InitHolds(workers: nat)
    ensures Inv(Init(workers))
  {
  }

  // --- what every run guarantees -------------------------------------------

  /** At every await point of every run, for any number of workers. */
  lemma QueueIsConsistent(workers: nat, steps: seq<Step>)
    ensures var s := Run(Init(workers), steps);
            && s.waiting == Without(s.fifo, s.cancelled)
            && (forall id :: id in s.fifo ==> id !in s.executing)
            && Distinct(s.executing) && |s.executing| <= workers
            && Distinct(s.reached)
  {
    InitHolds(workers);
    RunKeepsInv(Init(workers), steps);
    var s := Run(Init(workers), steps);
    NoMoreThanWorkers(s.executing, s.workers);
  }

  /** Stopped before any worker took it: in the queue only as dropped, held by no one, never started. */
  ghost predicate Doomed(s: State, id: Id)
  {
    && id in s.created && id !in s.executing && id !in s.reached
    && (id in s.fifo ==> id in s.cancelled)
  }

  lemma StepKeepsDoomed(s: State, step: Step, id: Id)
    requires Inv(s) && Doomed(s, id)
    ensures Doomed(Next(s, step), id)
  {
    match step
    case Submit(other) =>
    case Cancel(other) =>
    case Take(w) =>
    case Begin(w, _) =>
      if w < |s.workers| && s.workers[w].Starting? {
        HeldIsExecuting(s, w);
        RemoveDistinct(s.executing, s.workers[w].id);
      }
    case Fail(w) =>
    case Finish(w, _) =>
      if w < |s.workers| && !s.workers[w].Idle? {
        HeldIsExecuting(s, w);
        RemoveDistinct(s.executing, s.workers[w].id);
      }
  }

  /** A task stopped while it was queued never reaches the orchestrator, however the run goes on. */
  lemma {:induction false} StoppedInQueueNeverRuns(s: State, id: Id, steps: seq<Step>)
    requires Inv(s) && Doomed(s, id)
    ensures id !in Run(s, steps).reached && Doomed(Run(s, steps), id)
    decreases |steps|
  {
    if steps != [] {
      StepKeepsInv(s, steps[0]);
      StepKeepsDoomed(s, steps[0], id);
      StoppedInQueueNeverRuns(Next(s, steps[0]), id, steps[1..]);
    }
  }

  lemma CancelInQueueDooms(s: State, id: Id)
    requires Inv(s) && id in s.waiting && id !in s.finished
    ensures Doomed(Next(s, Cancel(id)), id)
  {
    WithoutElements(s.fifo, s.cancelled, id);
  }

  // --- the position reported -----------------------------------------------

  function IndexOf(s: seq<Id>, x: Id): nat
  {
    if s == [] || s[0] == x then 0 else 1 + IndexOf(s[1..], x)
  }

  /** `ahead` for a waiting task: everyone before it in the line, and every run in progress. */
  function Ahead(s: State, id: Id): nat
  {
    IndexOf(s.waiting, id) + |s.executing|
  }

  lemma {:induction false} IndexAfterRemove(s: seq<Id>, gone: Id, x: Id)
    requires x in s && x != gone
    ensures x in Remove(s, gone)
    ensures IndexOf(Remove(s, gone), x) <= IndexOf(s, x)
  {
    assert s == [s[0]] + s[1..];
    if s[0] != x && s[0] != gone {
      IndexAfterRemove(s[1..], gone, x);
      assert Remove(s, gone)[1..] == Remove(s[1..], gone);
    }
  }

  lemma {:induction false} IndexAfterAppend(s: seq<Id>, y: Id, x: Id)
    requires x in s
    ensures IndexOf(s + [y], x) == IndexOf(s, x)
  {
    assert s == [s[0]] + s[1..];
    if s[0] != x {
      IndexAfterAppend(s[1..], y, x);
      assert (s + [y])[1..] == s[1..] + [y];
    }
  }

  /** The figure a waiting caller is shown never goes up, whatever anyone else does. */
  lemma AheadNeverIncreases(s: State, step: Step, id: Id)
    requires Inv(s) && id in s.waiting && id in Next(s, step).waiting
    ensures Ahead(Next(s, step), id) <= Ahead(s, id)
  {
    match step
    case Submit(other) =>
      IndexAfterAppend(s.waiting, other, id);
    case Cancel(other) =>
      if other in s.created && other !in s.finished {
        if other == id {
          StoppedLeavesLine(s, id);
        } else {
          IndexAfterRemove(s.waiting, other, id);
        }
      }
    case Take(w) =>
      if w < |s.workers| && s.workers[w].Idle? && s.fifo != [] {
        HeadOfLine(s);
        if s.fifo[0] !in s.cancelled {
          assert s.waiting[1..] == Next(s, step).waiting;
          RemoveDistinct(s.waiting, s.fifo[0]) by { WithoutDistinct(s.fifo, s.cancelled); }
        }
      }
    case Begin(w, _) =>
      if w < |s.workers| && s.workers[w].Starting? {
        RemoveLength(s.executing, s.workers[w].id);
      }
    case Fail(w) =>
    case Finish(w, _) =>
      if w < |s.workers| && !s.workers[w].Idle? {
        RemoveLength(s.executing, s.workers[w].id);
      }
  }

  lemma StoppedLeavesLine(s: State, id: Id)
    requires Inv(s) && id in s.created && id !in s.finished
    ensures id !in Next(s, Cancel(id)).waiting
  {
    DropOneMore(s.fifo, s.cancelled, id);
    WithoutElements(s.fifo, s.cancelled + {id}, id);
  }

  // --- no overtaking -------------------------------------------------------

  /** While `first` still waits, `second` waits behind it or was stopped. */
  ghost predicate Behind(s: State, first: Id, second: Id)
  {
    first in s.waiting ==>
      || (second in s.waiting && IndexOf(s.waiting, first) < IndexOf(s.waiting, second))
      || Doomed(s, second)
  }

  lemma {:induction false} RemoveKeepsOrder(s: seq<Id>, gone: Id, x: Id, y: Id)
    requires x in s && y in s && x != gone && y != gone && IndexOf(s, x) < IndexOf(s, y)
    ensures x in Remove(s, gone) && y in Remove(s, gone)
    ensures IndexOf(Remove(s, gone), x) < IndexOf(Remove(s, gone), y)
  {
    assert s == [s[0]] + s[1..];
    IndexAfterRemove(s, gone, x);
    IndexAfterRemove(s, gone, y);
    if s[0] != x && s[0] != gone {
      RemoveKeepsOrder(s[1..], gone, x, y);
      assert Remove(s, gone)[1..] == Remove(s[1..], gone);
    }
  }

  lemma TakeKeepsBehind(s: State, w: nat, first: Id, second: Id)
    requires Inv(s) && first in s.created && second in s.waiting && first in s.waiting
    requires IndexOf(s.waiting, first) < IndexOf(s.waiting, second)
    ensures Behind(Next(s, Take(w)), first, second)
  {
    if w < |s.workers| && s.workers[w].Idle? && s.fifo != [] {
      HeadOfLine(s);
      var head := s.fifo[0];
      WithoutDistinct(s.fifo, s.cancelled);
      RemoveDistinct(s.waiting, head);
      if first != head {
        RemoveKeepsOrder(s.waiting, head, first, second);
      }
    }
  }

  lemma StepKeepsBehind(s: State, step: Step, first: Id, second: Id)
    requires Inv(s) && first in s.created && Behind(s, first, second)
    ensures Behind(Next(s, step), first, second)
  {
    if Doomed(s, second) {
      StepKeepsDoomed(s, step, second);
    }
    match step
    case Submit(other) =>
      if first in s.waiting && !Doomed(s, second) {
        IndexAfterAppend(s.waiting, other, first);
        IndexAfterAppend(s.waiting, other, second);
      }
    case Cancel(other) =>
      if first in s.waiting && !Doomed(s, second) && other in s.created && other !in s.finished {
        WithoutElements(s.fifo, s.cancelled, second);
        if other == first {
          StoppedLeavesLine(s, first);
        } else if other != second {
          RemoveKeepsOrder(s.waiting, other, first, second);
        }
      } else if first !in s.waiting {
        RemoveAbsentStays(s.waiting, other, first);
      }
    case Take(w) =>
      if first in s.waiting && !Doomed(s, second) {
        TakeKeepsBehind(s, w, first, second);
      } else if first !in s.waiting && s.fifo != [] {
        RemoveAbsentStays(s.waiting, s.fifo[0], first);
      }
    case Begin(_, _) =>
    case Fail(_) =>
    case Finish(_, _) =>
  }

  lemma {:induction false} RemoveAbsentStays(s: seq<Id>, gone: Id, x: Id)
    requires x !in s
    ensures x !in Remove(s, gone)
  {
    if s != [] {
      RemoveAbsentStays(s[1..], gone, x);
    }
  }

  lemma {:induction false} RunKeepsBehind(s: State, steps: seq<Step>, first: Id, second: Id)
    requires Inv(s) && first in s.created && Behind(s, first, second)
    ensures Behind(Run(s, steps), first, second)
    decreases |steps|
  {
    if steps != [] {
      StepKeepsInv(s, steps[0]);
      StepKeepsBehind(s, steps[0], first, second);
      RunKeepsBehind(Next(s, steps[0]), steps[1..], first, second);
    }
  }

  /** First come, first started: nobody behind a task that is still waiting has been taken before it. */
  lemma NoOvertaking(s: State, steps: seq<Step>, first: Id, second: Id)
    requires Inv(s) && first in s.waiting && second in s.waiting
    requires IndexOf(s.waiting, first) < IndexOf(s.waiting, second)
    ensures first in Run(s, steps).waiting ==>
              second !in Run(s, steps).executing && second !in Run(s, steps).reached
  {
    WithoutElements(s.fifo, s.cancelled, first);
    RunKeepsBehind(s, steps, first, second);
    RunKeepsInv(s, steps);
    var now := Run(s, steps);
    WithoutElements(now.fifo, now.cancelled, second);
  }

  // --- the service ---------------------------------------------------------

  /** What the API reports about a task's place. */
  datatype Place = Place(running: bool, position: Option<nat>, ahead: nat, length: nat)

  class TaskService {
    var fifo: seq<Id>
    var waiting: seq<Id>
    var executing: seq<Id>
    var cancelled: set<Id>
    var workers: seq<Worker>
    var created: set<Id>
    var finished: set<Id>
    var reached: seq<Id>

    ghost function View(): State
      reads this
    {
      State(fifo, waiting, executing, cancelled, workers, created, finished, reached)
    }

    constructor (count: nat)
      ensures View() == Init(count)
    {
      fifo, waiting, executing, cancelled := [], [], [], {};
      workers := seq(count, _ => Idle);
      created, finished, reached := {}, {}, [];
    }

    /** The end of `create_task`, with a task id not used before. */
    method Enqueue(id: Id)
      requires id !in created
      modifies this
      ensures View() == Next(old(View()), Submit(id))
    {
      created := created + {id};
      waiting := waiting + [id];
      fifo := fifo + [id];
    }

    /** `cancel`, once the caller's right to stop the task has been checked: whether a worker held it. */
    method CancelTask(id: Id) returns (wasRunning: Result<bool, string>)
      modifies this
      ensures View() == Next(old(View()), Cancel(id))
      ensures wasRunning.Ok? <==> id in created && id !in old(finished)
      ensures wasRunning.Ok? ==> (wasRunning.value <==> id in executing)
    {
      if id !in created {
        return Err("Unknown task");
      }
      if id in finished {
        return Err("This task has already finished");
      }
      cancelled := cancelled + {id};
      waiting := Remove(waiting, id);
      var running := id in executing;
      if !running {
        finished := finished + {id};
      }
      return Ok(running);
    }

    /** A worker woken with the head of the queue, up to its first await. */
    method TakeNext(w: nat) returns (id: Id, dropped: bool)
      requires w < |workers| && workers[w].Idle? && fifo != []
      modifies this
      ensures View() == Next(old(View()), Take(w))
      ensures id == old(fifo[0]) && (dropped <==> id in old(cancelled))
    {
      id := fifo[0];
      fifo := fifo[1..];
      waiting := Remove(waiting, id);
      dropped := id in cancelled;
      if dropped {
        cancelled := cancelled - {id};
      } else {
        executing := executing + [id];
        workers := workers[w := Starting(id)];
      }
    }

    /** After the announcement: hand the task over, or give up if it or its user is gone. */
    method BeginRun(w: nat, found: bool)
      requires w < |workers| && workers[w].Starting?
      modifies this
      ensures View() == Next(old(View()), Begin(w, found))
    {
      if found {
        reached := reached + [workers[w].id];
        workers := workers[w := Running(workers[w].id)];
      } else {
        LetGo(w);
      }
    }

    /** An exception, up to the await that reports it. */
    method FailRun(w: nat)
      requires w < |workers| && (workers[w].Starting? || workers[w].Running?)
      modifies this
      ensures View() == Next(old(View()), Fail(w))
    {
      workers := workers[w := Failing(workers[w].id)];
    }

    method FinishRun(w: nat, terminal: bool)
      requires w < |workers| && (workers[w].Running? || workers[w].Failing?)
      modifies this
      ensures View() == Next(old(View()), Finish(w, terminal))
    {
      if terminal {
        finished := finished + {workers[w].id};
      }
      LetGo(w);
    }

    /** The `finally` of the worker loop. */
    method LetGo(w: nat)
      requires w < |workers| && !workers[w].Idle?
      modifies this
      ensures View() == Release(old(View()), w)
    {
      var id := workers[w].id;
      executing := Remove(executing, id);
      cancelled := cancelled - {id};
      workers := workers[w := Idle];
    }

    /** `queue_state`: a waiting task is told of everyone before it and every run in progress. */
    method QueueState(id: Id) returns (place: Place)
      ensures place.running <==> id in executing
      ensures place.position.Some? <==> id in executing || id in waiting
      ensures id in waiting && id !in executing ==>
                && place.ahead == Ahead(View(), id)
                && place.position == Some(place.ahead + 1)
                && place.length == |waiting| + |executing|
                && place.ahead < place.length
      ensures id in executing ==> place == Place(true, Some(0), 0, |waiting|)
      ensures id !in executing && id !in waiting ==> place == Place(false, None, 0, |waiting| + |executing|)
    {
      if id in executing {
        return Place(true, Some(0), 0, |waiting|);
      }
      var inProgress := |executing|;
      if id in waiting {
        var i := 0;
        while waiting[i] != id
          invariant 0 <= i < |waiting|
          invariant forall j :: 0 <= j < i ==> waiting[j] != id
          decreases |waiting| - i
        {
          i := i + 1;
        }
        IndexIsFirst(waiting, i);
        return Place(false, Some(i + 1 + inProgress), i + inProgress, |waiting| + inProgress);
      }
      return Place(false, None, 0, |waiting| + inProgress);
    }
  }

  lemma {:induction false} IndexIsFirst(s: seq<Id>, i: nat)
    requires i < |s| && forall j :: 0 <= j < i ==> s[j] != s[i]
    ensures IndexOf(s, s[i]) == i
  {
    if i > 0 {
      assert s[1..][i - 1] == s[i];
      IndexIsFirst(s[1..], i - 1);
    }
  }
}
