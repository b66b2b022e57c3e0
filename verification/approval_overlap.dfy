/**
 What resolutions of a held run would do to each other and to decisions if one
 could be interrupted between loading the run and writing it back. In the service
 none of the waits on that path suspends (backend/core/events.py,
 backend/tools/registry.py), so there a resolution is one step; this is what the
 guarantees of approval_runs.dfy owe to that.
 */
module ApprovalOverlap {
  import opened Wrappers
  import opened Approval
  import opened ApprovalRuns

  /** A resolution that has loaded the run and not yet written it. */
  datatype Draft = Draft(loaded: Task, u: User, id: string, resolution: Recomputed)

  datatype Shared = Shared(world: World, drafts: seq<Draft>)

  datatype Act =
    | Whole(e: Event)
    | Load(u: User, id: string, resolution: Option<Recomputed>)
    | Write(i: nat)

  /** The record a draft writes: the resolution of the run as it was loaded. */
  function Written(w: World, d: Draft): Task
  {
    Resolve(d.loaded, w.rules, w.policyFiles, d.u, d.id, Some(d.resolution)).0
  }

  predicate MayWrite(s: Shared, act: Act)
  {
    act.Write? && act.i < |s.drafts|
  }

  function StepShared(s: Shared, act: Act): Shared
  {
    match act
    case Whole(e) => s.(world := Next(s.world, e))
    case Load(u, id, resolution) =>
      if Resolve(s.world.task, s.world.rules, s.world.policyFiles, u, id, resolution).1 != Changed then s
      else s.(drafts := s.drafts + [Draft(s.world.task, u, id, resolution.value)])
    case Write(i) =>
      if i >= |s.drafts| then s
      else s.(world := s.world.(task := Written(s.world, s.drafts[i])), drafts := s.drafts[..i] + s.drafts[i + 1..])
  }

  function RunShared(s: Shared, acts: seq<Act>): Shared
    decreases |acts|
  {
    if acts == [] then s else StepShared(RunShared(s, acts[..|acts| - 1]), acts[|acts| - 1])
  }

  ghost predicate SharedInv(s: Shared)
  {
    && Inv(s.world.task)
    && forall i :: 0 <= i < |s.drafts| ==>
         var d := s.drafts[i];
         Held(d.loaded) && Resolve(d.loaded, s.world.rules, s.world.policyFiles, d.u, d.id, Some(d.resolution)).1 == Changed
  }

  /** Whether a resolution is accepted depends on the run alone, not on the rules or policy files of the moment. */
  lemma AcceptanceIsTheRuns(t: Task, rules: Rules, files: string, again: Rules, laterFiles: string, u: User, id: string, r: Option<Recomputed>)
    ensures Resolve(t, rules, files, u, id, r).1 == Changed <==> Resolve(t, again, laterFiles, u, id, r).1 == Changed
  {
  }

  lemma WritingHolds(w: World, d: Draft)
    requires Held(d.loaded) && Resolve(d.loaded, w.rules, w.policyFiles, d.u, d.id, Some(d.resolution)).1 == Changed
    ensures Held(Written(w, d))
  {
    ResolveKeepsInv(d.loaded, w.rules, w.policyFiles, d.u, d.id, Some(d.resolution));
  }

  lemma StepKeepsShared(s: Shared, act: Act)
    requires SharedInv(s)
    ensures SharedInv(StepShared(s, act))
  {
    match act
    case Whole(e) =>
      NextKeepsInv(s.world, e);
      var now := Next(s.world, e);
      forall i | 0 <= i < |s.drafts|
        ensures var d := s.drafts[i];
                Resolve(d.loaded, now.rules, now.policyFiles, d.u, d.id, Some(d.resolution)).1 == Changed
      {
        var d := s.drafts[i];
        AcceptanceIsTheRuns(d.loaded, s.world.rules, s.world.policyFiles, now.rules, now.policyFiles, d.u, d.id, Some(d.resolution));
      }
    case Load(u, id, resolution) =>
    case Write(i) =>
      if i < |s.drafts| {
        WritingHolds(s.world, s.drafts[i]);
      }
  }

  /** However resolutions overlap, nobody signs twice or their own run, and only a delivered run has released deliverables. */
  lemma {:induction false} RunKeepsShared(s: Shared, acts: seq<Act>)
    requires SharedInv(s)
    ensures SharedInv(RunShared(s, acts))
    decreases |acts|
  {
    if acts != [] {
      RunKeepsShared(s, acts[..|acts| - 1]);
      StepKeepsShared(RunShared(s, acts[..|acts| - 1]), acts[|acts| - 1]);
    }
  }

  /** And every release is still a complete one, by a decision. */
  lemma EveryReleaseIsComplete(s: Shared, act: Act)
    requires SharedInv(s) && s.world.task.status != Delivered && StepShared(s, act).world.task.status == Delivered
    ensures act.Whole? && act.e.DecisionBy?
    ensures Complete(StepShared(s, act).world.task, PlanFor(s.world.task, s.world.rules), s.world.policyFiles)
  {
    if MayWrite(s, act) {
      WritingHolds(s.world, s.drafts[act.i]);
    }
    ReleasingStep(s.world, act.e);
  }

  /** What would be lost is that a release stands: it is undone by exactly the writes of resolutions loaded before it. */
  lemma ReleaseUndoneIff(s: Shared, act: Act)
    requires SharedInv(s) && s.world.task.status == Delivered
    ensures StepShared(s, act).world.task != s.world.task <==> MayWrite(s, act)
    ensures MayWrite(s, act) ==> Held(StepShared(s, act).world.task)
  {
    if MayWrite(s, act) {
      WritingHolds(s.world, s.drafts[act.i]);
    } else if act.Whole? {
      DeliveredIsFinal(s.world, act.e);
    }
  }

  /** A run that is delivered and stays exactly as it was delivered. */
  ghost predicate Stands(s: Shared, acts: seq<Act>)
  {
    forall k :: 0 <= k <= |acts| ==> RunShared(s, acts[..k]).world.task == s.world.task
  }

  lemma NothingIsLoaded(s: Shared, act: Act)
    requires SharedInv(s) && s.world.task.status == Delivered && !MayWrite(s, act)
    ensures StepShared(s, act).world.task == s.world.task && StepShared(s, act).drafts == s.drafts
  {
    ReleaseUndoneIff(s, act);
  }

  lemma StandsOneMore(s: Shared, acts: seq<Act>)
    requires acts != []
    ensures Stands(s, acts) <==> Stands(s, acts[..|acts| - 1]) && RunShared(s, acts).world.task == s.world.task
  {
    var front := acts[..|acts| - 1];
    assert forall k :: 0 <= k <= |front| ==> front[..k] == acts[..k];
    assert acts[..|acts|] == acts;
  }

  /**
   Over any run a release stands to the end exactly when none of the resolutions that were loaded before it
   is written after it; nothing that comes later can touch it.
   */
  lemma {:induction false} ReleaseStandsIff(s: Shared, acts: seq<Act>)
    requires SharedInv(s) && s.world.task.status == Delivered
    ensures Stands(s, acts) <==> forall k :: 0 <= k < |acts| ==> !MayWrite(s, acts[k])
    ensures Stands(s, acts) ==> RunShared(s, acts).drafts == s.drafts
    decreases |acts|
  {
    if acts == [] {
      assert acts[..0] == [];
    } else {
      var n := |acts| - 1;
      var front, last := acts[..n], acts[n];
      var before := RunShared(s, front);
      ReleaseStandsIff(s, front);
      StandsOneMore(s, acts);
      assert forall k :: 0 <= k < n ==> front[k] == acts[k];
      if Stands(s, front) {
        assert front[..|front|] == front;
        RunKeepsShared(s, front);
        ReleaseUndoneIff(before, last);
        if !MayWrite(before, last) {
          NothingIsLoaded(before, last);
        }
      }
    }
  }

  /** Not interrupted, loading and writing are the one step the service takes. */
  lemma UninterruptedIsWhole(s: Shared, u: User, id: string, resolution: Option<Recomputed>)
    requires Resolve(s.world.task, s.world.rules, s.world.policyFiles, u, id, resolution).1 == Changed
    ensures StepShared(StepShared(s, Load(u, id, resolution)), Write(|s.drafts|)) == StepShared(s, Whole(ResolutionBy(u, id, resolution)))
  {
    var loaded := StepShared(s, Load(u, id, resolution));
    assert loaded.drafts[..|s.drafts|] + loaded.drafts[|s.drafts| + 1..] == s.drafts;
  }
}
