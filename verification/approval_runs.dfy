/**
 What holds over every run of a held task: decisions, resolutions, edits to the
 run, edits to the policy files, restarts that load them, and cancellations, in
 any order and by anyone.
 */
module ApprovalRuns {
  import opened Wrappers
  import opened Approval

  /** The stored task, the rules this process loaded, and the policy files on disk. */
  datatype World = World(task: Task, rules: Rules, policyFiles: string)

  datatype Event =
    | DecisionBy(u: User, d: Decision, comment: string, seen: Option<Digest>)
    | ResolutionBy(u: User, id: string, resolution: Option<Recomputed>)
    | Amendment(revised: Task)
    | PolicyEdit(policyFiles: string)
    | Restart(rules: Rules)
    | CancellationBy(u: User)

  /** Anything a digest binds may be rewritten while the run is held; its approval record may not. */
  function Amend(t: Task, revised: Task, policyFiles: string): Task
  {
    if t.status != Awaiting then t
    else Persist(revised.(status := t.status, submitter := t.submitter, approval := t.approval,
                          deliverables := AllReleased(revised.deliverables, false)), policyFiles)
  }

  function Next(w: World, e: Event): World
  {
    match e
    case DecisionBy(u, d, comment, seen) => w.(task := Decide(w.task, w.rules, w.policyFiles, u, d, comment, seen).0)
    case ResolutionBy(u, id, resolution) => w.(task := Resolve(w.task, w.rules, w.policyFiles, u, id, resolution).0)
    case Amendment(revised) => w.(task := Amend(w.task, revised, w.policyFiles))
    case PolicyEdit(policyFiles) => w.(policyFiles := policyFiles)
    case Restart(rules) => w.(rules := rules)
    case CancellationBy(u) => w.(task := Cancel(w.task, w.policyFiles, u).0)
  }

  function Run(w: World, es: seq<Event>): World
    decreases |es|
  {
    if es == [] then w else Next(Run(w, es[..|es| - 1]), es[|es| - 1])
  }

  // --- the invariant -------------------------------------------------------

  /** No one signs twice, and no one signs their own run. */
  ghost predicate Separate(t: Task)
  {
    var given := t.approval.signatures;
    && (forall i, j :: 0 <= i < j < |given| ==> given[i].userId != given[j].userId)
    && (forall i :: 0 <= i < |given| ==> given[i].userId != t.submitter)
  }

  ghost predicate Inv(t: Task)
  {
    && Separate(t)
    && (forall i :: 0 <= i < |t.deliverables| ==> (t.deliverables[i].released <==> t.status == Delivered))
  }

  /** A task as the gate leaves it when review is required, or as an earlier version of the service stored it. */
  ghost predicate Held(t: Task)
  {
    t.status == Awaiting && Inv(t)
  }

  lemma {:induction false} NoneReleasedKeepsAll(ds: seq<Deliverable>)
    requires forall i :: 0 <= i < |ds| ==> !ds[i].released
    ensures AlreadyReleased(ds) == []
  {
    if ds != [] {
      NoneReleasedKeepsAll(ds[1..]);
    }
  }

  lemma SameContent(t: Task, u: Task)
    requires t.answer == u.answer && t.results == u.results && t.conflicts == u.conflicts && t.assessed == u.assessed
    requires Files(t.deliverables) == Files(u.deliverables)
    ensures ContentOf(t) == ContentOf(u)
  {
    assert ContentOf(t).conflicts == ContentOf(u).conflicts;
  }

  /** A signature changes only the list of signatures, and adds one person who was not on it. */
  lemma SigningAddsOne(t: Task, policyFiles: string, u: User)
    requires Sign(t, policyFiles, u).Ok?
    ensures var signed, given := Sign(t, policyFiles, u).value, t.approval.signatures;
            && signed == t.(approval := t.approval.(signatures := signed.approval.signatures))
            && |signed.approval.signatures| == |given| + 1 <= |t.approval.required|
            && signed.approval.signatures[..|given|] == given
            && signed.approval.signatures[|given|].userId == u.id
            && signed.approval.signatures[|given|].role == u.role == t.approval.required[|given|].role
            && (Separate(t) && u.id != t.submitter ==> Separate(signed))
            && ContentOf(signed) == ContentOf(t)
            && Current(signed, policyFiles) == Current(t, policyFiles)
            && (AllFresh(t, policyFiles) ==> AllFresh(signed, policyFiles))
  {
    var signed := Sign(t, policyFiles, u).value;
    SameContent(signed, t);
    forall i | 0 <= i < |t.approval.signatures|
      ensures signed.approval.signatures[i] == t.approval.signatures[i]
    {
    }
  }

  lemma RefreshKeepsInv(t: Task, rules: Rules, policyFiles: string)
    requires Inv(t)
    ensures Inv(Refresh(t, rules, policyFiles).0)
  {
  }

  lemma ConcludeKeepsInv(kept: Task, now: Task, policyFiles: string, u: User, d: Decision)
    requires Inv(kept) && Inv(now) && u.id != now.submitter
    ensures Inv(Conclude(kept, now, policyFiles, u, d).0)
  {
    if Sign(now, policyFiles, u).Ok? {
      SigningAddsOne(now, policyFiles, u);
    }
  }

  lemma DecideKeepsInv(t: Task, rules: Rules, policyFiles: string, u: User, d: Decision, comment: string, seen: Option<Digest>)
    requires Inv(t)
    ensures Inv(Decide(t, rules, policyFiles, u, d, comment, seen).0)
  {
    var after := Decide(t, rules, policyFiles, u, d, comment, seen).0;
    var (now, voided) := Refresh(t, rules, policyFiles);
    var kept := if voided then now else t;
    RefreshKeepsInv(t, rules, policyFiles);
    if after != t && after != kept {
      assert after == Conclude(kept, now, policyFiles, u, d).0;
      ConcludeKeepsInv(kept, now, policyFiles, u, d);
    }
  }

  lemma ResolveKeepsInv(t: Task, rules: Rules, policyFiles: string, u: User, id: string, resolution: Option<Recomputed>)
    requires Inv(t)
    ensures Inv(Resolve(t, rules, policyFiles, u, id, resolution).0)
  {
    if t.status == Awaiting && resolution.Some? {
      NoneReleasedKeepsAll(t.deliverables);
      RefreshKeepsInv(AfterResolution(t, id, resolution.value), rules, policyFiles);
    }
  }

  lemma NextKeepsInv(w: World, e: Event)
    requires Inv(w.task)
    ensures Inv(Next(w, e).task)
  {
    match e
    case DecisionBy(u, d, comment, seen) => DecideKeepsInv(w.task, w.rules, w.policyFiles, u, d, comment, seen);
    case ResolutionBy(u, id, resolution) => ResolveKeepsInv(w.task, w.rules, w.policyFiles, u, id, resolution);
    case _ =>
  }

  /** A delivered run is finished: no event changes its record. */
  lemma DeliveredIsFinal(w: World, e: Event)
    requires w.task.status == Delivered
    ensures Next(w, e).task == w.task
  {
  }

  lemma {:induction false} RunKeepsInv(w: World, es: seq<Event>)
    requires Inv(w.task)
    ensures Inv(Run(w, es).task)
    decreases |es|
  {
    if es != [] {
      RunKeepsInv(w, es[..|es| - 1]);
      NextKeepsInv(Run(w, es[..|es| - 1]), es[|es| - 1]);
    }
  }

  // --- what a release stands on --------------------------------------------

  ghost predicate RolesFollow(given: seq<Signature>, plan: seq<Required>)
  {
    |given| <= |plan| && forall i :: 0 <= i < |given| ==> given[i].role == plan[i].role
  }

  /** The signatures still standing when a decision on this task begins. */
  function Standing(t: Task, rules: Rules, policyFiles: string): seq<Signature>
  {
    Refresh(t, rules, policyFiles).0.approval.signatures
  }

  /** A complete set: every place filled, by different people, none the submitter, all on this version. */
  ghost predicate Complete(t: Task, plan: seq<Required>, policyFiles: string)
  {
    && t.approval.required == plan
    && |t.approval.signatures| == |plan|
    && Separate(t)
    && AllFresh(t, policyFiles)
    && !OpenHighConflict(t)
    && (forall i :: 0 <= i < |t.deliverables| ==> t.deliverables[i].released)
  }

  lemma {:induction false} ReleaseBindsNothing(ds: seq<Deliverable>, released: bool)
    ensures Files(AllReleased(ds, released)) == Files(ds)
  {
    if ds != [] {
      var n := |ds| - 1;
      ReleaseBindsNothing(ds[..n], released);
      assert AllReleased(ds, released)[..n] == AllReleased(ds[..n], released);
    }
  }

  lemma SettleKeepsDigests(t: Task, policyFiles: string, d: Decision)
    ensures ContentOf(Settle(t, policyFiles, d)) == ContentOf(t)
    ensures Current(Settle(t, policyFiles, d), policyFiles) == Current(t, policyFiles)
  {
    ReleaseBindsNothing(t.deliverables, d.Approve?);
    SameContent(Settle(t, policyFiles, d), t);
  }

  lemma RefreshStandsOrVoids(t: Task, rules: Rules, policyFiles: string)
    ensures var now := Refresh(t, rules, policyFiles).0;
            && ContentOf(now) == ContentOf(t) && Current(now, policyFiles) == Current(t, policyFiles)
            && now.approval.required == PlanFor(t, rules)
            && (now.approval.signatures == t.approval.signatures || now.approval.signatures == [])
            && (now.approval.signatures == t.approval.signatures ==> AllFresh(now, policyFiles))
            && (now.approval.signatures == [] <==>
                  t.approval.signatures == [] || !AllFresh(t, policyFiles) || PlanFor(t, rules) == [])
  {
    SameContent(Refresh(t, rules, policyFiles).0, t);
  }

  /**
   The release step, for every stored task and every caller: one approval, by
   someone other than the submitter, that fills the last place of the plan in
   force. Every place carries the role the plan asks for exactly when the
   signatures that stood before the call already did.
   */
  lemma ReleaseIsComplete(t: Task, rules: Rules, policyFiles: string, u: User, d: Decision, comment: string, seen: Option<Digest>)
    requires Inv(t) && t.status == Awaiting
    requires Decide(t, rules, policyFiles, u, d, comment, seen).0.status == Delivered
    ensures var after, plan := Decide(t, rules, policyFiles, u, d, comment, seen).0, PlanFor(t, rules);
            var standing := Standing(t, rules, policyFiles);
            && d == Approve && u.mayDecide && u.id != t.submitter
            && Complete(after, plan, policyFiles)
            && (plan != [] ==>
                  && after.approval.signatures[..|plan| - 1] == standing
                  && after.approval.signatures[|plan| - 1].userId == u.id
                  && after.approval.signatures[|plan| - 1].role == u.role == plan[|plan| - 1].role)
            && (RolesFollow(after.approval.signatures, plan) <==> RolesFollow(standing, plan))
  {
    var (now, voided) := Refresh(t, rules, policyFiles);
    RefreshStandsOrVoids(t, rules, policyFiles);
    RefreshKeepsInv(t, rules, policyFiles);
    ConcludingIsComplete(if voided then now else t, now, policyFiles, u, d);
  }

  lemma ConcludingIsComplete(kept: Task, now: Task, policyFiles: string, u: User, d: Decision)
    requires Inv(now) && AllFresh(now, policyFiles) && u.id != now.submitter
    requires now.status == Awaiting && kept.status == Awaiting
    requires now.approval.required == [] ==> now.approval.signatures == []
    requires d.Approve? ==> !OpenHighConflict(now)
    requires Conclude(kept, now, policyFiles, u, d).0.status == Delivered
    ensures var after, plan := Conclude(kept, now, policyFiles, u, d).0, now.approval.required;
            && d == Approve
            && Complete(after, plan, policyFiles)
            && (plan != [] ==>
                  && after.approval.signatures[..|plan| - 1] == now.approval.signatures
                  && after.approval.signatures[|plan| - 1].userId == u.id
                  && after.approval.signatures[|plan| - 1].role == u.role == plan[|plan| - 1].role)
            && (RolesFollow(after.approval.signatures, plan) <==> RolesFollow(now.approval.signatures, plan))
  {
    if now.approval.required == [] {
      SettlingCompletes(now, policyFiles);
    } else {
      SigningAddsOne(now, policyFiles, u);
      var signed := Sign(now, policyFiles, u).value;
      SettlingCompletes(signed, policyFiles);
      LastPlace(signed.approval.signatures, now.approval.signatures, now.approval.required);
    }
  }

  lemma SettlingCompletes(t: Task, policyFiles: string)
    requires Separate(t) && AllFresh(t, policyFiles) && !OpenHighConflict(t)
    requires |t.approval.signatures| == |t.approval.required|
    ensures Complete(Settle(t, policyFiles, Approve), t.approval.required, policyFiles)
  {
    SettleKeepsDigests(t, policyFiles, Approve);
    var settled := Settle(t, policyFiles, Approve);
    forall i | 0 <= i < |t.approval.signatures|
      ensures Fresh(settled, policyFiles, settled.approval.signatures[i])
    {
      assert Fresh(t, policyFiles, t.approval.signatures[i]);
    }
  }

  lemma LastPlace(given: seq<Signature>, standing: seq<Signature>, plan: seq<Required>)
    requires |given| == |plan| == |standing| + 1 && given[..|standing|] == standing
    requires given[|standing|].role == plan[|standing|].role
    ensures RolesFollow(given, plan) <==> RolesFollow(standing, plan)
  {
    assert forall i :: 0 <= i < |standing| ==> given[i] == standing[i];
  }

  /** From held to delivered there is one step that released everything; before it nothing was, after it nothing changes. */
  lemma {:induction false} OneStepReleases(w: World, es: seq<Event>) returns (k: nat)
    requires Held(w.task)
    requires Run(w, es).task.status == Delivered
    ensures k < |es| && es[k].DecisionBy?
    ensures var before, after := Run(w, es[..k]), Run(w, es[..k + 1]);
            && Held(before.task)
            && after.task.status == Delivered
            && Complete(after.task, PlanFor(before.task, before.rules), before.policyFiles)
            && Run(w, es).task == after.task
    decreases |es|
  {
    var n := |es| - 1;
    var before := Run(w, es[..n]);
    RunKeepsInv(w, es[..n]);
    if before.task.status == Delivered {
      DeliveredIsFinal(before, es[n]);
      k := OneStepReleases(w, es[..n]);
      assert es[..n][..k] == es[..k] && es[..n][..k + 1] == es[..k + 1];
    } else {
      k := n;
      assert es[..k + 1] == es;
      ReleasingStep(before, es[n]);
    }
  }

  /** Whatever step delivers a run is a decision on a complete set. */
  lemma ReleasingStep(w: World, e: Event)
    requires Inv(w.task) && w.task.status != Delivered && Next(w, e).task.status == Delivered
    ensures e.DecisionBy? && Held(w.task)
    ensures Complete(Next(w, e).task, PlanFor(w.task, w.rules), w.policyFiles)
  {
    OnlyDecisionsDeliver(w, e);
    ReleaseIsComplete(w.task, w.rules, w.policyFiles, e.u, e.d, e.comment, e.seen);
  }

  lemma OnlyDecisionsDeliver(w: World, e: Event)
    requires w.task.status != Delivered && Next(w, e).task.status == Delivered
    ensures e.DecisionBy? && w.task.status == Awaiting
  {
  }

  /** Over every run of a held task, a released deliverable belongs to a delivered run. */
  lemma ReleasedImpliesDelivered(w: World, es: seq<Event>)
    requires Held(w.task)
    ensures forall d :: d in Run(w, es).task.deliverables && d.released ==> Run(w, es).task.status == Delivered
  {
    RunKeepsInv(w, es);
  }

  // --- roles over whole runs -----------------------------------------------

  function SeverityBound(c: Content): Option<string>
  {
    if c.assessed == Calculated then LastBand(c.results) else None
  }

  /** Version 2 signatures on one version, following the plan that version had under the rules `loaded` gives for its policy files. */
  ghost predicate Aligned(t: Task, loaded: string -> Rules)
  {
    var given := t.approval.signatures;
    given != [] ==>
      && (forall i :: 0 <= i < |given| ==> given[i].version == 2 && given[i].digest == given[0].digest)
      && given[0].digest.Version2?
      && RolesFollow(given, t.approval.required)
      && var severity := SeverityBound(given[0].digest.content);
         severity.Some? ==> t.approval.required == RequiredSignatures(loaded(given[0].digest.policyFiles), severity.value)
  }

  /** The rules in force at every decision and resolution are the ones `loaded` gives for the files on disk then. */
  ghost predicate PolicyInForce(w: World, es: seq<Event>, loaded: string -> Rules)
  {
    forall k :: 0 <= k < |es| && (es[k].DecisionBy? || es[k].ResolutionBy?) ==>
                  Run(w, es[..k]).rules == loaded(Run(w, es[..k]).policyFiles)
  }

  lemma StandingFollowsPlan(t: Task, rules: Rules, policyFiles: string, loaded: string -> Rules)
    requires Aligned(t, loaded) && rules == loaded(policyFiles)
    ensures RolesFollow(Standing(t, rules, policyFiles), PlanFor(t, rules))
    ensures Aligned(Refresh(t, rules, policyFiles).0, loaded)
  {
    RefreshStandsOrVoids(t, rules, policyFiles);
    var given := t.approval.signatures;
    if Standing(t, rules, policyFiles) != [] {
      assert Fresh(t, policyFiles, given[0]);
      assert PlanFor(t, rules) == t.approval.required;
    }
  }

  lemma SigningKeepsAligned(t: Task, policyFiles: string, u: User, loaded: string -> Rules)
    requires Aligned(t, loaded) && AllFresh(t, policyFiles)
    requires Sign(t, policyFiles, u).Ok?
    requires Severity(t).Some? ==> t.approval.required == RequiredSignatures(loaded(policyFiles), Severity(t).value)
    ensures Aligned(Sign(t, policyFiles, u).value, loaded)
  {
    var given := t.approval.signatures;
    if given != [] {
      assert Fresh(t, policyFiles, given[0]);
    }
  }

  lemma ConcludeKeepsAligned(kept: Task, now: Task, policyFiles: string, u: User, d: Decision, loaded: string -> Rules)
    requires Aligned(kept, loaded) && Aligned(now, loaded) && AllFresh(now, policyFiles)
    requires Severity(now).Some? ==> now.approval.required == RequiredSignatures(loaded(policyFiles), Severity(now).value)
    ensures Aligned(Conclude(kept, now, policyFiles, u, d).0, loaded)
  {
    if Sign(now, policyFiles, u).Ok? {
      SigningKeepsAligned(now, policyFiles, u, loaded);
    }
  }

  lemma DecideKeepsAligned(t: Task, rules: Rules, policyFiles: string, u: User, d: Decision, comment: string,
                           seen: Option<Digest>, loaded: string -> Rules)
    requires Aligned(t, loaded) && rules == loaded(policyFiles)
    ensures Aligned(Decide(t, rules, policyFiles, u, d, comment, seen).0, loaded)
  {
    var (now, voided) := Refresh(t, rules, policyFiles);
    StandingFollowsPlan(t, rules, policyFiles, loaded);
    RefreshStandsOrVoids(t, rules, policyFiles);
    ConcludeKeepsAligned(if voided then now else t, now, policyFiles, u, d, loaded);
  }

  lemma ResolveKeepsAligned(t: Task, rules: Rules, policyFiles: string, u: User, id: string,
                            resolution: Option<Recomputed>, loaded: string -> Rules)
    requires Aligned(t, loaded) && rules == loaded(policyFiles)
    ensures Aligned(Resolve(t, rules, policyFiles, u, id, resolution).0, loaded)
  {
    if resolution.Some? {
      StandingFollowsPlan(AfterResolution(t, id, resolution.value), rules, policyFiles, loaded);
    }
  }

  lemma {:induction false} RunKeepsAligned(w: World, es: seq<Event>, loaded: string -> Rules)
    requires Aligned(w.task, loaded) && PolicyInForce(w, es, loaded)
    ensures Aligned(Run(w, es).task, loaded)
    decreases |es|
  {
    if es != [] {
      var n := |es| - 1;
      forall k | 0 <= k < n
        ensures es[..n][..k] == es[..k]
      {
      }
      RunKeepsAligned(w, es[..n], loaded);
      var before, e := Run(w, es[..n]), es[n];
      if e.DecisionBy? {
        DecideKeepsAligned(before.task, before.rules, before.policyFiles, e.u, e.d, e.comment, e.seen, loaded);
      } else if e.ResolutionBy? {
        ResolveKeepsAligned(before.task, before.rules, before.policyFiles, e.u, e.id, e.resolution, loaded);
      }
    }
  }

  /**
   In every run that starts with no signatures, or with aligned ones, and in
   which the rules in force follow the policy files bound, every signature of a
   release carries its own place's role.
   */
  lemma EveryPlaceCarriesItsRole(w: World, es: seq<Event>, loaded: string -> Rules)
    requires Held(w.task) && Aligned(w.task, loaded) && PolicyInForce(w, es, loaded)
    requires Run(w, es).task.status == Delivered
    ensures RolesFollow(Run(w, es).task.approval.signatures, Run(w, es).task.approval.required)
  {
    RunKeepsAligned(w, es, loaded);
    var k := OneStepReleases(w, es);
  }

  /** A process that is never restarted keeps one set of rules, so its runs qualify. */
  lemma {:induction false} WithoutRestartPolicyIsInForce(w: World, es: seq<Event>)
    requires forall k :: 0 <= k < |es| ==> !es[k].Restart?
    ensures Run(w, es).rules == w.rules
    ensures PolicyInForce(w, es, _ => w.rules)
    decreases |es|
  {
    if es != [] {
      var n := |es| - 1;
      WithoutRestartPolicyIsInForce(w, es[..n]);
      forall k | 0 <= k < n
        ensures es[..n][..k] == es[..k] && es[..n][k] == es[k]
      {
      }
    }
  }

  // --- signatures are kept all or none -------------------------------------

  /** Any change to what a version 2 digest binds empties the list at the next decision or resolution. */
  lemma ChangeVoidsSignatures(t: Task, policyFiles: string, later: Task, laterFiles: string, rules: Rules)
    requires AllFresh(t, policyFiles) && later.approval.signatures == t.approval.signatures
    requires exists s :: s in t.approval.signatures && s.version >= 2
    requires Current(later, laterFiles) != Current(t, policyFiles)
    ensures Standing(later, rules, laterFiles) == []
  {
    var i :| 0 <= i < |t.approval.signatures| && t.approval.signatures[i].version >= 2;
    assert Fresh(t, policyFiles, t.approval.signatures[i]);
    assert !Fresh(later, laterFiles, later.approval.signatures[i]);
  }

  /** Version 1 signatures answer to the content alone: they stand exactly while it is unchanged and a plan remains. */
  lemma Version1StandsIff(t: Task, policyFiles: string, later: Task, laterFiles: string, rules: Rules)
    requires AllFresh(t, policyFiles) && later.approval.signatures == t.approval.signatures != []
    requires forall s :: s in t.approval.signatures ==> s.version < 2
    ensures Standing(later, rules, laterFiles) == t.approval.signatures
            <==> ContentOf(later) == ContentOf(t) && PlanFor(later, rules) != []
  {
    RefreshStandsOrVoids(later, rules, laterFiles);
    forall i | 0 <= i < |t.approval.signatures|
      ensures Fresh(later, laterFiles, later.approval.signatures[i]) <==> ContentOf(later) == ContentOf(t)
    {
      assert Fresh(t, policyFiles, t.approval.signatures[i]);
      assert t.approval.signatures[i] in t.approval.signatures;
    }
    assert AllFresh(later, laterFiles) ==> Fresh(later, laterFiles, later.approval.signatures[0]);
  }

  /** A resolution adds a person's choice to the evidence, so no version 2 signature survives it. */
  lemma ResolutionVoidsSignatures(t: Task, rules: Rules, policyFiles: string, u: User, id: string, resolution: Option<Recomputed>)
    requires AllFresh(t, policyFiles) && exists s :: s in t.approval.signatures && s.version >= 2
    requires Resolve(t, rules, policyFiles, u, id, resolution).1 == Changed
    ensures Resolve(t, rules, policyFiles, u, id, resolution).0.approval.signatures == []
  {
    var r := resolution.value;
    var after := AfterResolution(t, id, r);
    assert |multiset(after.evidence)| == |after.evidence| > |t.evidence| == |multiset(t.evidence)|;
    ChangeVoidsSignatures(t, policyFiles, after, policyFiles, rules);
  }

  /** A refused call changes nothing, unless it found stale signatures: then those go, with the plan they answered. */
  lemma RefusalOnlyVoids(t: Task, rules: Rules, policyFiles: string, u: User, d: Decision, comment: string, seen: Option<Digest>)
    requires Decide(t, rules, policyFiles, u, d, comment, seen).1.Refused?
    ensures var after := Decide(t, rules, policyFiles, u, d, comment, seen).0;
            after == t ||
            (&& t.approval.signatures != [] && (!AllFresh(t, policyFiles) || PlanFor(t, rules) == [])
             && after == Persist(t.(approval := after.approval), policyFiles)
             && after.approval.signatures == [] && after.approval.required == PlanFor(t, rules)
             && after.approval.decision == t.approval.decision && after.approval.boundDigest == t.approval.boundDigest)
  {
    var (now, voided) := Refresh(t, rules, policyFiles);
    SameContent(now, t);
    ConcludingAddsOne(if voided then now else t, now, policyFiles, u, d);
  }

  // --- a plan of n is delivered by the n-th approval, never earlier --------

  function Approvals(signers: seq<User>): seq<Event>
  {
    seq(|signers|, i requires 0 <= i < |signers| => DecisionBy(signers[i], Approve, "", None))
  }

  /** Who may give the next signature, on a run nothing has touched since the earlier ones. */
  ghost predicate NextInOrder(t: Task, rules: Rules, policyFiles: string, u: User)
  {
    && t.status == Awaiting && AllFresh(t, policyFiles) && !OpenHighConflict(t)
    && |t.approval.signatures| < |PlanFor(t, rules)|
    && u.mayDecide && u.id != t.submitter && u.role == PlanFor(t, rules)[|t.approval.signatures|].role
    && (forall s :: s in t.approval.signatures ==> s.userId != u.id)
  }

  lemma ApprovalSigns(t: Task, rules: Rules, policyFiles: string, u: User)
    requires NextInOrder(t, rules, policyFiles, u)
    ensures var after, plan := Decide(t, rules, policyFiles, u, Approve, "", None).0, PlanFor(t, rules);
            && after.approval.required == plan == PlanFor(after, rules)
            && after.approval.signatures[..|after.approval.signatures| - 1] == t.approval.signatures
            && |after.approval.signatures| == |t.approval.signatures| + 1
            && after.approval.signatures[|t.approval.signatures|].userId == u.id
            && after.approval.signatures[|t.approval.signatures|].role == u.role
            && AllFresh(after, policyFiles)
            && after.submitter == t.submitter && after.results == t.results && after.assessed == t.assessed
            && after.conflicts == t.conflicts
            && after.status == if |after.approval.signatures| == |plan| then Delivered else Awaiting
  {
    var now, plan := Refresh(t, rules, policyFiles).0, PlanFor(t, rules);
    RefreshStandsOrVoids(t, rules, policyFiles);
    assert plan[|t.approval.signatures|] in plan;
    assert Objection(t, now, policyFiles, u, Approve, "", None) == None;
    assert Sign(now, policyFiles, u).Ok?;
    SigningAddsOne(now, policyFiles, u);
    var signed := Sign(now, policyFiles, u).value;
    var after := Decide(t, rules, policyFiles, u, Approve, "", None).0;
    if |signed.approval.signatures| == |plan| {
      assert after == Settle(signed, policyFiles, Approve);
      SettleKeepsDigests(signed, policyFiles, Approve);
    } else {
      assert after == Persist(signed, policyFiles);
      SameContent(after, signed);
    }
    forall i | 0 <= i < |after.approval.signatures|
      ensures Fresh(after, policyFiles, after.approval.signatures[i])
    {
      assert Fresh(signed, policyFiles, signed.approval.signatures[i]);
    }
  }

  ghost predicate MaySign(t: Task, plan: seq<Required>, signers: seq<User>)
  {
    && |signers| <= |plan|
    && (forall i :: 0 <= i < |signers| ==>
          signers[i].mayDecide && signers[i].id != t.submitter && signers[i].role == plan[i].role)
    && (forall i, j :: 0 <= i < j < |signers| ==> signers[i].id != signers[j].id)
  }

  /** Signed so far by exactly these people, on the version it still is. */
  ghost predicate SignedBy(w: World, t: Task, signers: seq<User>)
  {
    var plan := PlanFor(w.task, w.rules);
    && t.status == (if |signers| == |plan| then Delivered else Awaiting)
    && |t.approval.signatures| == |signers|
    && (forall i :: 0 <= i < |signers| ==> t.approval.signatures[i].userId == signers[i].id)
    && AllFresh(t, w.policyFiles)
    && PlanFor(t, w.rules) == plan
    && t.submitter == w.task.submitter && t.conflicts == w.task.conflicts
  }

  lemma OneMoreSigns(w: World, t: Task, signers: seq<User>)
    requires signers != [] && !OpenHighConflict(w.task) && MaySign(w.task, PlanFor(w.task, w.rules), signers)
    requires SignedBy(w, t, signers[..|signers| - 1])
    ensures SignedBy(w, Decide(t, w.rules, w.policyFiles, signers[|signers| - 1], Approve, "", None).0, signers)
  {
    var last := signers[|signers| - 1];
    assert forall i :: 0 <= i < |signers| - 1 ==> signers[..|signers| - 1][i] == signers[i];
    ApprovalSigns(t, w.rules, w.policyFiles, last);
    var after := Decide(t, w.rules, w.policyFiles, last, Approve, "", None).0;
    assert forall i :: 0 <= i < |signers| - 1 ==> after.approval.signatures[i] == t.approval.signatures[i];
  }

  /** In-order approvals by distinct people other than the submitter: held after each but the last, delivered by the n-th. */
  lemma {:induction false} NthApprovalDelivers(w: World, signers: seq<User>)
    requires w.task.status == Awaiting && w.task.approval.signatures == [] && !OpenHighConflict(w.task)
    requires PlanFor(w.task, w.rules) != [] && MaySign(w.task, PlanFor(w.task, w.rules), signers)
    ensures SignedBy(w, Run(w, Approvals(signers)).task, signers)
    ensures Run(w, Approvals(signers)).rules == w.rules && Run(w, Approvals(signers)).policyFiles == w.policyFiles
    decreases |signers|
  {
    if signers != [] {
      var n := |signers| - 1;
      assert Approvals(signers)[..n] == Approvals(signers[..n]);
      NthApprovalDelivers(w, signers[..n]);
      OneMoreSigns(w, Run(w, Approvals(signers[..n])).task, signers);
    }
  }

  /** How many approvals of a run were accepted. */
  function Accepted(w: World, es: seq<Event>): nat
    decreases |es|
  {
    if es == [] then 0
    else
      var n := |es| - 1;
      var before, e := Run(w, es[..n]), es[n];
      Accepted(w, es[..n]) +
      if e.DecisionBy? && e.d == Approve
         && !Decide(before.task, before.rules, before.policyFiles, e.u, e.d, e.comment, e.seen).1.Refused? then 1 else 0
  }

  /** No release comes early: each accepted approval adds at most one signature, and nothing else adds any. */
  lemma {:induction false} NeverEarlier(w: World, es: seq<Event>)
    requires Held(w.task) && w.task.approval.signatures == []
    ensures |Run(w, es).task.approval.signatures| <= Accepted(w, es)
    ensures Run(w, es).task.status == Delivered ==> |Run(w, es).task.approval.required| <= Accepted(w, es)
    decreases |es|
  {
    if es != [] {
      var n := |es| - 1;
      NeverEarlier(w, es[..n]);
      SignaturesGrowByOne(Run(w, es[..n]), es[n]);
      if Run(w, es).task.status == Delivered {
        var k := OneStepReleases(w, es);
      }
    }
  }

  lemma SignaturesGrowByOne(w: World, e: Event)
    ensures |Next(w, e).task.approval.signatures| <= |w.task.approval.signatures| +
            if e.DecisionBy? && e.d == Approve
               && !Decide(w.task, w.rules, w.policyFiles, e.u, e.d, e.comment, e.seen).1.Refused? then 1 else 0
  {
    if e.DecisionBy? {
      DecidingAddsOne(w.task, w.rules, w.policyFiles, e.u, e.d, e.comment, e.seen);
    }
  }

  lemma DecidingAddsOne(t: Task, rules: Rules, policyFiles: string, u: User, d: Decision, comment: string, seen: Option<Digest>)
    ensures var (after, outcome) := Decide(t, rules, policyFiles, u, d, comment, seen);
            |after.approval.signatures| <= |t.approval.signatures| + if d == Approve && !outcome.Refused? then 1 else 0
  {
    var (now, voided) := Refresh(t, rules, policyFiles);
    var kept := if voided then now else t;
    var result := Decide(t, rules, policyFiles, u, d, comment, seen);
    if result.0 != t && result.0 != kept {
      assert result == Conclude(kept, now, policyFiles, u, d);
      ConcludingAddsOne(kept, now, policyFiles, u, d);
    }
  }

  lemma ConcludingAddsOne(kept: Task, now: Task, policyFiles: string, u: User, d: Decision)
    ensures var (after, outcome) := Conclude(kept, now, policyFiles, u, d);
            if outcome.Refused? then after == kept
            else |after.approval.signatures| <= |now.approval.signatures| + if d == Approve then 1 else 0
  {
  }

  // --- where the plan moves under the signatures ---------------------------

  /** Two people, the plan reloaded between them with another role in the first place. */
  ghost predicate PlanMovesBetween(t: Task, loaded: Rules, reloaded: Rules, first: User, second: User)
  {
    && Held(t) && t.approval.signatures == [] && !OpenHighConflict(t)
    && (var before, after := PlanFor(t, loaded), PlanFor(t, reloaded);
        && |before| == |after| == 2 && before[0].role != after[0].role
        && first.role == before[0].role && second.role == after[1].role)
    && first.mayDecide && second.mayDecide
    && first.id != t.submitter && second.id != t.submitter && first.id != second.id
  }

  /**
   The policy files are read from disk for the digest but from memory for the
   plan. Edited first and loaded after the first signature, they change whose
   place the first signature fills without voiding it, and the run is released.
   */
  lemma ReloadCanMisplaceARole(t: Task, policyFiles: string, loaded: Rules, reloaded: Rules, first: User, second: User)
    requires PlanMovesBetween(t, loaded, reloaded, first, second) && Severity(t).Some?
    ensures var signed := Decide(t, loaded, policyFiles, first, Approve, "", None).0;
            var released := Decide(signed, reloaded, policyFiles, second, Approve, "", None).0;
            released.status == Delivered && !RolesFollow(released.approval.signatures, released.approval.required)
  {
    ApprovalSigns(t, loaded, policyFiles, first);
    var signed := Decide(t, loaded, policyFiles, first, Approve, "", None).0;
    assert PlanFor(signed, reloaded) == PlanFor(t, reloaded);
    ApprovalSigns(signed, reloaded, policyFiles, second);
    var released := Decide(signed, reloaded, policyFiles, second, Approve, "", None).0;
    assert released.approval.signatures[0] == signed.approval.signatures[0];
  }

  /** When a reload leaves a plan no longer than the signatures that stand, no approval is accepted any more. */
  lemma ShrunkPlanBlocksApproval(t: Task, rules: Rules, policyFiles: string, u: User, comment: string, seen: Option<Digest>)
    requires AllFresh(t, policyFiles) && 0 < |PlanFor(t, rules)| <= |t.approval.signatures|
    ensures Decide(t, rules, policyFiles, u, Approve, comment, seen).1.Refused?
  {
  }
}
