/**
 What each call on a held run asks of its caller and leaves behind, stated on the
 stored run alone: the first fault that refuses it, and the whole record where none
 does (backend/api/task_service.py).
 */
module ApprovalDecisions {
  import opened Wrappers
  import opened Approval
  import opened ApprovalRuns

  // --- what a digest and a plan stand for ----------------------------------

  /** The files of a run as a digest sees them: name and bytes, in any order, released or not. */
  function Named(ds: seq<Deliverable>): seq<(string, string)>
  {
    seq(|ds|, i requires 0 <= i < |ds| => (ds[i].filename, ds[i].sha256))
  }

  lemma {:induction false} FilesAreNamed(ds: seq<Deliverable>)
    ensures Files(ds) == multiset(Named(ds))
  {
    if ds != [] {
      var n := |ds| - 1;
      FilesAreNamed(ds[..n]);
      assert Named(ds) == Named(ds[..n]) + [(ds[n].filename, ds[n].sha256)];
    } else {
      assert Named(ds) == [];
    }
  }

  /** The parts of a run a version 1 digest binds. */
  ghost predicate SameReviewed(t: Task, u: Task)
  {
    && t.answer == u.answer && multiset(Named(t.deliverables)) == multiset(Named(u.deliverables))
    && t.results == u.results && t.assessed == u.assessed
    && |t.conflicts| == |u.conflicts|
    && forall i :: 0 <= i < |t.conflicts| ==>
         && t.conflicts[i].id == u.conflicts[i].id && t.conflicts[i].open == u.conflicts[i].open
         && t.conflicts[i].resolvedBy == u.conflicts[i].resolvedBy
  }

  lemma ContentBindsIff(t: Task, u: Task)
    ensures ContentOf(t) == ContentOf(u) <==> SameReviewed(t, u)
  {
    FilesAreNamed(t.deliverables);
    FilesAreNamed(u.deliverables);
    var a, b := ContentOf(t).conflicts, ContentOf(u).conflicts;
    if a == b {
      forall i | 0 <= i < |t.conflicts|
        ensures t.conflicts[i].id == u.conflicts[i].id && t.conflicts[i].open == u.conflicts[i].open
        ensures t.conflicts[i].resolvedBy == u.conflicts[i].resolvedBy
      {
        assert a[i] == b[i];
      }
    }
  }

  /** Two runs have one digest exactly when nothing a reviewer is bound to differs: what was reviewed, the prompt, the evidence, the policy files and the models. */
  lemma DigestBindsIff(t: Task, files: string, u: Task, laterFiles: string)
    ensures Current(t, files) == Current(u, laterFiles) <==>
              && SameReviewed(t, u) && t.prompt == u.prompt && multiset(t.evidence) == multiset(u.evidence)
              && files == laterFiles && t.models == u.models
  {
    ContentBindsIff(t, u);
  }

  lemma {:induction false} LastBandIs(results: seq<CalcOutput>)
    ensures LastBand(results).None? <==> forall i :: 0 <= i < |results| ==> results[i].Figure?
    ensures forall i :: 0 <= i < |results| && results[i].Band? && (forall j :: i < j < |results| ==> results[j].Figure?) ==>
              LastBand(results) == Some(results[i].severity)
  {
    if results != [] {
      var n := |results| - 1;
      LastBandIs(results[..n]);
      assert forall i :: 0 <= i < n ==> results[..n][i] == results[i];
    }
  }

  /** The plan in force: the policy's for the severity computed last, where the assessment was calculated; else the plan stored at the gate. */
  lemma PlanIs(t: Task, rules: Rules)
    ensures t.assessed != Calculated || (forall i :: 0 <= i < |t.results| ==> t.results[i].Figure?) ==>
              PlanFor(t, rules) == t.approval.required
    ensures forall i :: t.assessed == Calculated && 0 <= i < |t.results| && t.results[i].Band?
                        && (forall j :: i < j < |t.results| ==> t.results[j].Figure?) ==>
              PlanFor(t, rules) == if t.results[i].severity in rules then rules[t.results[i].severity] else []
  {
    LastBandIs(t.results);
  }

  // --- a decision ----------------------------------------------------------

  /** The signatures that still count: all of them, if every one was given on this very version and a plan remains. */
  ghost function StillGiven(t: Task, plan: seq<Required>, files: string): seq<Signature>
  {
    if plan != [] && forall s :: s in t.approval.signatures ==>
         s.digest == (if s.version >= 2 then Current(t, files) else Version1(ContentOf(t)))
    then t.approval.signatures else []
  }

  /** The version opened is the version there is. A page opened under version 1 counts while the record stored is still that one. */
  ghost predicate SawThis(t: Task, files: string, seen: Option<Digest>)
  {
    seen == None || seen == Some(Current(t, files)) || seen == Some(t.storedDigest) == Some(Version1(ContentOf(t)))
  }

  ghost predicate Authority(t: Task, plan: seq<Required>, u: User)
  {
    if plan != [] then exists r :: r in plan && r.role == u.role
    else t.approval.approvers == {} || u.role in t.approval.approvers
  }

  /** What is wrong with a decision, fault by fault. */
  ghost predicate Fault(
      why: Refusal, t: Task, plan: seq<Required>, files: string, u: User, d: Decision, comment: string, seen: Option<Digest>)
  {
    var given, signs := StillGiven(t, plan, files), d == Approve && plan != [];
    match why
    case NotAwaiting => t.status != Awaiting
    case NoPermission => !u.mayDecide
    case NotAnAuthority => !Authority(t, plan, u)
    case OwnRun => u.id == t.submitter
    case ChangedSinceOpened => !SawThis(t, files, seen)
    case NeedsComment => d == RequestRevision && comment == ""
    case ConflictsOpen => d == Approve && exists c :: c in t.conflicts && c.open && c.high
    case AlreadySigned => signs && exists s :: s in given && s.userId == u.id
    case EverySignatureGiven => signs && |given| >= |plan|
    case NotYourTurn => signs && |given| < |plan| && u.role != plan[|given|].role
    case _ => false
  }

  const ORDER: seq<Refusal> := [
    NotAwaiting, NoPermission, NotAnAuthority, OwnRun, ChangedSinceOpened, NeedsComment, ConflictsOpen,
    AlreadySigned, EverySignatureGiven, NotYourTurn]

  /** The first fault, in the order they are looked for. */
  ghost function FirstFault(
      t: Task, plan: seq<Required>, files: string, u: User, d: Decision, comment: string, seen: Option<Digest>, k: nat := 0): Option<Refusal>
    requires k <= |ORDER|
    decreases |ORDER| - k
  {
    if k == |ORDER| then None
    else if Fault(ORDER[k], t, plan, files, u, d, comment, seen) then Some(ORDER[k])
    else FirstFault(t, plan, files, u, d, comment, seen, k + 1)
  }

  lemma RefreshedIs(t: Task, rules: Rules, files: string)
    ensures var now, plan := Refresh(t, rules, files).0, PlanFor(t, rules);
            && now.approval.signatures == StillGiven(t, plan, files)
            && now.approval.required == plan
            && now.approval.approvers == (if plan != [] then set r | r in plan :: r.role else t.approval.approvers)
            && now == t.(approval := now.approval, storedDigest := now.storedDigest)
            && now.approval.decision == t.approval.decision && now.approval.boundDigest == t.approval.boundDigest
            && ContentOf(now) == ContentOf(t) && Current(now, files) == Current(t, files)
  {
    var given := t.approval.signatures;
    RefreshStandsOrVoids(t, rules, files);
    assert AllFresh(t, files) <==> forall s :: s in given ==>
      s.digest == (if s.version >= 2 then Current(t, files) else Version1(ContentOf(t)));
  }

  lemma AuthorityIs(t: Task, rules: Rules, files: string, u: User)
    ensures var approvers := Refresh(t, rules, files).0.approval.approvers;
            Authority(t, PlanFor(t, rules), u) <==> approvers == {} || u.role in approvers
  {
    RefreshedIs(t, rules, files);
    var plan := PlanFor(t, rules);
    if plan != [] {
      assert plan[0].role in Refresh(t, rules, files).0.approval.approvers;
    }
  }

  lemma LaterFaults(t: Task, rules: Rules, files: string, u: User, d: Decision, comment: string, seen: Option<Digest>)
    ensures var now := Refresh(t, rules, files).0;
            FirstFault(t, PlanFor(t, rules), files, u, d, comment, seen, 7) ==
            if d == Approve && now.approval.required != [] && Sign(now, files, u).Err? then Some(Sign(now, files, u).error) else None
  {
    RefreshedIs(t, rules, files);
    var plan := PlanFor(t, rules);
    assert FirstFault(t, plan, files, u, d, comment, seen, 10) == None;
    assert ORDER[9] == NotYourTurn && ORDER[8] == EverySignatureGiven && ORDER[7] == AlreadySigned;
    assert FirstFault(t, plan, files, u, d, comment, seen, 9) ==
           if Fault(NotYourTurn, t, plan, files, u, d, comment, seen) then Some(NotYourTurn) else None;
    assert FirstFault(t, plan, files, u, d, comment, seen, 8) ==
           if Fault(EverySignatureGiven, t, plan, files, u, d, comment, seen) then Some(EverySignatureGiven)
           else FirstFault(t, plan, files, u, d, comment, seen, 9);
  }

  lemma FaultsInOrder(t: Task, plan: seq<Required>, files: string, u: User, d: Decision, comment: string, seen: Option<Digest>)
    ensures FirstFault(t, plan, files, u, d, comment, seen, 2) ==
            if Fault(NotAnAuthority, t, plan, files, u, d, comment, seen) then Some(NotAnAuthority)
            else if Fault(OwnRun, t, plan, files, u, d, comment, seen) then Some(OwnRun)
            else if Fault(ChangedSinceOpened, t, plan, files, u, d, comment, seen) then Some(ChangedSinceOpened)
            else FirstFault(t, plan, files, u, d, comment, seen, 5)
    ensures FirstFault(t, plan, files, u, d, comment, seen, 5) ==
            if Fault(NeedsComment, t, plan, files, u, d, comment, seen) then Some(NeedsComment)
            else if Fault(ConflictsOpen, t, plan, files, u, d, comment, seen) then Some(ConflictsOpen)
            else FirstFault(t, plan, files, u, d, comment, seen, 7)
  {
    assert ORDER[2] == NotAnAuthority && ORDER[3] == OwnRun && ORDER[4] == ChangedSinceOpened;
    assert ORDER[5] == NeedsComment && ORDER[6] == ConflictsOpen;
    assert FirstFault(t, plan, files, u, d, comment, seen, 6) ==
           if Fault(ORDER[6], t, plan, files, u, d, comment, seen) then Some(ORDER[6])
           else FirstFault(t, plan, files, u, d, comment, seen, 7);
    assert FirstFault(t, plan, files, u, d, comment, seen, 4) ==
           if Fault(ORDER[4], t, plan, files, u, d, comment, seen) then Some(ORDER[4])
           else FirstFault(t, plan, files, u, d, comment, seen, 5);
    assert FirstFault(t, plan, files, u, d, comment, seen, 3) ==
           if Fault(ORDER[3], t, plan, files, u, d, comment, seen) then Some(ORDER[3])
           else FirstFault(t, plan, files, u, d, comment, seen, 4);
  }

  lemma EarlierFaults(t: Task, rules: Rules, files: string, u: User, d: Decision, comment: string, seen: Option<Digest>)
    ensures var o := Objection(t, Refresh(t, rules, files).0, files, u, d, comment, seen);
            FirstFault(t, PlanFor(t, rules), files, u, d, comment, seen, 2) ==
            if o.Some? then o else FirstFault(t, PlanFor(t, rules), files, u, d, comment, seen, 7)
  {
    RefreshedIs(t, rules, files);
    AuthorityIs(t, rules, files, u);
    FaultsInOrder(t, PlanFor(t, rules), files, u, d, comment, seen);
  }

  lemma FirstTwoFaults(t: Task, plan: seq<Required>, files: string, u: User, d: Decision, comment: string, seen: Option<Digest>)
    ensures FirstFault(t, plan, files, u, d, comment, seen) ==
            if t.status != Awaiting then Some(NotAwaiting)
            else if !u.mayDecide then Some(NoPermission)
            else FirstFault(t, plan, files, u, d, comment, seen, 2)
  {
    assert ORDER[0] == NotAwaiting && ORDER[1] == NoPermission;
    assert FirstFault(t, plan, files, u, d, comment, seen, 1) ==
           if Fault(ORDER[1], t, plan, files, u, d, comment, seen) then Some(ORDER[1])
           else FirstFault(t, plan, files, u, d, comment, seen, 2);
  }

  /** A decision is refused for the first thing wrong with it, and accepted exactly when nothing is. */
  lemma RefusedForTheFirstFault(
      t: Task, rules: Rules, files: string, u: User, d: Decision, comment: string, seen: Option<Digest>)
    ensures var outcome, fault := Decide(t, rules, files, u, d, comment, seen).1, FirstFault(t, PlanFor(t, rules), files, u, d, comment, seen);
            if fault.Some? then outcome == Refused(fault.value) else !outcome.Refused?
  {
    FirstTwoFaults(t, PlanFor(t, rules), files, u, d, comment, seen);
    EarlierFaults(t, rules, files, u, d, comment, seen);
    LaterFaults(t, rules, files, u, d, comment, seen);
  }

  lemma {:induction false} NoFaultIff(
      t: Task, plan: seq<Required>, files: string, u: User, d: Decision, comment: string, seen: Option<Digest>, k: nat)
    requires k <= |ORDER|
    ensures FirstFault(t, plan, files, u, d, comment, seen, k) == None <==>
              forall j :: k <= j < |ORDER| ==> !Fault(ORDER[j], t, plan, files, u, d, comment, seen)
    decreases |ORDER| - k
  {
    if k < |ORDER| {
      NoFaultIff(t, plan, files, u, d, comment, seen, k + 1);
    }
  }

  /** Whether an accepted decision ends the review: any but an approval that leaves places open. */
  predicate Ends(given: seq<Signature>, plan: seq<Required>, d: Decision)
  {
    d != Approve || |plan| <= |given| + 1
  }

  function EndStatus(d: Decision): Status
  {
    match d
    case Approve => Delivered
    case Reject => Rejected
    case RequestRevision => RevisionRequested
  }

  function EndWord(d: Decision): string
  {
    match d
    case Approve => "approved"
    case Reject => "rejected"
    case RequestRevision => "revision_requested"
  }

  /** The same files, marked one way. */
  ghost predicate Marked(before: seq<Deliverable>, after: seq<Deliverable>, released: bool)
  {
    && |after| == |before|
    && forall i :: 0 <= i < |before| ==>
         after[i].filename == before[i].filename && after[i].sha256 == before[i].sha256 && after[i].released == released
  }

  lemma ConcludedLeaves(kept: Task, now: Task, files: string, u: User, d: Decision)
    requires now.approval.required == [] ==> now.approval.signatures == []
    requires !Conclude(kept, now, files, u, d).1.Refused?
    ensures var (after, outcome) := Conclude(kept, now, files, u, d);
            var given, plan := now.approval.signatures, now.approval.required;
            && outcome == (if Ends(given, plan, d) then Decided else Signed)
            && after.status == (if Ends(given, plan, d) then EndStatus(d) else now.status)
            && after.approval.signatures ==
                 (if d == Approve && |given| < |plan| then given + [Signature(u.role, plan[|given|].authority, u.id, Current(now, files), 2)]
                  else given)
            && after.approval == now.approval.(signatures := after.approval.signatures, decision := after.approval.decision,
                                               boundDigest := after.approval.boundDigest)
            && after.approval.decision == (if Ends(given, plan, d) then EndWord(d) else now.approval.decision)
            && after.approval.boundDigest == (if Ends(given, plan, d) then Some(Current(now, files)) else now.approval.boundDigest)
            && (if Ends(given, plan, d) then Marked(now.deliverables, after.deliverables, d == Approve) else after.deliverables == now.deliverables)
            && after.storedDigest == Current(now, files) == Current(after, files)
            && after == now.(status := after.status, approval := after.approval, deliverables := after.deliverables, storedDigest := after.storedDigest)
  {
    if d == Approve && now.approval.required != [] {
      SigningAddsOne(now, files, u);
      var signed := Sign(now, files, u).value;
      SettleKeepsDigests(signed, files, d);
      SameContent(Persist(signed, files), signed);
    } else {
      SettleKeepsDigests(now, files, d);
    }
  }

  /**
   What an accepted decision leaves, for every stored run: an approval takes the next place of the plan on the version
   there is, and the last place, like any other decision, ends the review; nothing the reviewer was shown is touched.
   */
  lemma AcceptedDecisionLeaves(
      t: Task, rules: Rules, files: string, u: User, d: Decision, comment: string, seen: Option<Digest>)
    requires !Decide(t, rules, files, u, d, comment, seen).1.Refused?
    ensures var (after, outcome) := Decide(t, rules, files, u, d, comment, seen);
            var plan := PlanFor(t, rules);
            var given := StillGiven(t, plan, files);
            && outcome == (if Ends(given, plan, d) then Decided else Signed)
            && after.status == (if Ends(given, plan, d) then EndStatus(d) else Awaiting)
            && after.approval.signatures ==
                 (if d == Approve && |given| < |plan| then given + [Signature(u.role, plan[|given|].authority, u.id, Current(t, files), 2)]
                  else given)
            && after.approval.required == plan
            && after.approval.approvers == (if plan != [] then set r | r in plan :: r.role else t.approval.approvers)
            && after.approval.decision == (if Ends(given, plan, d) then EndWord(d) else t.approval.decision)
            && after.approval.boundDigest == (if Ends(given, plan, d) then Some(Current(t, files)) else t.approval.boundDigest)
            && (if Ends(given, plan, d) then Marked(t.deliverables, after.deliverables, d == Approve) else after.deliverables == t.deliverables)
            && after.storedDigest == Current(t, files) == Current(after, files)
            && after == t.(status := after.status, approval := after.approval, deliverables := after.deliverables, storedDigest := after.storedDigest)
  {
    var (now, voided) := Refresh(t, rules, files);
    RefreshedIs(t, rules, files);
    ConcludedLeaves(if voided then now else t, now, files, u, d);
  }

  /** What a refused decision leaves: signatures that no longer stand go, with the plan they answered, once the caller may decide at all; nothing else changes. */
  lemma RefusedDecisionLeaves(t: Task, rules: Rules, files: string, u: User, d: Decision, comment: string, seen: Option<Digest>)
    requires Decide(t, rules, files, u, d, comment, seen).1.Refused?
    ensures var after, plan := Decide(t, rules, files, u, d, comment, seen).0, PlanFor(t, rules);
            after ==
            if t.status == Awaiting && u.mayDecide && StillGiven(t, plan, files) != t.approval.signatures
            then t.(approval := t.approval.(signatures := [], required := plan,
                                            approvers := if plan != [] then set r | r in plan :: r.role else t.approval.approvers),
                    storedDigest := Current(t, files))
            else t
  {
    RefreshedIs(t, rules, files);
    RefusalOnlyVoids(t, rules, files, u, d, comment, seen);
  }

  // --- the version opened --------------------------------------------------

  lemma FaultlessSawThis(t: Task, plan: seq<Required>, files: string, u: User, d: Decision, comment: string, seen: Option<Digest>)
    requires FirstFault(t, plan, files, u, d, comment, seen) == None
    ensures SawThis(t, files, seen)
  {
    NoFaultIff(t, plan, files, u, d, comment, seen, 0);
    assert ORDER[4] == ChangedSinceOpened;
    assert !Fault(ChangedSinceOpened, t, plan, files, u, d, comment, seen);
  }

  /** Nothing but the version opened is ever decided on: signed, delivered, rejected or sent back. */
  lemma DecidedOnTheVersionSeen(
      t: Task, rules: Rules, files: string, u: User, d: Decision, comment: string, seen: Option<Digest>)
    requires seen.Some? && !Decide(t, rules, files, u, d, comment, seen).1.Refused?
    ensures seen.value == Current(t, files) || seen.value == t.storedDigest == Version1(ContentOf(t))
  {
    RefusedForTheFirstFault(t, rules, files, u, d, comment, seen);
    FaultlessSawThis(t, PlanFor(t, rules), files, u, d, comment, seen);
  }

  /** Every event leaves the run as it was or writes it, and what is written carries a version 2 digest. */
  lemma WrittenIsVersion2(w: World, e: Event)
    ensures Next(w, e).task == w.task || Next(w, e).task.storedDigest.Version2?
  {
    if e.DecisionBy? {
      var t := w.task;
      if !Decide(t, w.rules, w.policyFiles, e.u, e.d, e.comment, e.seen).1.Refused? {
        AcceptedDecisionLeaves(t, w.rules, w.policyFiles, e.u, e.d, e.comment, e.seen);
      } else {
        RefusalOnlyVoids(t, w.rules, w.policyFiles, e.u, e.d, e.comment, e.seen);
      }
    }
  }

  lemma {:induction false} RunIsWrittenInVersion2(w: World, es: seq<Event>)
    ensures Run(w, es).task == w.task || Run(w, es).task.storedDigest.Version2?
    decreases |es|
  {
    if es != [] {
      RunIsWrittenInVersion2(w, es[..|es| - 1]);
      WrittenIsVersion2(Run(w, es[..|es| - 1]), es[|es| - 1]);
    }
  }

  /** The parts of a run and its policy files a version 2 digest binds, as they were when the page was opened. */
  ghost predicate AsOpened(shown: World, w: World)
  {
    && SameReviewed(shown.task, w.task) && shown.task.prompt == w.task.prompt
    && multiset(shown.task.evidence) == multiset(w.task.evidence)
    && shown.policyFiles == w.policyFiles && shown.task.models == w.task.models
  }

  /** Over every run: a page opened before anything bound by its digest changed decides nothing afterwards. */
  lemma StaleViewDecidesNothing(w: World, es: seq<Event>, u: User, d: Decision, comment: string)
    requires !AsOpened(w, Run(w, es))
    ensures Decide(Run(w, es).task, Run(w, es).rules, Run(w, es).policyFiles, u, d, comment, Some(Current(w.task, w.policyFiles))).1.Refused?
  {
    var now := Run(w, es);
    DigestBindsIff(w.task, w.policyFiles, now.task, now.policyFiles);
    if !Decide(now.task, now.rules, now.policyFiles, u, d, comment, Some(Current(w.task, w.policyFiles))).1.Refused? {
      DecidedOnTheVersionSeen(now.task, now.rules, now.policyFiles, u, d, comment, Some(Current(w.task, w.policyFiles)));
    }
  }

  /** And a page opened under version 1 decides nothing once anything has been written, changed or not. */
  lemma Version1ViewIsSpent(w: World, es: seq<Event>, u: User, d: Decision, comment: string)
    requires Run(w, es).task != w.task
    ensures Decide(Run(w, es).task, Run(w, es).rules, Run(w, es).policyFiles, u, d, comment, Some(Version1(ContentOf(w.task)))).1.Refused?
  {
    var now := Run(w, es);
    RunIsWrittenInVersion2(w, es);
    if !Decide(now.task, now.rules, now.policyFiles, u, d, comment, Some(Version1(ContentOf(w.task)))).1.Refused? {
      DecidedOnTheVersionSeen(now.task, now.rules, now.policyFiles, u, d, comment, Some(Version1(ContentOf(w.task))));
    }
  }

  // --- a resolution --------------------------------------------------------

  /** The conflict an identifier names is the first that carries it. */
  ghost predicate Names(cs: seq<Conflict>, id: string, i: nat)
  {
    i < |cs| && cs[i].id == id && forall j :: 0 <= j < i ==> cs[j].id != id
  }

  lemma {:induction false} NoConflictIff(cs: seq<Conflict>, id: string)
    ensures FirstConflict(cs, id) == None <==> forall c :: c in cs ==> c.id != id
  {
    if cs != [] {
      NoConflictIff(cs[1..], id);
      assert cs == [cs[0]] + cs[1..];
    }
  }

  lemma {:induction false} FirstConflictIs(cs: seq<Conflict>, id: string, i: nat)
    requires Names(cs, id, i)
    ensures FirstConflict(cs, id) == Some(cs[i])
  {
    if i > 0 {
      assert cs[0].id != id;
      assert forall j :: 0 <= j < i - 1 ==> cs[1..][j] == cs[j + 1];
      FirstConflictIs(cs[1..], id, i - 1);
    }
  }

  lemma {:induction false} OneConflictIsClosed(cs: seq<Conflict>, id: string, human: string, i: nat)
    requires Names(cs, id, i)
    ensures MarkResolved(cs, id, human) == cs[i := cs[i].(open := false, resolvedBy := Some(human))]
  {
    if i > 0 {
      assert cs[0].id != id;
      assert forall j :: 0 <= j < i - 1 ==> cs[1..][j] == cs[j + 1];
      OneConflictIsClosed(cs[1..], id, human, i - 1);
    }
  }

  ghost predicate ResolutionFault(why: Refusal, t: Task, u: User, id: string, resolution: Option<Recomputed>)
  {
    match why
    case NotAwaiting => t.status != Awaiting
    case NoPermission => !u.mayDecide
    case NotAnAuthority => t.approval.approvers != {} && u.role !in t.approval.approvers
    case OwnRun => u.id == t.submitter
    case UnknownConflict => forall c :: c in t.conflicts ==> c.id != id
    case ConflictNotOpen => exists i: nat :: Names(t.conflicts, id, i) && !t.conflicts[i].open
    case BadValue => resolution == None
    case _ => false
  }

  const RESOLUTION_ORDER: seq<Refusal> := [
    NotAwaiting, NoPermission, NotAnAuthority, OwnRun, UnknownConflict, ConflictNotOpen, BadValue]

  ghost function FirstResolutionFault(t: Task, u: User, id: string, resolution: Option<Recomputed>, k: nat := 0): Option<Refusal>
    requires k <= |RESOLUTION_ORDER|
    decreases |RESOLUTION_ORDER| - k
  {
    if k == |RESOLUTION_ORDER| then None
    else if ResolutionFault(RESOLUTION_ORDER[k], t, u, id, resolution) then Some(RESOLUTION_ORDER[k])
    else FirstResolutionFault(t, u, id, resolution, k + 1)
  }

  lemma {:induction false} SomeNames(cs: seq<Conflict>, id: string) returns (i: nat)
    requires exists c :: c in cs && c.id == id
    ensures Names(cs, id, i)
  {
    if cs[0].id == id {
      i := 0;
    } else {
      assert cs == [cs[0]] + cs[1..];
      i := SomeNames(cs[1..], id);
      i := i + 1;
      assert forall j :: 0 < j < i ==> cs[j] == cs[1..][j - 1];
    }
  }

  lemma LaterResolutionFaults(t: Task, u: User, id: string, resolution: Option<Recomputed>)
    ensures FirstResolutionFault(t, u, id, resolution, 4) ==
            match FirstConflict(t.conflicts, id)
            case None => Some(UnknownConflict)
            case Some(c) => if !c.open then Some(ConflictNotOpen) else if resolution == None then Some(BadValue) else None
  {
    NoConflictIff(t.conflicts, id);
    assert RESOLUTION_ORDER[4] == UnknownConflict && RESOLUTION_ORDER[5] == ConflictNotOpen && RESOLUTION_ORDER[6] == BadValue;
    assert FirstResolutionFault(t, u, id, resolution, 7) == None;
    assert FirstResolutionFault(t, u, id, resolution, 6) == if resolution == None then Some(BadValue) else None;
    if FirstConflict(t.conflicts, id).Some? {
      var i := SomeNames(t.conflicts, id);
      FirstConflictIs(t.conflicts, id, i);
      forall k: nat | Names(t.conflicts, id, k)
        ensures k == i
      {
      }
    }
  }

  /** A resolution is refused for the first thing wrong with it, and leaves the run as it was. */
  lemma ResolutionRefusedForTheFirstFault(
      t: Task, rules: Rules, files: string, u: User, id: string, resolution: Option<Recomputed>)
    ensures var (after, outcome) := Resolve(t, rules, files, u, id, resolution);
            var fault := FirstResolutionFault(t, u, id, resolution);
            if fault.Some? then outcome == Refused(fault.value) && after == t else outcome == Changed
  {
    LaterResolutionFaults(t, u, id, resolution);
    assert RESOLUTION_ORDER[0] == NotAwaiting && RESOLUTION_ORDER[1] == NoPermission;
    assert RESOLUTION_ORDER[2] == NotAnAuthority && RESOLUTION_ORDER[3] == OwnRun;
    assert FirstResolutionFault(t, u, id, resolution, 3) ==
           if u.id == t.submitter then Some(OwnRun) else FirstResolutionFault(t, u, id, resolution, 4);
    assert FirstResolutionFault(t, u, id, resolution, 2) ==
           if ResolutionFault(NotAnAuthority, t, u, id, resolution) then Some(NotAnAuthority)
           else FirstResolutionFault(t, u, id, resolution, 3);
    assert FirstResolutionFault(t, u, id, resolution, 1) ==
           if ResolutionFault(NoPermission, t, u, id, resolution) then Some(NoPermission)
           else FirstResolutionFault(t, u, id, resolution, 2);
  }

  /**
   What an accepted resolution leaves: the one conflict it names is closed by the person's own evidence and every other
   stays as it was, what recomputing found is added, the drafted deliverable is replaced by an unreleased one, and the
   signatures stand only if they were given on what the run has become.
   */
  lemma AcceptedResolutionLeaves(
      t: Task, rules: Rules, files: string, u: User, id: string, resolution: Option<Recomputed>, i: nat)
    requires Inv(t) && Resolve(t, rules, files, u, id, resolution).1 == Changed
    requires Names(t.conflicts, id, i)
    ensures var after, r := Resolve(t, rules, files, u, id, resolution).0, resolution.value;
            var recomputed := t.(
              answer := r.answer, results := r.results, assessed := r.assessed,
              evidence := t.evidence + [r.human] + r.registered,
              conflicts := t.conflicts[i := t.conflicts[i].(open := false, resolvedBy := Some(r.human.id))] + r.found,
              deliverables := if !t.drafted then t.deliverables
                              else if r.rendered.Some? then [r.rendered.value.(released := false)] else []);
            var plan := PlanFor(recomputed, rules);
            && after.approval.signatures == StillGiven(recomputed, plan, files)
            && after.approval.required == plan
            && after.approval.approvers == (if plan != [] then set r | r in plan :: r.role else t.approval.approvers)
            && after.approval.decision == t.approval.decision && after.approval.boundDigest == t.approval.boundDigest
            && after.storedDigest == Current(after, files) == Current(recomputed, files)
            && after == recomputed.(approval := after.approval, storedDigest := after.storedDigest)
  {
    var r := resolution.value;
    OneConflictIsClosed(t.conflicts, id, r.human.id, i);
    NoneReleasedKeepsAll(t.deliverables);
    var changed := AfterResolution(t, id, r);
    RefreshedIs(changed, rules, files);
    var now := Refresh(changed, rules, files).0;
    SameContent(Persist(now, files), now);
  }

  lemma {:induction false} ReleasedAreKept(ds: seq<Deliverable>, d: Deliverable)
    ensures multiset(AlreadyReleased(ds))[d] == if d.released then multiset(ds)[d] else 0
  {
    if ds != [] {
      ReleasedAreKept(ds[1..], d);
      assert ds == [ds[0]] + ds[1..];
    }
  }

  /** Whatever the run's record holds, re-rendering a draft keeps every released file as often as it was there, and of the others leaves only the new one. */
  lemma RenderingKeepsWhatWasReleased(
      t: Task, rules: Rules, files: string, u: User, id: string, resolution: Option<Recomputed>, d: Deliverable)
    requires Resolve(t, rules, files, u, id, resolution).1 == Changed
    ensures var ds, rendered := Resolve(t, rules, files, u, id, resolution).0.deliverables, resolution.value.rendered;
            if !t.drafted then ds == t.deliverables
            else if d.released then multiset(ds)[d] == multiset(t.deliverables)[d]
            else multiset(ds)[d] == if rendered.Some? && d == rendered.value.(released := false) then 1 else 0
  {
    ReleasedAreKept(t.deliverables, d);
    RefreshedIs(AfterResolution(t, id, resolution.value), rules, files);
  }

  // --- a stop --------------------------------------------------------------

  lemma StatusBindsNothing(t: Task, files: string, status: Status, stored: Digest)
    ensures Current(t.(status := status, storedDigest := stored), files) == Current(t, files)
  {
    SameContent(t.(status := status, storedDigest := stored), t);
  }

  /** A run is stopped by its submitter or a reader of all runs, while it is not finished: one in progress keeps its record, any other is closed. */
  lemma CancellationLeaves(t: Task, files: string, u: User)
    ensures var (after, outcome) := Cancel(t, files, u);
            var over := t.status == Delivered || t.status == Rejected || t.status == Cancelled;
            && (u.id != t.submitter && !u.readsAll ==> outcome == Refused(NotYours))
            && ((u.id == t.submitter || u.readsAll) && over ==> outcome == Refused(Finished))
            && ((u.id == t.submitter || u.readsAll) && !over ==> outcome == Changed)
            && (outcome == Changed && t.status != Executing ==>
                  after == t.(status := Cancelled, storedDigest := Current(t, files)) && Current(after, files) == Current(t, files))
            && (outcome.Refused? || t.status == Executing ==> after == t)
  {
    StatusBindsNothing(t, files, Cancelled, t.storedDigest);
    StatusBindsNothing(t, files, Cancelled, Current(t, files));
  }
}
