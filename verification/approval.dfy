/**
 A run held for approval: ordered signatures by different people, each bound to
 the version read, and the release that only the last of them makes
 (backend/api/task_service.py, with the gate and the conflict resolution of
 backend/agents/orchestrator.py).

 Digests are symbolic: two are equal exactly when they bind the same things.
 A calculation result is represented by the outputs its result hash covers.
 */
module Approval {
  import opened Wrappers

  type UserId = string
  type Role = string

  datatype User = User(id: UserId, role: Role, mayDecide: bool, readsAll: bool)

  /** One signature policy demands. */
  datatype Required = Required(role: Role, authority: string)

  datatype Signature = Signature(role: Role, authority: string, userId: UserId, digest: Digest, version: nat)

  datatype Status = Executing | Awaiting | Delivered | Rejected | RevisionRequested | Cancelled

  datatype Deliverable = Deliverable(filename: string, sha256: string, released: bool)

  datatype CalcOutput = Band(severity: string) | Figure(outputs: string)

  datatype Conflict = Conflict(id: string, high: bool, open: bool, resolvedBy: Option<string>)

  datatype Evidence = Evidence(id: string, sourceSha: string, excerptSha: string)

  datatype Assessed = Unassessed | Calculated | Withheld(status: string)

  datatype ApprovalRecord = ApprovalRecord(required: seq<Required>, approvers: set<Role>, signatures: seq<Signature>,
                               decision: string, boundDigest: Option<Digest>)

  datatype Task = Task(status: Status, submitter: UserId, prompt: string, answer: string,
                       deliverables: seq<Deliverable>, results: seq<CalcOutput>, conflicts: seq<Conflict>,
                       assessed: Assessed, evidence: seq<Evidence>, models: set<(string, string)>,
                       drafted: bool, approval: ApprovalRecord, storedDigest: Digest)

  /** The signatures demanded for each severity, as loaded when the process started. */
  type Rules = map<string, seq<Required>>

  // --- what a digest binds -------------------------------------------------

  datatype Content = Content(answer: string, files: multiset<(string, string)>, results: seq<CalcOutput>,
                             conflicts: seq<(string, bool, Option<string>)>, assessed: Assessed)

  datatype Digest =
    | Version1(content: Content)
    | Version2(content: Content, prompt: string, evidence: multiset<Evidence>, policyFiles: string, models: set<(string, string)>)
    | Unrecognised(text: string)

  function Files(ds: seq<Deliverable>): multiset<(string, string)>
  {
    if ds == [] then multiset{} else Files(ds[..|ds| - 1]) + multiset{(ds[|ds| - 1].filename, ds[|ds| - 1].sha256)}
  }

  function ContentOf(t: Task): Content
  {
    Content(t.answer, Files(t.deliverables), t.results,
            seq(|t.conflicts|, i requires 0 <= i < |t.conflicts| =>
              (t.conflicts[i].id, t.conflicts[i].open, t.conflicts[i].resolvedBy)),
            t.assessed)
  }

  /** `review_binding`: the digest over everything bound now, the policy files as they are on disk. */
  function Current(t: Task, policyFiles: string): Digest
  {
    Version2(ContentOf(t), t.prompt, multiset(t.evidence), policyFiles, t.models)
  }

  /** Whether a signature was given on this very version, under the rules of its own digest version. */
  predicate Fresh(t: Task, policyFiles: string, s: Signature)
  {
    s.digest == if s.version >= 2 then Current(t, policyFiles) else Version1(ContentOf(t))
  }

  predicate AllFresh(t: Task, policyFiles: string)
  {
    forall i :: 0 <= i < |t.approval.signatures| ==> Fresh(t, policyFiles, t.approval.signatures[i])
  }

  // --- the rules -----------------------------------------------------------

  function LastBand(results: seq<CalcOutput>): Option<string>
  {
    if results == [] then None
    else if results[|results| - 1].Band? then Some(results[|results| - 1].severity)
    else LastBand(results[..|results| - 1])
  }

  function Severity(t: Task): Option<string>
  {
    if t.assessed == Calculated then LastBand(t.results) else None
  }

  function RequiredSignatures(rules: Rules, severity: string): seq<Required>
  {
    if severity in rules then rules[severity] else []
  }

  /** The signatures needed now: policy against the computed severity, or the stored plan without one. */
  function PlanFor(t: Task, rules: Rules): seq<Required>
  {
    if Severity(t).Some? then RequiredSignatures(rules, Severity(t).value) else t.approval.required
  }

  function Persist(t: Task, policyFiles: string): Task
  {
    t.(storedDigest := Current(t, policyFiles))
  }

  /** `_refresh_signatures`, before it is written back: the plan now, and whether signatures were voided. */
  function Refresh(t: Task, rules: Rules, policyFiles: string): (Task, bool)
  {
    var plan := PlanFor(t, rules);
    var approvers := if plan != [] then set r | r in plan :: r.role else t.approval.approvers;
    var planned := t.(approval := t.approval.(required := plan, approvers := approvers));
    if t.approval.signatures != [] && (!AllFresh(t, policyFiles) || plan == [])
    then (Persist(planned.(approval := planned.approval.(signatures := [])), policyFiles), true)
    else (planned, false)
  }

  predicate OpenHighConflict(t: Task)
  {
    exists c :: c in t.conflicts && c.open && c.high
  }

  datatype Decision = Approve | Reject | RequestRevision

  datatype Refusal =
    | NotAwaiting | NoPermission | NotAnAuthority | OwnRun | ChangedSinceOpened | NeedsComment
    | ConflictsOpen | AlreadySigned | EverySignatureGiven | NotYourTurn
    | UnknownConflict | ConflictNotOpen | BadValue | Finished | NotYours

  datatype Outcome = Refused(why: Refusal) | Signed | Decided | Changed

  function AllReleased(ds: seq<Deliverable>, released: bool): seq<Deliverable>
  {
    seq(|ds|, i requires 0 <= i < |ds| => ds[i].(released := released))
  }

  function Settle(t: Task, policyFiles: string, d: Decision): Task
  {
    Persist(t.(approval := t.approval.(decision := if d.Approve? then "approved" else if d.RequestRevision? then "revision_requested" else "rejected",
                                       boundDigest := Some(Current(t, policyFiles))),
               status := if d.Approve? then Delivered else if d.RequestRevision? then RevisionRequested else Rejected,
               deliverables := AllReleased(t.deliverables, d.Approve?)),
            policyFiles)
  }

  /** `_sign`: the next signature in policy order, by someone who has not signed. */
  function Sign(t: Task, policyFiles: string, u: User): Result<Task, Refusal>
  {
    var given, plan := t.approval.signatures, t.approval.required;
    if exists s :: s in given && s.userId == u.id then Err(AlreadySigned)
    else if |given| >= |plan| then Err(EverySignatureGiven)
    else if u.role != plan[|given|].role then Err(NotYourTurn)
    else
      var signature := Signature(u.role, plan[|given|].authority, u.id, Current(t, policyFiles), 2);
      Ok(t.(approval := t.approval.(signatures := given + [signature])))
  }

  /** The first reason a decision is refused, in the order they are checked, once the plan is refreshed. */
  function Objection(before: Task, now: Task, policyFiles: string, u: User, d: Decision, comment: string, seen: Option<Digest>): Option<Refusal>
  {
    var legacyView := seen == Some(before.storedDigest) && seen == Some(Version1(ContentOf(now)));
    if now.approval.approvers != {} && u.role !in now.approval.approvers then Some(NotAnAuthority)
    else if now.submitter == u.id then Some(OwnRun)
    else if seen.Some? && seen.value != Current(now, policyFiles) && !legacyView then Some(ChangedSinceOpened)
    else if d.RequestRevision? && comment == "" then Some(NeedsComment)
    else if d.Approve? && OpenHighConflict(now) then Some(ConflictsOpen)
    else None
  }

  /** A decision nobody objected to: the next signature of the plan, or the outcome itself. */
  function Conclude(kept: Task, now: Task, policyFiles: string, u: User, d: Decision): (Task, Outcome)
  {
    if d.Approve? && now.approval.required != [] then
      match Sign(now, policyFiles, u)
      case Err(why) => (kept, Refused(why))
      case Ok(signed) =>
        if |signed.approval.signatures| < |signed.approval.required| then (Persist(signed, policyFiles), Signed)
        else (Settle(signed, policyFiles, d), Decided)
    else (Settle(now, policyFiles, d), Decided)
  }

  function Decide(t: Task, rules: Rules, policyFiles: string, u: User, d: Decision, comment: string, seen: Option<Digest>): (Task, Outcome)
  {
    if t.status != Awaiting then (t, Refused(NotAwaiting))
    else if !u.mayDecide then (t, Refused(NoPermission))
    else
      var (now, voided) := Refresh(t, rules, policyFiles);
      var kept := if voided then now else t;
      var objection := Objection(t, now, policyFiles, u, d, comment, seen);
      if objection.Some? then (kept, Refused(objection.value)) else Conclude(kept, now, policyFiles, u, d)
  }

  /** What recomputing after a resolution produced. A value that does not parse produces nothing. */
  datatype Recomputed = Recomputed(answer: string, human: Evidence, registered: seq<Evidence>, results: seq<CalcOutput>,
                                   assessed: Assessed, found: seq<Conflict>, rendered: Option<Deliverable>)

  function MarkResolved(cs: seq<Conflict>, id: string, human: string): seq<Conflict>
  {
    if cs == [] then []
    else if cs[0].id == id then [cs[0].(open := false, resolvedBy := Some(human))] + cs[1..]
    else [cs[0]] + MarkResolved(cs[1..], id, human)
  }

  function FirstConflict(cs: seq<Conflict>, id: string): Option<Conflict>
  {
    if cs == [] then None else if cs[0].id == id then Some(cs[0]) else FirstConflict(cs[1..], id)
  }

  function AlreadyReleased(ds: seq<Deliverable>): seq<Deliverable>
  {
    if ds == [] then [] else (if ds[0].released then [ds[0]] else []) + AlreadyReleased(ds[1..])
  }

  /** The held deliverable is replaced by one that carries the resolution, still unreleased. */
  function Rerender(t: Task, rendered: Option<Deliverable>): seq<Deliverable>
  {
    if !t.drafted then t.deliverables
    else AlreadyReleased(t.deliverables) + if rendered.Some? then [rendered.value.(released := false)] else []
  }

  function AfterResolution(t: Task, id: string, r: Recomputed): Task
  {
    t.(answer := r.answer,
       evidence := t.evidence + [r.human] + r.registered,
       results := r.results,
       assessed := r.assessed,
       conflicts := MarkResolved(t.conflicts, id, r.human.id) + r.found,
       deliverables := Rerender(t, r.rendered))
  }

  function Resolve(t: Task, rules: Rules, policyFiles: string, u: User, id: string, resolution: Option<Recomputed>): (Task, Outcome)
  {
    if t.status != Awaiting then (t, Refused(NotAwaiting))
    else if !u.mayDecide then (t, Refused(NoPermission))
    else if t.approval.approvers != {} && u.role !in t.approval.approvers then (t, Refused(NotAnAuthority))
    else if t.submitter == u.id then (t, Refused(OwnRun))
    else match FirstConflict(t.conflicts, id)
      case None => (t, Refused(UnknownConflict))
      case Some(conflict) =>
        if !conflict.open then (t, Refused(ConflictNotOpen))
        else if resolution == None then (t, Refused(BadValue))
        else (Persist(Refresh(AfterResolution(t, id, resolution.value), rules, policyFiles).0, policyFiles), Changed)
  }

  /** A run in progress only has its stop requested; anything not finished is closed at once. */
  function Cancel(t: Task, policyFiles: string, u: User): (Task, Outcome)
  {
    if t.submitter != u.id && !u.readsAll then (t, Refused(NotYours))
    else if t.status in {Delivered, Rejected, Cancelled} then (t, Refused(Finished))
    else if t.status == Executing then (t, Changed)
    else (Persist(t.(status := Cancelled), policyFiles), Changed)
  }

  // --- the service ---------------------------------------------------------

  /** One stored run. A call loads a copy, works on it, and writes it back where the source persists. */
  class ApprovalDesk {
    var stored: Task
    var rules: Rules
    var policyFiles: string

    constructor (held: Task, rules: Rules, policyFiles: string)
      ensures stored == held && this.rules == rules && this.policyFiles == policyFiles
    {
      this.stored, this.rules, this.policyFiles := held, rules, policyFiles;
    }

    method PersistTask(task: Task)
      modifies this`stored
      ensures stored == Persist(task, policyFiles)
    {
      stored := task.(storedDigest := Current(task, policyFiles));
    }

    method AnyStale(task: Task) returns (stale: bool)
      ensures stale <==> !AllFresh(task, policyFiles)
    {
      stale := false;
      for i := 0 to |task.approval.signatures|
        invariant stale <==> exists j :: 0 <= j < i && !Fresh(task, policyFiles, task.approval.signatures[j])
      {
        if !Fresh(task, policyFiles, task.approval.signatures[i]) {
          stale := true;
        }
      }
    }

    method RefreshSignatures(task: Task) returns (now: Task, voided: bool)
      modifies this`stored
      ensures (now, voided) == Refresh(task, rules, policyFiles)
      ensures stored == if voided then now else old(stored)
    {
      var severity := Severity(task);
      var approval := task.approval;
      if severity.Some? {
        approval := approval.(required := RequiredSignatures(rules, severity.value));
      }
      var plan := approval.required;
      if plan != [] {
        approval := approval.(approvers := set r | r in plan :: r.role);
      }
      now := task.(approval := approval);
      var stale := AnyStale(task);
      voided := stale || (approval.signatures != [] && plan == []);
      if voided {
        now := now.(approval := approval.(signatures := []));
        PersistTask(now);
        now := stored;
      }
    }

    method SignNext(task: Task, u: User) returns (result: Result<Task, Refusal>)
      ensures result == Sign(task, policyFiles, u)
    {
      var given, plan := task.approval.signatures, task.approval.required;
      for i := 0 to |given|
        invariant forall j :: 0 <= j < i ==> given[j].userId != u.id
      {
        if given[i].userId == u.id {
          return Err(AlreadySigned);
        }
      }
      if |given| >= |plan| {
        return Err(EverySignatureGiven);
      }
      var needed := plan[|given|];
      if u.role != needed.role {
        return Err(NotYourTurn);
      }
      var signature := Signature(u.role, needed.authority, u.id, Current(task, policyFiles), 2);
      result := Ok(task.(approval := task.approval.(signatures := given + [signature])));
    }

    method ReleaseAll(ds: seq<Deliverable>, approved: bool) returns (marked: seq<Deliverable>)
      ensures marked == AllReleased(ds, approved)
    {
      marked := [];
      for i := 0 to |ds|
        invariant marked == AllReleased(ds, approved)[..i]
      {
        marked := marked + [ds[i].(released := approved)];
      }
    }

    method Object(before: Task, now: Task, u: User, d: Decision, comment: string, seen: Option<Digest>)
      returns (objection: Option<Refusal>)
      ensures objection == Objection(before, now, policyFiles, u, d, comment, seen)
    {
      if now.approval.approvers != {} && u.role !in now.approval.approvers {
        return Some(NotAnAuthority);
      }
      if now.submitter == u.id {
        return Some(OwnRun);
      }
      var legacyView := seen == Some(before.storedDigest) && seen == Some(Version1(ContentOf(now)));
      if seen.Some? && seen.value != Current(now, policyFiles) && !legacyView {
        return Some(ChangedSinceOpened);
      }
      if d.RequestRevision? && comment == "" {
        return Some(NeedsComment);
      }
      if d.Approve? {
        for i := 0 to |now.conflicts|
          invariant forall j :: 0 <= j < i ==> !(now.conflicts[j].open && now.conflicts[j].high)
        {
          if now.conflicts[i].open && now.conflicts[i].high {
            return Some(ConflictsOpen);
          }
        }
      }
      objection := None;
    }

    method SettleDecision(task: Task, d: Decision)
      modifies this`stored
      ensures stored == Settle(task, policyFiles, d)
    {
      var released := ReleaseAll(task.deliverables, d.Approve?);
      var word := if d.Approve? then "approved" else if d.RequestRevision? then "revision_requested" else "rejected";
      var status := if d.Approve? then Delivered else if d.RequestRevision? then RevisionRequested else Rejected;
      var approval := task.approval.(decision := word, boundDigest := Some(Current(task, policyFiles)));
      PersistTask(task.(approval := approval, status := status, deliverables := released));
    }

    method DecideApproval(u: User, d: Decision, comment: string, seen: Option<Digest>) returns (outcome: Outcome)
      modifies this`stored
      ensures (stored, outcome) == Decide(old(stored), rules, policyFiles, u, d, comment, seen)
    {
      var before := stored;
      if before.status != Awaiting {
        return Refused(NotAwaiting);
      }
      if !u.mayDecide {
        return Refused(NoPermission);
      }
      var task, voided := RefreshSignatures(before);
      var objection := Object(before, task, u, d, comment, seen);
      if objection.Some? {
        return Refused(objection.value);
      }
      if d.Approve? && task.approval.required != [] {
        var signed := SignNext(task, u);
        if signed.Err? {
          return Refused(signed.error);
        }
        task := signed.value;
        if |task.approval.signatures| != |task.approval.required| {
          PersistTask(task);
          return Signed;
        }
      }
      SettleDecision(task, d);
      outcome := Decided;
    }

    method ResolveConflict(u: User, id: string, resolution: Option<Recomputed>) returns (outcome: Outcome)
      modifies this`stored
      ensures (stored, outcome) == Resolve(old(stored), rules, policyFiles, u, id, resolution)
    {
      var task := stored;
      if task.status != Awaiting {
        return Refused(NotAwaiting);
      }
      if !u.mayDecide {
        return Refused(NoPermission);
      }
      if task.approval.approvers != {} && u.role !in task.approval.approvers {
        return Refused(NotAnAuthority);
      }
      if task.submitter == u.id {
        return Refused(OwnRun);
      }
      var conflict := FirstConflict(task.conflicts, id);
      if conflict == None {
        return Refused(UnknownConflict);
      }
      if !conflict.value.open {
        return Refused(ConflictNotOpen);
      }
      if resolution == None {
        return Refused(BadValue);
      }
      var r := resolution.value;
      task := task.(evidence := task.evidence + [r.human] + r.registered,
                    conflicts := MarkResolved(task.conflicts, id, r.human.id) + r.found,
                    results := r.results,
                    assessed := r.assessed,
                    answer := r.answer,
                    deliverables := Rerender(task, r.rendered));
      var voided;
      task, voided := RefreshSignatures(task);
      PersistTask(task);
      outcome := Changed;
    }

    method CancelRun(u: User) returns (outcome: Outcome)
      modifies this`stored
      ensures (stored, outcome) == Cancel(old(stored), policyFiles, u)
    {
      if stored.submitter != u.id && !u.readsAll {
        return Refused(NotYours);
      }
      if stored.status in {Delivered, Rejected, Cancelled} {
        return Refused(Finished);
      }
      if stored.status != Executing {
        PersistTask(stored.(status := Cancelled));
      }
      outcome := Changed;
    }
  }
}
