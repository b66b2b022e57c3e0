/**
 What each account call asks and leaves behind, account by account, and where the
 role of every account comes from over whole runs (backend/core/accounts.py).
 */
module AdministratorsGrants {
  import opened Wrappers
  import opened Administrators

  // --- what a call asks ----------------------------------------------------

  /** What is wrong with a call, fault by fault. */
  ghost predicate Fault(why: Refusal, p: Policy, s: State, call: Call)
  {
    match why
    case AlreadySetUp =>
      call.CreateOwner? && (p.demo || exists id :: id in s.users && s.users[id].active && s.users[id].role in p.managers)
    case TokenRefused =>
      call.CreateOwner? && !(s.token.Some? && s.token.value.hash == call.hash && call.now < s.token.value.expiresAt)
    case NotFound =>
      || ((call.Approve? || call.Reject?) && call.request !in s.requests)
      || (call.SetActive? && call.id !in s.users)
    case AlreadyDecided =>
      (call.Approve? || call.Reject?) && call.request in s.requests && s.requests[call.request].status != Pending
    case NotARole => (call.RequestAccess? || call.Approve?) && call.role !in p.roles
    case AccountGone =>
      call.Approve? && call.request in s.requests &&
      !(exists id :: id in s.users && s.requests[call.request].userId == Some(id))
    case NameTaken =>
      (call.CreateOwner? || call.AcceptInvite? || call.RequestAccess?) &&
      exists id :: id in s.users && s.users[id].name == call.name
    case OwnerRoleTooWeak => call.CreateOwner? && p.ownerRole !in p.managers
    case AwaitsRequest => call.SetActive? && exists r :: r in s.requests && s.requests[r] == Request(Some(call.id), Pending)
    case OwnAccount => call.SetActive? && !call.active && call.id == call.actor
    case LastAdministrator =>
      call.SetActive? && !call.active && call.id in s.users && s.users[call.id].active && s.users[call.id].role in p.managers &&
      forall id :: id in s.users && id != call.id ==> !(s.users[id].active && s.users[id].role in p.managers)
  }

  const ORDER: seq<Refusal> := [
    AlreadySetUp, TokenRefused, NotFound, AlreadyDecided, NotARole, AccountGone, NameTaken, OwnerRoleTooWeak,
    AwaitsRequest, OwnAccount, LastAdministrator]

  ghost function FirstFault(p: Policy, s: State, call: Call, k: nat := 0): Option<Refusal>
    requires k <= |ORDER|
    decreases |ORDER| - k
  {
    if k == |ORDER| then None
    else if Fault(ORDER[k], p, s, call) then Some(ORDER[k])
    else FirstFault(p, s, call, k + 1)
  }

  lemma LaterFaults(p: Policy, s: State, call: Call)
    ensures FirstFault(p, s, call, 6) ==
            if Fault(NameTaken, p, s, call) then Some(NameTaken)
            else if Fault(OwnerRoleTooWeak, p, s, call) then Some(OwnerRoleTooWeak)
            else if Fault(AwaitsRequest, p, s, call) then Some(AwaitsRequest)
            else if Fault(OwnAccount, p, s, call) then Some(OwnAccount)
            else if Fault(LastAdministrator, p, s, call) then Some(LastAdministrator)
            else None
  {
    assert FirstFault(p, s, call, 11) == None;
    assert FirstFault(p, s, call, 10) == if Fault(ORDER[10], p, s, call) then Some(ORDER[10]) else None;
    assert FirstFault(p, s, call, 9) == if Fault(ORDER[9], p, s, call) then Some(ORDER[9]) else FirstFault(p, s, call, 10);
    assert FirstFault(p, s, call, 8) == if Fault(ORDER[8], p, s, call) then Some(ORDER[8]) else FirstFault(p, s, call, 9);
    assert FirstFault(p, s, call, 7) == if Fault(ORDER[7], p, s, call) then Some(ORDER[7]) else FirstFault(p, s, call, 8);
  }

  lemma EarlierFaults(p: Policy, s: State, call: Call)
    ensures FirstFault(p, s, call) ==
            if Fault(AlreadySetUp, p, s, call) then Some(AlreadySetUp)
            else if Fault(TokenRefused, p, s, call) then Some(TokenRefused)
            else if Fault(NotFound, p, s, call) then Some(NotFound)
            else if Fault(AlreadyDecided, p, s, call) then Some(AlreadyDecided)
            else if Fault(NotARole, p, s, call) then Some(NotARole)
            else if Fault(AccountGone, p, s, call) then Some(AccountGone)
            else FirstFault(p, s, call, 6)
  {
    assert FirstFault(p, s, call, 5) == if Fault(ORDER[5], p, s, call) then Some(ORDER[5]) else FirstFault(p, s, call, 6);
    assert FirstFault(p, s, call, 4) == if Fault(ORDER[4], p, s, call) then Some(ORDER[4]) else FirstFault(p, s, call, 5);
    assert FirstFault(p, s, call, 3) == if Fault(ORDER[3], p, s, call) then Some(ORDER[3]) else FirstFault(p, s, call, 4);
    assert FirstFault(p, s, call, 2) == if Fault(ORDER[2], p, s, call) then Some(ORDER[2]) else FirstFault(p, s, call, 3);
    assert FirstFault(p, s, call, 1) == if Fault(ORDER[1], p, s, call) then Some(ORDER[1]) else FirstFault(p, s, call, 2);
  }

  lemma LastAdministratorIs(p: Policy, s: State, id: UserId)
    requires id in s.users
    ensures !HasAdministrator(p, s.users - {id}) <==>
              forall other :: other in s.users && other != id ==> !(s.users[other].active && s.users[other].role in p.managers)
  {
    var rest := s.users - {id};
    forall other | other in s.users && other != id
      ensures other in rest && rest[other] == s.users[other]
    {
    }
    if HasAdministrator(p, rest) {
      var other :| other in rest && Administers(p, rest[other]);
      assert other in s.users && other != id;
    }
    if other :| other in s.users && other != id && s.users[other].active && s.users[other].role in p.managers {
      assert Administers(p, rest[other]);
    }
  }

  lemma SetUpIs(p: Policy, s: State)
    ensures NeedsSetup(p, s.users) <==>
              !p.demo && !exists id :: id in s.users && s.users[id].active && s.users[id].role in p.managers
  {
    if HasAdministrator(p, s.users) {
      var id :| id in s.users && Administers(p, s.users[id]);
      assert s.users[id].active;
    }
    if id :| id in s.users && s.users[id].active && s.users[id].role in p.managers {
      assert Administers(p, s.users[id]);
    }
  }

  lemma ActivationIsRefused(p: Policy, s: State, call: Call)
    requires call.SetActive?
    ensures Objection(p, s, call) == FirstFault(p, s, call)
  {
    EarlierFaults(p, s, call);
    LaterFaults(p, s, call);
    if call.id in s.users {
      LastAdministratorIs(p, s, call.id);
    }
  }

  lemma OthersAreRefused(p: Policy, s: State, call: Call)
    requires !call.SetActive?
    ensures Objection(p, s, call) == FirstFault(p, s, call)
  {
    EarlierFaults(p, s, call);
    LaterFaults(p, s, call);
    SetUpIs(p, s);
  }

  /** A call is refused for the first thing wrong with it, and accepted exactly when nothing is. */
  lemma RefusedForTheFirstFault(p: Policy, s: State, call: Call)
    ensures Objection(p, s, call) == FirstFault(p, s, call)
  {
    if call.SetActive? {
      ActivationIsRefused(p, s, call);
    } else {
      OthersAreRefused(p, s, call);
    }
  }

  // --- what an accepted call leaves ----------------------------------------

  predicate Accepted(p: Policy, s: State, call: Call)
  {
    Fresh(s, call) && Objection(p, s, call).None?
  }

  /** Nothing but a fault, or an identifier already in use, stands in the way of a call. */
  lemma AcceptedIff(p: Policy, s: State, call: Call)
    ensures Accepted(p, s, call) <==>
              && FirstFault(p, s, call) == None
              && (call.CreateOwner? || call.AcceptInvite? || call.RequestAccess? ==> call.id !in s.users)
              && (call.RequestAccess? ==> call.request !in s.requests)
  {
    RefusedForTheFirstFault(p, s, call);
  }

  /** The account a call writes: the one created, the one its request was made for, or the one named. */
  function Subject(s: State, call: Call): Option<UserId>
  {
    match call
    case Approve(r, _) => if r in s.requests then s.requests[r].userId else None
    case Reject(r) => if r in s.requests then s.requests[r].userId else None
    case CreateOwner(id, _, _, _) => Some(id)
    case AcceptInvite(id, _, _) => Some(id)
    case RequestAccess(id, _, _, _) => Some(id)
    case SetActive(_, id, _) => Some(id)
  }

  /** The request a call writes. */
  function RequestOf(call: Call): Option<RequestId>
  {
    if call.RequestAccess? || call.Approve? || call.Reject? then Some(call.request) else None
  }

  /** Every account but the one a call is about, and every request but its own, is untouched; a refused call touches nothing. */
  lemma OthersAreUntouched(p: Policy, s: State, call: Call, id: UserId, r: RequestId)
    ensures var now := Next(p, s, call);
            && (!Accepted(p, s, call) ==> now == s)
            && (Subject(s, call) != Some(id) ==> (id in now.users <==> id in s.users) && (id in s.users ==> now.users[id] == s.users[id]))
            && (RequestOf(call) != Some(r) ==>
                  (r in now.requests <==> r in s.requests) && (r in s.requests ==> now.requests[r] == s.requests[r]))
            && (now.token == if Accepted(p, s, call) && call.CreateOwner? then None else s.token)
  {
  }

  /** What an accepted call makes of its own account and request. */
  lemma AcceptedCallLeaves(p: Policy, s: State, call: Call)
    requires Accepted(p, s, call)
    ensures var now := Next(p, s, call);
            match call
            case CreateOwner(id, name, _, _) => id !in s.users && id in now.users && now.users[id] == User(name, p.ownerRole, true)
            case AcceptInvite(id, name, role) => id !in s.users && id in now.users && now.users[id] == User(name, role, true)
            case RequestAccess(id, r, name, _) =>
              && id !in s.users && id in now.users && now.users[id] == User(name, p.placeholder, false)
              && r !in s.requests && r in now.requests && now.requests[r] == Request(Some(id), Pending)
            case Approve(r, role) =>
              && r in now.requests && now.requests[r] == Request(s.requests[r].userId, Approved)
              && var id := s.requests[r].userId.value;
                 id in now.users && now.users[id] == User(s.users[id].name, role, true)
            case Reject(r) =>
              && r in now.requests && now.requests[r] == Request(None, Rejected)
              && (forall id :: s.requests[r].userId == Some(id) && id in s.users ==>
                    if s.users[id].active then id in now.users && now.users[id] == s.users[id] else id !in now.users)
            case SetActive(_, id, active) => id in now.users && now.users[id] == User(s.users[id].name, s.users[id].role, active)
  {
  }

  // --- where roles come from -----------------------------------------------

  /** The roles fixed so far, by account; an accepted call that provisions an account fixes its role. */
  function Fixing(p: Policy, s: State, call: Call, fixed: map<UserId, Role>): map<UserId, Role>
  {
    if !Accepted(p, s, call) then fixed
    else match call
      case CreateOwner(id, _, _, _) => fixed[id := p.ownerRole]
      case AcceptInvite(id, _, role) => fixed[id := role]
      case Approve(r, role) => if Subject(s, call).Some? then fixed[Subject(s, call).value := role] else fixed
      case _ => fixed
  }

  function FixedBy(p: Policy, s: State, calls: seq<Call>, fixed: map<UserId, Role>): map<UserId, Role>
    decreases |calls|
  {
    if calls == [] then fixed else FixedBy(p, Next(p, s, calls[0]), calls[1..], Fixing(p, s, calls[0], fixed))
  }

  /** Every account carries the role fixed for it, or awaits a decision on its request and is not active. */
  ghost predicate RolesAsFixed(s: State, fixed: map<UserId, Role>)
  {
    forall id :: id in s.users ==>
      (id in fixed && s.users[id].role == fixed[id]) || (!s.users[id].active && AwaitsDecision(s.requests, id))
  }

  lemma StepKeepsRoles(p: Policy, s: State, call: Call, fixed: map<UserId, Role>)
    requires PendingAreInactive(s) && RolesAsFixed(s, fixed)
    ensures RolesAsFixed(Next(p, s, call), Fixing(p, s, call, fixed))
  {
    var now, after := Next(p, s, call), Fixing(p, s, call, fixed);
    if Accepted(p, s, call) {
      AcceptedCallLeaves(p, s, call);
      forall id | id in now.users
        ensures (id in after && now.users[id].role == after[id]) || (!now.users[id].active && AwaitsDecision(now.requests, id))
      {
        StepKeepsRoleOf(p, s, call, fixed, id);
      }
    }
  }

  lemma StillAwaits(p: Policy, s: State, call: Call, id: UserId)
    requires PendingAreInactive(s) && AwaitsDecision(s.requests, id) && Subject(s, call) != Some(id)
    ensures AwaitsDecision(Next(p, s, call).requests, id)
  {
    var r :| r in s.requests && s.requests[r] == Request(Some(id), Pending);
    OthersAreUntouched(p, s, call, id, r);
    assert RequestOf(call) != Some(r) || !Accepted(p, s, call);
    assert r in Next(p, s, call).requests && Next(p, s, call).requests[r] == Request(Some(id), Pending);
  }

  lemma StepKeepsRoleOf(p: Policy, s: State, call: Call, fixed: map<UserId, Role>, id: UserId)
    requires PendingAreInactive(s) && RolesAsFixed(s, fixed) && Accepted(p, s, call) && id in Next(p, s, call).users
    ensures var now, after := Next(p, s, call), Fixing(p, s, call, fixed);
            (id in after && now.users[id].role == after[id]) || (!now.users[id].active && AwaitsDecision(now.requests, id))
  {
    var now := Next(p, s, call);
    AcceptedCallLeaves(p, s, call);
    if Subject(s, call) != Some(id) {
      if RequestOf(call).Some? {
        OthersAreUntouched(p, s, call, id, RequestOf(call).value);
      } else {
        OthersAreUntouched(p, s, call, id, "");
      }
      if AwaitsDecision(s.requests, id) {
        StillAwaits(p, s, call, id);
      }
    } else if call.RequestAccess? {
      assert now.requests[call.request] == Request(Some(id), Pending);
    }
  }

  /** The roles accounts start a run with. */
  function StartRoles(s: State): map<UserId, Role>
  {
    map id | id in s.users :: s.users[id].role
  }

  lemma {:induction false} RunKeepsRoles(p: Policy, s: State, calls: seq<Call>, fixed: map<UserId, Role>)
    requires PendingAreInactive(s) && RolesAsFixed(s, fixed)
    ensures RolesAsFixed(Run(p, s, calls), FixedBy(p, s, calls, fixed))
    decreases |calls|
  {
    if calls != [] {
      StepKeepsPendingInactive(p, s, calls[0]);
      StepKeepsRoles(p, s, calls[0], fixed);
      RunKeepsRoles(p, Next(p, s, calls[0]), calls[1..], Fixing(p, s, calls[0], fixed));
    }
  }

  /**
   Over every run, the role of an active account is the one fixed by the last accepted call that provisioned it: the
   owner setup's, its invitation's, or the one its approver granted; where there was none, the role it started with.
   */
  lemma ActiveRolesAreGranted(p: Policy, s: State, calls: seq<Call>, id: UserId)
    requires PendingAreInactive(s) && id in Run(p, s, calls).users && Run(p, s, calls).users[id].active
    ensures var fixed := FixedBy(p, s, calls, StartRoles(s));
            id in fixed && Run(p, s, calls).users[id].role == fixed[id]
  {
    RunKeepsRoles(p, s, calls, StartRoles(s));
  }

  /** An account begins to administer only by owner setup, by a managing role granted to it, or by being activated again with one. */
  lemma AdministratorsComeFrom(p: Policy, s: State, call: Call, id: UserId)
    requires id in Next(p, s, call).users && Administers(p, Next(p, s, call).users[id])
    requires !(id in s.users && Administers(p, s.users[id]))
    ensures Accepted(p, s, call) && Subject(s, call) == Some(id)
    ensures || call.CreateOwner?
            || ((call.AcceptInvite? || call.Approve?) && call.role in p.managers)
            || (call.SetActive? && call.active && s.users[id].role in p.managers)
  {
    OthersAreUntouched(p, s, call, id, "");
    AcceptedCallLeaves(p, s, call);
  }

  /** And each of those does make one: the owner, an account granted a managing role, one activated again with it. */
  lemma GrantsMakeAdministrators(p: Policy, s: State, call: Call)
    requires Accepted(p, s, call)
    requires || call.CreateOwner?
             || ((call.AcceptInvite? || call.Approve?) && call.role in p.managers)
             || (call.SetActive? && call.active && s.users[call.id].role in p.managers)
    ensures Subject(s, call).Some? && Subject(s, call).value in Next(p, s, call).users
    ensures Administers(p, Next(p, s, call).users[Subject(s, call).value])
  {
    AcceptedCallLeaves(p, s, call);
  }
}
