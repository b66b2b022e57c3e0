/**
 Who may administer a host: owner setup, access requests and activation
 (backend/core/accounts.py), each service call taken as one step under one policy.
 */
module Administrators {
  import opened Wrappers

  type UserId = string
  type RequestId = string
  type Role = string

  /** What the configuration fixes between restarts. */
  datatype Policy = Policy(roles: set<Role>, managers: set<Role>, ownerRole: Role, placeholder: Role, demo: bool)

  datatype User = User(name: string, role: Role, active: bool)

  datatype Decision = Pending | Approved | Rejected

  datatype Request = Request(userId: Option<UserId>, status: Decision)

  datatype Token = Token(hash: string, expiresAt: nat)

  datatype State = State(users: map<UserId, User>, requests: map<RequestId, Request>, token: Option<Token>)

  datatype Refusal =
    | AlreadySetUp | TokenRefused | NameTaken | OwnerRoleTooWeak | NotARole | NotFound
    | AlreadyDecided | AccountGone | AwaitsRequest | OwnAccount | LastAdministrator

  /** The calls, with the identifiers they draw. Checks of the input alone have been passed. */
  datatype Call =
    | CreateOwner(id: UserId, name: string, hash: string, now: nat)
    | AcceptInvite(id: UserId, name: string, role: Role)
    | RequestAccess(id: UserId, request: RequestId, name: string, role: Role)
    | Approve(request: RequestId, role: Role)
    | Reject(request: RequestId)
    | SetActive(actor: UserId, id: UserId, active: bool)

  predicate Administers(p: Policy, u: User)
  {
    u.active && u.role in p.managers
  }

  predicate HasAdministrator(p: Policy, users: map<UserId, User>)
  {
    exists id :: id in users && Administers(p, users[id])
  }

  predicate NeedsSetup(p: Policy, users: map<UserId, User>)
  {
    !p.demo && !HasAdministrator(p, users)
  }

  predicate NameInUse(users: map<UserId, User>, name: string)
  {
    exists id :: id in users && users[id].name == name
  }

  predicate AwaitsDecision(requests: map<RequestId, Request>, id: UserId)
  {
    exists r :: r in requests && requests[r] == Request(Some(id), Pending)
  }

  /** Why a call is refused, if it is; the first check that fails decides. */
  function Objection(p: Policy, s: State, call: Call): Option<Refusal>
  {
    match call
    case CreateOwner(_, name, hash, now) =>
      if !NeedsSetup(p, s.users) then Some(AlreadySetUp)
      else if s.token.None? || s.token.value.hash != hash || s.token.value.expiresAt <= now then Some(TokenRefused)
      else if NameInUse(s.users, name) then Some(NameTaken)
      else if p.ownerRole !in p.managers then Some(OwnerRoleTooWeak)
      else None
    case AcceptInvite(_, name, _) => if NameInUse(s.users, name) then Some(NameTaken) else None
    case RequestAccess(_, _, name, role) =>
      if role !in p.roles then Some(NotARole) else if NameInUse(s.users, name) then Some(NameTaken) else None
    case Approve(r, role) =>
      if r !in s.requests then Some(NotFound)
      else if s.requests[r].status != Pending then Some(AlreadyDecided)
      else if role !in p.roles then Some(NotARole)
      else if s.requests[r].userId.None? || s.requests[r].userId.value !in s.users then Some(AccountGone)
      else None
    case Reject(r) =>
      if r !in s.requests then Some(NotFound)
      else if s.requests[r].status != Pending then Some(AlreadyDecided)
      else None
    case SetActive(actor, id, active) =>
      if id !in s.users then Some(NotFound)
      else if AwaitsDecision(s.requests, id) then Some(AwaitsRequest)
      else if active then None
      else if id == actor then Some(OwnAccount)
      else if Administers(p, s.users[id]) && !HasAdministrator(p, s.users - {id}) then Some(LastAdministrator)
      else None
  }

  /** What an accepted call writes. Identifiers are drawn afresh. */
  function Effect(p: Policy, s: State, call: Call): State
    requires Objection(p, s, call).None?
  {
    match call
    case CreateOwner(id, name, _, _) => s.(users := s.users[id := User(name, p.ownerRole, true)], token := None)
    case AcceptInvite(id, name, role) => s.(users := s.users[id := User(name, role, true)])
    case RequestAccess(id, r, name, _) =>
      s.(users := s.users[id := User(name, p.placeholder, false)],
         requests := s.requests[r := Request(Some(id), Pending)])
    case Approve(r, role) =>
      var id := s.requests[r].userId.value;
      s.(requests := s.requests[r := s.requests[r].(status := Approved)],
         users := s.users[id := s.users[id].(role := role, active := true)])
    case Reject(r) =>
      s.(requests := s.requests[r := Request(None, Rejected)], users := AfterReject(s.users, s.requests[r].userId))
    case SetActive(_, id, active) => s.(users := s.users[id := s.users[id].(active := active)])
  }

  /** A rejected request's account goes, unless something has activated it. */
  function AfterReject(users: map<UserId, User>, id: Option<UserId>): map<UserId, User>
  {
    if id.Some? && id.value in users && !users[id.value].active then users - {id.value} else users
  }

  predicate Fresh(s: State, call: Call)
  {
    match call
    case CreateOwner(id, _, _, _) => id !in s.users
    case AcceptInvite(id, _, _) => id !in s.users
    case RequestAccess(id, r, _, _) => id !in s.users && r !in s.requests
    case _ => true
  }

  function Next(p: Policy, s: State, call: Call): State
  {
    if Fresh(s, call) && Objection(p, s, call).None? then Effect(p, s, call) else s
  }

  function Run(p: Policy, s: State, calls: seq<Call>): State
    decreases |calls|
  {
    if calls == [] then s else Run(p, Next(p, s, calls[0]), calls[1..])
  }

  // --- invariants ----------------------------------------------------------

  /** A pending request has an account of its own, and it is inactive. */
  ghost predicate PendingAreInactive(s: State)
  {
    && (forall r :: r in s.requests && s.requests[r].status == Pending ==>
          && s.requests[r].userId.Some?
          && s.requests[r].userId.value in s.users
          && !s.users[s.requests[r].userId.value].active)
    && (forall r, t :: r in s.requests && t in s.requests && r != t ==>
          s.requests[r].status == Pending && s.requests[t].status == Pending ==>
            s.requests[r].userId != s.requests[t].userId)
  }

  lemma ActivationLeavesPendingAlone(p: Policy, s: State, call: Call)
    requires PendingAreInactive(s) && call.SetActive?
    ensures PendingAreInactive(Next(p, s, call))
  {
    if Objection(p, s, call).None? {
      forall r | r in s.requests && s.requests[r].status == Pending
        ensures s.requests[r].userId.value != call.id
      {
        assert s.requests[r] == Request(s.requests[r].userId, Pending);
      }
    }
  }

  lemma StepKeepsPendingInactive(p: Policy, s: State, call: Call)
    requires PendingAreInactive(s)
    ensures PendingAreInactive(Next(p, s, call))
  {
    if call.SetActive? {
      ActivationLeavesPendingAlone(p, s, call);
    }
  }

  /** No call takes the last administrator away, because approvals and rejections only ever meet inactive accounts. */
  lemma StepKeepsAdministrator(p: Policy, s: State, call: Call)
    requires PendingAreInactive(s) && HasAdministrator(p, s.users)
    ensures HasAdministrator(p, Next(p, s, call).users)
  {
    var now := Next(p, s, call);
    var boss :| boss in s.users && Administers(p, s.users[boss]);
    if call.SetActive? && call.id == boss && now != s && !call.active {
      var other :| other in s.users - {boss} && Administers(p, (s.users - {boss})[other]);
      assert Administers(p, now.users[other]);
    } else if call.SetActive? && call.id == boss && now != s {
      assert Administers(p, now.users[boss]);
    } else {
      assert boss in now.users && now.users[boss] == s.users[boss];
    }
  }

  lemma {:induction false} RunKeepsBoth(p: Policy, s: State, calls: seq<Call>)
    requires PendingAreInactive(s)
    ensures PendingAreInactive(Run(p, s, calls))
    ensures HasAdministrator(p, s.users) ==> HasAdministrator(p, Run(p, s, calls).users)
    decreases |calls|
  {
    if calls != [] {
      StepKeepsPendingInactive(p, s, calls[0]);
      if HasAdministrator(p, s.users) {
        StepKeepsAdministrator(p, s, calls[0]);
      }
      RunKeepsBoth(p, Next(p, s, calls[0]), calls[1..]);
    }
  }

  // --- what every run guarantees -------------------------------------------

  /** How many times the owner was created along a run. */
  function OwnersCreated(p: Policy, s: State, calls: seq<Call>): nat
    decreases |calls|
  {
    if calls == [] then 0
    else (if calls[0].CreateOwner? && Next(p, s, calls[0]) != s then 1 else 0)
         + OwnersCreated(p, Next(p, s, calls[0]), calls[1..])
  }

  /** Once there is an administrator the setup door is shut, and every later owner setup is refused. */
  lemma {:induction false} DoorStaysShut(p: Policy, s: State, calls: seq<Call>)
    requires PendingAreInactive(s) && HasAdministrator(p, s.users)
    ensures !NeedsSetup(p, Run(p, s, calls).users)
    ensures OwnersCreated(p, s, calls) == 0
    decreases |calls|
  {
    if calls != [] {
      StepKeepsPendingInactive(p, s, calls[0]);
      StepKeepsAdministrator(p, s, calls[0]);
      DoorStaysShut(p, Next(p, s, calls[0]), calls[1..]);
    }
  }

  /** Whatever else happens, the owner is created at most once. */
  lemma {:induction false} OwnerIsCreatedAtMostOnce(p: Policy, s: State, calls: seq<Call>)
    requires PendingAreInactive(s)
    ensures OwnersCreated(p, s, calls) <= 1
    decreases |calls|
  {
    if calls != [] {
      var now := Next(p, s, calls[0]);
      StepKeepsPendingInactive(p, s, calls[0]);
      if calls[0].CreateOwner? && now != s {
        assert Administers(p, now.users[calls[0].id]);
        DoorStaysShut(p, now, calls[1..]);
      } else {
        OwnerIsCreatedAtMostOnce(p, now, calls[1..]);
      }
    }
  }

  /** The guard on deactivation is exact: it refuses just what would leave nobody. */
  lemma LastAdministratorGuardIsExact(p: Policy, s: State, actor: UserId, id: UserId)
    requires id in s.users && id != actor && !AwaitsDecision(s.requests, id)
    ensures Objection(p, s, SetActive(actor, id, false)) == Some(LastAdministrator) <==>
              && HasAdministrator(p, s.users)
              && !HasAdministrator(p, s.users[id := s.users[id].(active := false)])
  {
    var unguarded := s.users[id := s.users[id].(active := false)];
    if HasAdministrator(p, unguarded) {
      var other :| other in unguarded && Administers(p, unguarded[other]);
      assert Administers(p, (s.users - {id})[other]);
    }
    if HasAdministrator(p, s.users) && !Administers(p, s.users[id]) {
      var boss :| boss in s.users && Administers(p, s.users[boss]);
      assert Administers(p, unguarded[boss]);
    }
    if HasAdministrator(p, s.users - {id}) {
      var other :| other in s.users - {id} && Administers(p, (s.users - {id})[other]);
      assert Administers(p, unguarded[other]);
    }
  }

  function Deactivated(users: map<UserId, User>, id: UserId): map<UserId, User>
    requires id in users
  {
    users[id := users[id].(active := false)]
  }

  /**
   The guard reads, then writes, and its route may run on several threads. Two deactivations that both
   pass before either writes leave nobody exactly when no third account administers; one after the other
   they never do.
   */
  lemma OverlappingDeactivationsLeaveNobodyIff(p: Policy, s: State, x: UserId, a: UserId, y: UserId, b: UserId)
    requires Objection(p, s, SetActive(x, a, false)).None? && Objection(p, s, SetActive(y, b, false)).None?
    ensures !HasAdministrator(p, Deactivated(Deactivated(s.users, a), b)) <==>
              forall id :: id in s.users && Administers(p, s.users[id]) ==> id == a || id == b
    ensures PendingAreInactive(s) && HasAdministrator(p, s.users) ==>
              HasAdministrator(p, Run(p, s, [SetActive(x, a, false), SetActive(y, b, false)]).users)
  {
    var after := Deactivated(Deactivated(s.users, a), b);
    forall id | id in s.users
      ensures Administers(p, after[id]) <==> Administers(p, s.users[id]) && id != a && id != b
    {
    }
    if id :| id in s.users && Administers(p, s.users[id]) && id != a && id != b {
      assert Administers(p, after[id]);
    }
    if PendingAreInactive(s) {
      RunKeepsBoth(p, s, [SetActive(x, a, false), SetActive(y, b, false)]);
    }
  }

  // --- the service ---------------------------------------------------------

  class AccountService {
    const policy: Policy
    var users: map<UserId, User>
    var requests: map<RequestId, Request>
    var token: Option<Token>

    function View(): State
      reads this
    {
      State(users, requests, token)
    }

    constructor (policy: Policy)
      ensures this.policy == policy && View() == State(map[], map[], None)
    {
      this.policy := policy;
      users, requests, token := map[], map[], None;
    }

    /** Any active account, other than the one left out, whose role manages users. */
    method AnyAdministrator(besides: Option<UserId>) returns (found: bool)
      ensures found <==> HasAdministrator(policy, if besides.Some? then users - {besides.value} else users)
    {
      ghost var considered := if besides.Some? then users - {besides.value} else users;
      var rest := users.Keys;
      found := false;
      while rest != {}
        invariant rest <= users.Keys
        invariant found ==> HasAdministrator(policy, considered)
        invariant !found ==> forall id :: id in considered && id !in rest ==> !Administers(policy, considered[id])
      {
        var id :| id in rest;
        rest := rest - {id};
        if Some(id) != besides && Administers(policy, users[id]) {
          assert Administers(policy, considered[id]);
          found := true;
        }
      }
    }

    method CreateOwnerAccount(id: UserId, name: string, hash: string, now: nat) returns (refusal: Option<Refusal>)
      requires id !in users
      modifies this
      ensures refusal == Objection(policy, old(View()), CreateOwner(id, name, hash, now))
      ensures View() == Next(policy, old(View()), CreateOwner(id, name, hash, now))
    {
      var settled := AnyAdministrator(None);
      if policy.demo || settled {
        return Some(AlreadySetUp);
      }
      if token.None? || token.value.hash != hash || token.value.expiresAt <= now {
        return Some(TokenRefused);
      }
      if NameInUse(users, name) {
        return Some(NameTaken);
      }
      if policy.ownerRole !in policy.managers {
        return Some(OwnerRoleTooWeak);
      }
      users := users[id := User(name, policy.ownerRole, true)];
      token := None;
      return None;
    }

    method RequestAccount(id: UserId, request: RequestId, name: string, role: Role) returns (refusal: Option<Refusal>)
      requires id !in users && request !in requests
      modifies this
      ensures refusal == Objection(policy, old(View()), RequestAccess(id, request, name, role))
      ensures View() == Next(policy, old(View()), RequestAccess(id, request, name, role))
    {
      if role !in policy.roles {
        return Some(NotARole);
      }
      if NameInUse(users, name) {
        return Some(NameTaken);
      }
      users := users[id := User(name, policy.placeholder, false)];
      requests := requests[request := Request(Some(id), Pending)];
      return None;
    }

    method ApproveRequest(request: RequestId, role: Role) returns (refusal: Option<Refusal>)
      modifies this
      ensures refusal == Objection(policy, old(View()), Approve(request, role))
      ensures View() == Next(policy, old(View()), Approve(request, role))
    {
      if request !in requests {
        return Some(NotFound);
      }
      var row := requests[request];
      if row.status != Pending {
        return Some(AlreadyDecided);
      }
      if role !in policy.roles {
        return Some(NotARole);
      }
      if row.userId.None? || row.userId.value !in users {
        return Some(AccountGone);
      }
      requests := requests[request := row.(status := Approved)];
      users := users[row.userId.value := users[row.userId.value].(role := role, active := true)];
      return None;
    }

    method RejectRequest(request: RequestId) returns (refusal: Option<Refusal>)
      modifies this
      ensures refusal == Objection(policy, old(View()), Reject(request))
      ensures View() == Next(policy, old(View()), Reject(request))
    {
      if request !in requests {
        return Some(NotFound);
      }
      var row := requests[request];
      if row.status != Pending {
        return Some(AlreadyDecided);
      }
      requests := requests[request := Request(None, Rejected)];
      if row.userId.Some? && row.userId.value in users && !users[row.userId.value].active {
        users := users - {row.userId.value};
      }
      return None;
    }

    method SetAccountActive(actor: UserId, id: UserId, active: bool) returns (refusal: Option<Refusal>)
      modifies this
      ensures refusal == Objection(policy, old(View()), SetActive(actor, id, active))
      ensures View() == Next(policy, old(View()), SetActive(actor, id, active))
    {
      if id !in users {
        return Some(NotFound);
      }
      if AwaitsDecision(requests, id) {
        return Some(AwaitsRequest);
      }
      if !active {
        if id == actor {
          return Some(OwnAccount);
        }
        if Administers(policy, users[id]) {
          var others := AnyAdministrator(Some(id));
          if !others {
            return Some(LastAdministrator);
          }
        }
      }
      users := users[id := users[id].(active := active)];
      return None;
    }
  }
}
