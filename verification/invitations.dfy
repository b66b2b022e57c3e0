/**
 Invitations redeemed by interleaved callers (backend/core/accounts.py over the
 conditional updates of backend/core/database.py). One step is one statement
 against the database; between two statements of one caller anyone else may act.
 */
module Invitations {
  import opened Wrappers

  type InviteId = string
  type Name = string
  type Time = nat

  /** A row of `invites`; what it grants is fixed when it is issued. */
  datatype Invite = Invite(
    codeHash: string,
    role: string,
    department: string,
    expiresAt: Time,
    usedAt: Option<Time>,
    usedBy: Option<Name>,
    revokedAt: Option<Time>)

  datatype Account = Account(role: string, department: string)

  datatype Status = Open | Used | Expired | Revoked

  datatype Refusal = UnknownCode | NotOpen(status: Status) | NameTaken | ClaimedConcurrently

  /** Where one call of `accept_invite` stands. */
  datatype Caller =
    | Asking(hash: string, name: Name)
    | Found(name: Name, id: InviteId, record: Invite)
    | Ready(name: Name, id: InviteId, record: Invite)
    | Claimed(name: Name, id: InviteId, record: Invite)
    | Collided(name: Name, id: InviteId, record: Invite)
    | Done
    | Refused(why: Refusal)

  /** An account an invitation produced; kept here even if the account is later removed. */
  datatype Provision = Provision(invite: InviteId, name: Name, account: Account)

  datatype State = State(
    invites: map<InviteId, Invite>,
    users: map<Name, Account>,
    callers: seq<Caller>,
    provisioned: seq<Provision>,
    clock: Time)

  datatype Step =
    | Issue(id: InviteId, invite: Invite)
    | Revoke(id: InviteId)
    | Arrive(hash: string, name: Name)
    | Look(p: nat, found: Option<InviteId>)
    | Check(p: nat, now: Time)
    | Claim(p: nat, now: Time)
    | Insert(p: nat)
    | GiveBack(p: nat)
    | OtherAccount(name: Name, account: Account)
    | RemoveAccount(name: Name)
    | Tick

  // --- the statements ------------------------------------------------------

  function StatusOf(invite: Invite, now: Time): Status
  {
    if invite.revokedAt.Some? then Revoked
    else if invite.usedAt.Some? then Used
    else if invite.expiresAt <= now then Expired
    else Open
  }

  /** The rows `claim_invite` matches. */
  predicate Claimable(invites: map<InviteId, Invite>, id: InviteId, now: Time)
  {
    && id in invites && invites[id].usedAt.None? && invites[id].revokedAt.None? && invites[id].expiresAt > now
  }

  function ClaimInvite(invites: map<InviteId, Invite>, id: InviteId, name: Name, now: Time): map<InviteId, Invite>
  {
    if Claimable(invites, id, now) then invites[id := invites[id].(usedAt := Some(now), usedBy := Some(name))]
    else invites
  }

  /** The rows `revoke_invite` matches. */
  predicate Revocable(invites: map<InviteId, Invite>, id: InviteId)
  {
    id in invites && invites[id].usedAt.None? && invites[id].revokedAt.None?
  }

  function RevokeInvite(invites: map<InviteId, Invite>, id: InviteId, now: Time): map<InviteId, Invite>
  {
    if Revocable(invites, id) then invites[id := invites[id].(revokedAt := Some(now))] else invites
  }

  /** The give-back asks nothing of the row. */
  function GiveInviteBack(invites: map<InviteId, Invite>, id: InviteId): map<InviteId, Invite>
  {
    if id in invites then invites[id := invites[id].(usedAt := None, usedBy := None)] else invites
  }

  /** What a lookup by the hash of the code may return. */
  ghost predicate Matches(invites: map<InviteId, Invite>, hash: string, found: Option<InviteId>)
  {
    match found
    case Some(id) => id in invites && invites[id].codeHash == hash
    case None => forall id :: id in invites ==> invites[id].codeHash != hash
  }

  function Granted(invite: Invite): Account
  {
    Account(invite.role, invite.department)
  }

  ghost function Move(s: State, p: nat, to: Caller): State
    requires p < |s.callers|
  {
    s.(callers := s.callers[p := to])
  }

  /** One step; a step that cannot be taken now changes nothing. */
  ghost function Next(s: State, step: Step): State
  {
    match step
    case Issue(id, invite) =>
      if id in s.invites || (exists other :: other in s.invites && s.invites[other].codeHash == invite.codeHash) then s
      else s.(invites := s.invites[id := invite.(usedAt := None, usedBy := None, revokedAt := None)])
    case Revoke(id) => s.(invites := RevokeInvite(s.invites, id, s.clock))
    case Arrive(hash, name) => s.(callers := s.callers + [Asking(hash, name)])
    case OtherAccount(name, account) => if name in s.users then s else s.(users := s.users[name := account])
    case RemoveAccount(name) => s.(users := s.users - {name})
    case Tick => s.(clock := s.clock + 1)
    case _ => if step.p < |s.callers| then NextCaller(s, step) else s
  }

  ghost predicate OfCaller(step: Step)
  {
    step.Look? || step.Check? || step.Claim? || step.Insert? || step.GiveBack?
  }

  ghost function NextCaller(s: State, step: Step): State
    requires OfCaller(step) && step.p < |s.callers|
  {
    var c := s.callers[step.p];
    match step
    case Look(p, found) =>
      if !(c.Asking? && Matches(s.invites, c.hash, found)) then s
      else if found.None? then Move(s, p, Refused(UnknownCode))
      else Move(s, p, Found(c.name, found.value, s.invites[found.value]))
    case Check(p, now) =>
      if !(c.Found? && now <= s.clock) then s
      else if StatusOf(c.record, now) != Open then Move(s, p, Refused(NotOpen(StatusOf(c.record, now))))
      else if c.name in s.users then Move(s, p, Refused(NameTaken))
      else Move(s, p, Ready(c.name, c.id, c.record))
    case Claim(p, now) =>
      if !(c.Ready? && now <= s.clock) then s
      else if !Claimable(s.invites, c.id, now) then Move(s, p, Refused(ClaimedConcurrently))
      else Move(s, p, Claimed(c.name, c.id, c.record)).(invites := ClaimInvite(s.invites, c.id, c.name, now))
    case Insert(p) =>
      if !c.Claimed? then s
      else if c.name in s.users then Move(s, p, Collided(c.name, c.id, c.record))
      else Move(s, p, Done).(users := s.users[c.name := Granted(c.record)],
                             provisioned := s.provisioned + [Provision(c.id, c.name, Granted(c.record))])
    case GiveBack(p) =>
      if !c.Collided? then s
      else Move(s, p, Refused(NameTaken)).(invites := GiveInviteBack(s.invites, c.id))
  }

  ghost function Run(s: State, steps: seq<Step>): State
    decreases |steps|
  {
    if steps == [] then s else Run(Next(s, steps[0]), steps[1..])
  }

  ghost function Init(users: map<Name, Account>): State
  {
    State(map[], users, [], [], 0)
  }

  // --- the invariant -------------------------------------------------------

  predicate HasRecord(c: Caller)
  {
    c.Found? || c.Ready? || c.Claimed? || c.Collided?
  }

  /** Between its claim and its insert or give-back a caller holds the invitation. */
  predicate Holds(c: Caller, id: InviteId)
  {
    (c.Claimed? || c.Collided?) && c.id == id
  }

  predicate SameTerms(a: Invite, b: Invite)
  {
    a.role == b.role && a.department == b.department && a.expiresAt == b.expiresAt && a.codeHash == b.codeHash
  }

  ghost predicate RowsAreSound(invites: map<InviteId, Invite>)
  {
    forall id :: id in invites ==>
      && (invites[id].usedAt.Some? <==> invites[id].usedBy.Some?)
      && (invites[id].usedAt.Some? ==> invites[id].revokedAt.None? && invites[id].usedAt.value < invites[id].expiresAt)
  }

  ghost predicate CallersAreSound(invites: map<InviteId, Invite>, callers: seq<Caller>)
  {
    && (forall p :: 0 <= p < |callers| && HasRecord(callers[p]) ==>
          callers[p].id in invites && SameTerms(callers[p].record, invites[callers[p].id]))
    && (forall p, id :: 0 <= p < |callers| && Holds(callers[p], id) ==> invites[id].usedBy == Some(callers[p].name))
    && (forall p, q, id :: 0 <= p < q < |callers| && Holds(callers[p], id) ==> !Holds(callers[q], id))
  }

  ghost predicate ProvisionsAreSound(invites: map<InviteId, Invite>, callers: seq<Caller>, provisioned: seq<Provision>)
  {
    && (forall k :: 0 <= k < |provisioned| ==>
          && provisioned[k].invite in invites
          && invites[provisioned[k].invite].usedBy == Some(provisioned[k].name)
          && provisioned[k].account == Granted(invites[provisioned[k].invite]))
    && (forall k, l :: 0 <= k < l < |provisioned| ==> provisioned[k].invite != provisioned[l].invite)
    && (forall k, p :: 0 <= k < |provisioned| && 0 <= p < |callers| ==> !Holds(callers[p], provisioned[k].invite))
  }

  ghost predicate Inv(s: State)
  {
    && RowsAreSound(s.invites)
    && CallersAreSound(s.invites, s.callers)
    && ProvisionsAreSound(s.invites, s.callers, s.provisioned)
  }

  /** A caller may let go of an invitation, or keep what it holds, and nothing else is affected. */
  lemma MoveKeepsSound(invites: map<InviteId, Invite>, callers: seq<Caller>, provisioned: seq<Provision>, p: nat, to: Caller)
    requires CallersAreSound(invites, callers) && ProvisionsAreSound(invites, callers, provisioned)
    requires p < |callers|
    requires HasRecord(to) ==> to.id in invites && SameTerms(to.record, invites[to.id])
    requires to.Claimed? || to.Collided? ==> Holds(callers[p], to.id) && to.name == callers[p].name
    ensures CallersAreSound(invites, callers[p := to])
    ensures ProvisionsAreSound(invites, callers[p := to], provisioned)
  {
  }

  /** Nobody holds an unused invitation, and none has come of it. */
  lemma UnusedIsFree(s: State, id: InviteId)
    requires Inv(s) && id in s.invites && s.invites[id].usedAt.None?
    ensures forall p :: 0 <= p < |s.callers| ==> !Holds(s.callers[p], id)
    ensures forall k :: 0 <= k < |s.provisioned| ==> s.provisioned[k].invite != id
  {
  }

  lemma FreeRowMayChange(
      invites: map<InviteId, Invite>, callers: seq<Caller>, provisioned: seq<Provision>, id: InviteId, row: Invite)
    requires CallersAreSound(invites, callers) && ProvisionsAreSound(invites, callers, provisioned)
    requires id in invites && SameTerms(invites[id], row)
    requires forall p :: 0 <= p < |callers| ==> !Holds(callers[p], id)
    requires forall k :: 0 <= k < |provisioned| ==> provisioned[k].invite != id
    ensures CallersAreSound(invites[id := row], callers)
    ensures ProvisionsAreSound(invites[id := row], callers, provisioned)
  {
  }

  lemma FreeRowMayBeHeld(
      invites: map<InviteId, Invite>, callers: seq<Caller>, provisioned: seq<Provision>, p: nat, to: Caller)
    requires CallersAreSound(invites, callers) && ProvisionsAreSound(invites, callers, provisioned)
    requires p < |callers| && to.Claimed? && to.id in invites && SameTerms(to.record, invites[to.id])
    requires invites[to.id].usedBy == Some(to.name)
    requires forall q :: 0 <= q < |callers| ==> !Holds(callers[q], to.id)
    requires forall k :: 0 <= k < |provisioned| ==> provisioned[k].invite != to.id
    ensures CallersAreSound(invites, callers[p := to])
    ensures ProvisionsAreSound(invites, callers[p := to], provisioned)
  {
  }

  lemma ClaimKeepsInv(s: State, p: nat, now: Time)
    requires Inv(s) && p < |s.callers|
    ensures Inv(Next(s, Claim(p, now)))
  {
    var c := s.callers[p];
    if c.Ready? && now <= s.clock {
      if Claimable(s.invites, c.id, now) {
        UnusedIsFree(s, c.id);
        var invites := ClaimInvite(s.invites, c.id, c.name, now);
        FreeRowMayChange(s.invites, s.callers, s.provisioned, c.id, invites[c.id]);
        FreeRowMayBeHeld(invites, s.callers, s.provisioned, p, Claimed(c.name, c.id, c.record));
      } else {
        MoveKeepsSound(s.invites, s.callers, s.provisioned, p, Refused(ClaimedConcurrently));
      }
    }
  }

  lemma InsertKeepsInv(s: State, p: nat)
    requires Inv(s) && p < |s.callers|
    ensures Inv(Next(s, Insert(p)))
  {
    var c := s.callers[p];
    if c.Claimed? {
      assert Holds(c, c.id);
      var to := if c.name in s.users then Collided(c.name, c.id, c.record) else Done;
      MoveKeepsSound(s.invites, s.callers, s.provisioned, p, to);
      if to.Done? {
        assert forall q :: 0 <= q < |s.callers| && q != p ==> !Holds(s.callers[q], c.id);
      }
    }
  }

  lemma GiveBackKeepsInv(s: State, p: nat)
    requires Inv(s) && p < |s.callers|
    ensures Inv(Next(s, GiveBack(p)))
  {
    var c := s.callers[p];
    if c.Collided? {
      assert Holds(c, c.id);
    }
  }

  /** A caller that reads and moves on without the invitation in hand. */
  lemma ReadKeepsInv(s: State, step: Step)
    requires Inv(s) && (step.Look? || step.Check?) && step.p < |s.callers|
    ensures Inv(Next(s, step))
  {
    var now := Next(s, step);
    if now != s {
      MoveKeepsSound(s.invites, s.callers, s.provisioned, step.p, now.callers[step.p]);
    }
  }

  lemma TableKeepsInv(s: State, step: Step)
    requires Inv(s) && (step.Issue? || step.Revoke? || step.Arrive?)
    ensures Inv(Next(s, step))
  {
  }

  lemma StepKeepsInv(s: State, step: Step)
    requires Inv(s)
    ensures Inv(Next(s, step))
  {
    match step
    case Issue(_, _) => TableKeepsInv(s, step);
    case Revoke(_) => TableKeepsInv(s, step);
    case Arrive(_, _) => TableKeepsInv(s, step);
    case Look(p, _) => if p < |s.callers| { ReadKeepsInv(s, step); }
    case Check(p, _) => if p < |s.callers| { ReadKeepsInv(s, step); }
    case Claim(p, now) => if p < |s.callers| { ClaimKeepsInv(s, p, now); }
    case Insert(p) => if p < |s.callers| { InsertKeepsInv(s, p); }
    case GiveBack(p) => if p < |s.callers| { GiveBackKeepsInv(s, p); }
    case OtherAccount(_, _) =>
    case RemoveAccount(_) =>
    case Tick =>
  }

  /** What a row grants, once issued, no step rewrites; a revoked row stays revoked. */
  lemma StepKeepsTerms(s: State, step: Step, id: InviteId)
    requires Inv(s) && id in s.invites
    ensures id in Next(s, step).invites && SameTerms(s.invites[id], Next(s, step).invites[id])
    ensures s.invites[id].revokedAt.Some? ==> Next(s, step).invites[id] == s.invites[id]
  {
    if OfCaller(step) && step.p < |s.callers| {
      var c := s.callers[step.p];
      if c.Collided? {
        assert Holds(c, c.id);
      }
    }
  }

  lemma {:induction false} RunKeepsInv(s: State, steps: seq<Step>)
    requires Inv(s)
    ensures Inv(Run(s, steps))
    ensures forall id :: id in s.invites ==>
              && id in Run(s, steps).invites
              && SameTerms(s.invites[id], Run(s, steps).invites[id])
              && (s.invites[id].revokedAt.Some? ==> Run(s, steps).invites[id] == s.invites[id])
    decreases |steps|
  {
    if steps != [] {
      StepKeepsInv(s, steps[0]);
      forall id | id in s.invites
        ensures id in Next(s, steps[0]).invites && SameTerms(s.invites[id], Next(s, steps[0]).invites[id])
        ensures s.invites[id].revokedAt.Some? ==> Next(s, steps[0]).invites[id] == s.invites[id]
      {
        StepKeepsTerms(s, steps[0], id);
      }
      RunKeepsInv(Next(s, steps[0]), steps[1..]);
    }
  }

  // --- what every run guarantees -------------------------------------------

  /**
   However the calls interleave, an invitation yields at most one account, with
   the role and department its row fixed, claimed before it expired.
   */
  lemma OneAccountPerInvitation(users: map<Name, Account>, steps: seq<Step>)
    ensures var s := Run(Init(users), steps);
            forall k :: 0 <= k < |s.provisioned| ==>
              var id := s.provisioned[k].invite;
              && id in s.invites
              && s.provisioned[k].account == Account(s.invites[id].role, s.invites[id].department)
              && s.invites[id].revokedAt.None?
              && s.invites[id].usedAt.Some? && s.invites[id].usedAt.value < s.invites[id].expiresAt
              && forall l :: 0 <= l < |s.provisioned| && s.provisioned[l].invite == id ==> l == k
  {
    RunKeepsInv(Init(users), steps);
  }

  /** A revocation that succeeds is final: not one account comes of the invitation, then or later. */
  lemma RevokedYieldsNone(s: State, id: InviteId, steps: seq<Step>)
    requires Inv(s) && Revocable(s.invites, id)
    ensures var after := Run(Next(s, Revoke(id)), steps);
            forall k :: 0 <= k < |after.provisioned| ==> after.provisioned[k].invite != id
  {
    StepKeepsInv(s, Revoke(id));
    RunKeepsInv(Next(s, Revoke(id)), steps);
  }

  /** While a caller holds an invitation, nobody else's step touches its row. */
  lemma HeldRowIsFrozen(s: State, p: nat, step: Step)
    requires Inv(s) && p < |s.callers| && HasRecord(s.callers[p]) && Holds(s.callers[p], s.callers[p].id)
    requires OfCaller(step) ==> step.p != p
    ensures p < |Next(s, step).callers| && Next(s, step).callers[p] == s.callers[p]
    ensures Next(s, step).invites[s.callers[p].id] == s.invites[s.callers[p].id]
  {
    var id := s.callers[p].id;
    if step.GiveBack? && step.p < |s.callers| && s.callers[step.p].Collided? {
      assert Holds(s.callers[step.p], s.callers[step.p].id);
    }
  }

  lemma {:induction false} HeldRowStaysFrozen(s: State, p: nat, steps: seq<Step>)
    requires Inv(s) && p < |s.callers| && HasRecord(s.callers[p]) && Holds(s.callers[p], s.callers[p].id)
    requires forall k :: 0 <= k < |steps| && OfCaller(steps[k]) ==> steps[k].p != p
    ensures Inv(Run(s, steps))
    ensures p < |Run(s, steps).callers| && Run(s, steps).callers[p] == s.callers[p]
    ensures s.callers[p].id in Run(s, steps).invites
    ensures Run(s, steps).invites[s.callers[p].id] == s.invites[s.callers[p].id]
    decreases |steps|
  {
    if steps != [] {
      HeldRowIsFrozen(s, p, steps[0]);
      StepKeepsInv(s, steps[0]);
      HeldRowStaysFrozen(Next(s, steps[0]), p, steps[1..]);
    }
  }

  /**
   A name taken between the check and the insert costs nothing: after the
   give-back the row is what it was before the claim, whatever others did meanwhile.
   */
  lemma CollisionGivesTheCodeBack(s: State, p: nat, now: Time, before: seq<Step>, after: seq<Step>)
    requires Inv(s) && p < |s.callers| && s.callers[p].Ready? && now <= s.clock
    requires Claimable(s.invites, s.callers[p].id, now)
    requires forall k :: 0 <= k < |before| && OfCaller(before[k]) ==> before[k].p != p
    requires forall k :: 0 <= k < |after| && OfCaller(after[k]) ==> after[k].p != p
    requires s.callers[p].name in Run(Next(s, Claim(p, now)), before).users
    ensures var held := Run(Next(s, Claim(p, now)), before);
            var id := s.callers[p].id;
            var done := Next(Run(Next(held, Insert(p)), after), GiveBack(p));
            && id in done.invites && done.invites[id] == s.invites[id]
            && p < |done.callers| && done.callers[p] == Refused(NameTaken)
  {
    var claimed := Next(s, Claim(p, now));
    StepKeepsInv(s, Claim(p, now));
    HeldRowStaysFrozen(claimed, p, before);
    var held := Run(claimed, before);
    StepKeepsInv(held, Insert(p));
    HeldRowStaysFrozen(Next(held, Insert(p)), p, after);
  }

  /** A used invitation has its account, or a caller still between its claim and its end. */
  ghost predicate Owned(s: State, id: InviteId)
  {
    || (exists p :: 0 <= p < |s.callers| && Holds(s.callers[p], id))
    || (exists k :: 0 <= k < |s.provisioned| && s.provisioned[k].invite == id)
  }

  ghost predicate UsedAreOwned(s: State)
  {
    forall id :: id in s.invites && s.invites[id].usedAt.Some? ==> Owned(s, id)
  }

  lemma HolderStillOwns(s: State, step: Step, id: InviteId, p: nat)
    requires Inv(s) && p < |s.callers| && Holds(s.callers[p], id)
    ensures Owned(Next(s, step), id) || (id in Next(s, step).invites && Next(s, step).invites[id].usedAt.None?)
  {
    var now, c := Next(s, step), s.callers[p];
    if !(OfCaller(step) && step.p == p) {
      assert now.callers[p] == c;
    } else if step.Insert? && c.Claimed? && c.name !in s.users {
      assert now.provisioned[|s.provisioned|].invite == id;
    } else if !(step.GiveBack? && c.Collided?) {
      assert Holds(now.callers[p], id);
    }
  }

  lemma StillOwned(s: State, step: Step, id: InviteId)
    requires Inv(s) && Owned(s, id)
    ensures Owned(Next(s, step), id) || (id in Next(s, step).invites && Next(s, step).invites[id].usedAt.None?)
  {
    if p :| 0 <= p < |s.callers| && Holds(s.callers[p], id) {
      HolderStillOwns(s, step, id, p);
    } else {
      var k :| 0 <= k < |s.provisioned| && s.provisioned[k].invite == id;
      assert s.provisioned <= Next(s, step).provisioned;
      assert Next(s, step).provisioned[k] == s.provisioned[k];
    }
  }

  lemma StepKeepsOwned(s: State, step: Step)
    requires Inv(s) && UsedAreOwned(s)
    ensures UsedAreOwned(Next(s, step))
  {
    var now := Next(s, step);
    forall id | id in now.invites && now.invites[id].usedAt.Some?
      ensures Owned(now, id)
    {
      if id in s.invites && s.invites[id].usedAt.Some? {
        StillOwned(s, step, id);
      } else {
        assert step.Claim? && Holds(now.callers[step.p], id);
      }
    }
  }

  lemma {:induction false} RunKeepsOwned(s: State, steps: seq<Step>)
    requires Inv(s) && UsedAreOwned(s)
    ensures UsedAreOwned(Run(s, steps))
    decreases |steps|
  {
    if steps != [] {
      StepKeepsInv(s, steps[0]);
      StepKeepsOwned(s, steps[0]);
      RunKeepsOwned(Next(s, steps[0]), steps[1..]);
    }
  }

  /** Once no call is in the middle, a code reads as used exactly when an account came of it. */
  lemma UsedIffProvisioned(users: map<Name, Account>, steps: seq<Step>, id: InviteId)
    requires id in Run(Init(users), steps).invites
    requires forall p :: 0 <= p < |Run(Init(users), steps).callers| ==> !Holds(Run(Init(users), steps).callers[p], id)
    ensures var s := Run(Init(users), steps);
            s.invites[id].usedAt.Some? <==> exists k :: 0 <= k < |s.provisioned| && s.provisioned[k].invite == id
  {
    RunKeepsInv(Init(users), steps);
    RunKeepsOwned(Init(users), steps);
  }

  // --- the service ---------------------------------------------------------

  class AccountTables {
    var invites: map<InviteId, Invite>
    var users: map<Name, Account>

    method GetInviteByHash(hash: string) returns (found: Option<InviteId>)
      ensures Matches(invites, hash, found)
    {
      if id :| id in invites && invites[id].codeHash == hash {
        return Some(id);
      }
      return None;
    }

    method ClaimInviteRow(id: InviteId, usedBy: Name, now: Time) returns (claimed: bool)
      modifies this`invites
      ensures invites == ClaimInvite(old(invites), id, usedBy, now)
      ensures claimed <==> Claimable(old(invites), id, now)
    {
      claimed := id in invites && invites[id].usedAt.None? && invites[id].revokedAt.None? && now < invites[id].expiresAt;
      if claimed {
        invites := invites[id := invites[id].(usedAt := Some(now), usedBy := Some(usedBy))];
      }
    }

    method RevokeInviteRow(id: InviteId, now: Time) returns (revoked: bool)
      modifies this`invites
      ensures invites == RevokeInvite(old(invites), id, now)
      ensures revoked <==> Revocable(old(invites), id)
    {
      revoked := id in invites && invites[id].usedAt.None? && invites[id].revokedAt.None?;
      if revoked {
        invites := invites[id := invites[id].(revokedAt := Some(now))];
      }
    }

    /** The username is unique in the table. */
    method InsertUser(name: Name, account: Account) returns (inserted: bool)
      modifies this`users
      ensures inserted <==> name !in old(users)
      ensures users == if inserted then old(users)[name := account] else old(users)
    {
      inserted := name !in users;
      if inserted {
        users := users[name := account];
      }
    }

    method ReturnInvite(id: InviteId)
      modifies this`invites
      ensures invites == GiveInviteBack(old(invites), id)
    {
      if id in invites {
        invites := invites[id := invites[id].(usedAt := None, usedBy := None)];
      }
    }

    /**
     `accept_invite` with, at most, one other request's account written between
     its name check and its claim. It creates the account the row grants, or
     leaves the tables as that other request left them.
     */
    method AcceptInvite(hash: string, name: Name, now: Time, meanwhile: Option<(Name, Account)>)
        returns (outcome: Result<Account, Refusal>)
      requires RowsAreSound(invites)
      modifies this
      ensures RowsAreSound(invites)
      ensures var reached := name !in old(users) && (outcome.Ok? || outcome.error == NameTaken);
              var others := if reached && meanwhile.Some? && meanwhile.value.0 !in old(users)
                            then old(users)[meanwhile.value.0 := meanwhile.value.1] else old(users);
              match outcome
              case Ok(account) =>
                && name !in others && users == others[name := account]
                && exists id :: && Matches(old(invites), hash, Some(id))
                                && StatusOf(old(invites)[id], now) == Open
                                && account == Granted(old(invites)[id])
                                && invites == ClaimInvite(old(invites), id, name, now)
              case Err(why) =>
                && users == others && invites == old(invites)
                && (why == UnknownCode <==> Matches(old(invites), hash, None))
                && (why == NameTaken ==> name in others)
                && (why.NotOpen? ==> why.status != Open)
                && why != ClaimedConcurrently
    {
      var found := GetInviteByHash(hash);
      if found.None? {
        return Err(UnknownCode);
      }
      var id := found.value;
      var record := invites[id];
      var status := StatusOf(record, now);
      if status != Open {
        return Err(NotOpen(status));
      }
      if name in users {
        return Err(NameTaken);
      }
      if meanwhile.Some? {
        var _ := InsertUser(meanwhile.value.0, meanwhile.value.1);
      }
      var claimed := ClaimInviteRow(id, name, now);
      if !claimed {
        return Err(ClaimedConcurrently);
      }
      var inserted := InsertUser(name, Granted(record));
      if !inserted {
        ReturnInvite(id);
        assert invites[id] == old(invites)[id];
        return Err(NameTaken);
      }
      return Ok(Granted(record));
    }
  }
}
