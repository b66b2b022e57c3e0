/**
 Password reset codes: one open code per account, each good for one new password
 (backend/core/accounts.py over backend/core/database.py). One step is one
 transaction; between two of one caller anyone else may act.
 */
module PasswordResets {
  import opened Wrappers

  type ResetId = string
  type UserId = string
  type Time = nat

  /** A row of `password_resets`. */
  datatype Reset = Reset(
    userId: UserId, codeHash: string, expiresAt: Time, usedAt: Option<Time>, revokedAt: Option<Time>)

  type Table = map<ResetId, Reset>

  /** Where one call of `accept_password_reset` stands. */
  datatype Caller =
    | Asking(hash: string)
    | Found(id: ResetId, record: Reset)
    | Ready(id: ResetId, record: Reset)
    | Claimed(id: ResetId, record: Reset)
    | Done
    | Refused

  /** A password set with a code. */
  datatype Change = Change(reset: ResetId, userId: UserId)

  datatype State = State(resets: Table, active: set<UserId>, callers: seq<Caller>, changes: seq<Change>, clock: Time)

  datatype Step =
    | Issue(id: ResetId, userId: UserId, hash: string, expiresAt: Time)
    | Arrive(hash: string)
    | Look(p: nat, found: Option<ResetId>)
    | Check(p: nat, now: Time)
    | Claim(p: nat, now: Time)
    | SetPassword(p: nat)
    | Activate(userId: UserId)
    | Deactivate(userId: UserId)
    | Tick

  predicate IsOpen(r: Reset)
  {
    r.usedAt.None? && r.revokedAt.None?
  }

  /** Every open row of the account is revoked. */
  function Retired(resets: Table, userId: UserId, now: Time): Table
  {
    map id | id in resets ::
      if resets[id].userId == userId && IsOpen(resets[id]) then resets[id].(revokedAt := Some(now)) else resets[id]
  }

  predicate HashInUse(resets: Table, hash: string)
  {
    exists id :: id in resets && resets[id].codeHash == hash
  }

  /** `insert_password_reset`: earlier open codes are retired, then the new one is written. */
  function Issued(resets: Table, id: ResetId, userId: UserId, hash: string, expiresAt: Time, now: Time): Table
  {
    Retired(resets, userId, now)[id := Reset(userId, hash, expiresAt, None, None)]
  }

  /** The rows `claim_password_reset` matches. */
  predicate Claimable(resets: Table, id: ResetId, now: Time)
  {
    id in resets && IsOpen(resets[id]) && resets[id].expiresAt > now
  }

  function Spent(resets: Table, id: ResetId, now: Time): Table
  {
    if Claimable(resets, id, now) then resets[id := resets[id].(usedAt := Some(now))] else resets
  }

  ghost predicate Matches(resets: Table, hash: string, found: Option<ResetId>)
  {
    match found
    case Some(id) => id in resets && resets[id].codeHash == hash
    case None => forall id :: id in resets ==> resets[id].codeHash != hash
  }

  ghost function Move(s: State, p: nat, to: Caller): State
    requires p < |s.callers|
  {
    s.(callers := s.callers[p := to])
  }

  ghost predicate OfCaller(step: Step)
  {
    step.Look? || step.Check? || step.Claim? || step.SetPassword?
  }

  ghost function NextCaller(s: State, step: Step): State
    requires OfCaller(step) && step.p < |s.callers|
  {
    var c := s.callers[step.p];
    match step
    case Look(p, found) =>
      if !(c.Asking? && Matches(s.resets, c.hash, found)) then s
      else if found.None? then Move(s, p, Refused)
      else Move(s, p, Found(found.value, s.resets[found.value]))
    case Check(p, now) =>
      if !(c.Found? && now <= s.clock) then s
      else if IsOpen(c.record) && c.record.expiresAt > now && c.record.userId in s.active then Move(s, p, Ready(c.id, c.record))
      else Move(s, p, Refused)
    case Claim(p, now) =>
      if !(c.Ready? && now <= s.clock) then s
      else if !Claimable(s.resets, c.id, now) then Move(s, p, Refused)
      else Move(s, p, Claimed(c.id, c.record)).(resets := Spent(s.resets, c.id, now))
    case SetPassword(p) =>
      if !c.Claimed? then s
      else Move(s, p, Done).(changes := s.changes + [Change(c.id, c.record.userId)])
  }

  /** One step; a step that cannot be taken now changes nothing. */
  ghost function Next(s: State, step: Step): State
  {
    match step
    case Issue(id, userId, hash, expiresAt) =>
      if id in s.resets || HashInUse(s.resets, hash) then s
      else s.(resets := Issued(s.resets, id, userId, hash, expiresAt, s.clock))
    case Arrive(hash) => s.(callers := s.callers + [Asking(hash)])
    case Activate(userId) => s.(active := s.active + {userId})
    case Deactivate(userId) => s.(active := s.active - {userId})
    case Tick => s.(clock := s.clock + 1)
    case _ => if step.p < |s.callers| then NextCaller(s, step) else s
  }

  ghost function Run(s: State, steps: seq<Step>): State
    decreases |steps|
  {
    if steps == [] then s else Run(Next(s, steps[0]), steps[1..])
  }

  ghost function Init(active: set<UserId>): State
  {
    State(map[], active, [], [], 0)
  }

  // --- the invariant -------------------------------------------------------

  predicate HasRecord(c: Caller)
  {
    c.Found? || c.Ready? || c.Claimed?
  }

  ghost predicate OneOpen(resets: Table)
  {
    forall i, j :: i in resets && j in resets && i != j ==>
      IsOpen(resets[i]) && IsOpen(resets[j]) ==> resets[i].userId != resets[j].userId
  }

  ghost predicate RowsAreSound(resets: Table)
  {
    forall id :: id in resets && resets[id].usedAt.Some? ==>
      resets[id].revokedAt.None? && resets[id].usedAt.value < resets[id].expiresAt
  }

  ghost predicate CallersAreSound(resets: Table, callers: seq<Caller>)
  {
    && (forall p :: 0 <= p < |callers| && HasRecord(callers[p]) ==>
          callers[p].id in resets && resets[callers[p].id].userId == callers[p].record.userId)
    && (forall p :: 0 <= p < |callers| && callers[p].Claimed? ==> resets[callers[p].id].usedAt.Some?)
    && (forall p, q :: 0 <= p < q < |callers| && callers[p].Claimed? && callers[q].Claimed? ==> callers[p].id != callers[q].id)
  }

  ghost predicate ChangesAreSound(resets: Table, callers: seq<Caller>, changes: seq<Change>)
  {
    && (forall k :: 0 <= k < |changes| ==>
          && changes[k].reset in resets && resets[changes[k].reset].usedAt.Some?
          && resets[changes[k].reset].userId == changes[k].userId)
    && (forall k, l :: 0 <= k < l < |changes| ==> changes[k].reset != changes[l].reset)
    && (forall k, p :: 0 <= k < |changes| && 0 <= p < |callers| && callers[p].Claimed? ==> callers[p].id != changes[k].reset)
  }

  ghost predicate Inv(s: State)
  {
    && OneOpen(s.resets) && RowsAreSound(s.resets)
    && CallersAreSound(s.resets, s.callers)
    && ChangesAreSound(s.resets, s.callers, s.changes)
  }

  /** Rows that keep their account and their use keep whoever relies on them. */
  lemma KeptRowsKeepCallers(resets: Table, again: Table, callers: seq<Caller>, changes: seq<Change>)
    requires CallersAreSound(resets, callers) && ChangesAreSound(resets, callers, changes)
    requires forall id :: id in resets ==>
               id in again && again[id].userId == resets[id].userId && again[id].usedAt == resets[id].usedAt
    ensures CallersAreSound(again, callers) && ChangesAreSound(again, callers, changes)
  {
  }

  lemma IssuingKeepsTable(resets: Table, id: ResetId, userId: UserId, hash: string, expiresAt: Time, now: Time)
    requires OneOpen(resets) && RowsAreSound(resets) && id !in resets
    ensures var again := Issued(resets, id, userId, hash, expiresAt, now);
            && OneOpen(again) && RowsAreSound(again)
            && forall r :: r in resets ==>
                 r in again && again[r].userId == resets[r].userId && again[r].usedAt == resets[r].usedAt
  {
    var retired := Retired(resets, userId, now);
    assert forall r :: r in resets && IsOpen(retired[r]) ==> IsOpen(resets[r]) && retired[r].userId != userId;
  }

  lemma IssueKeepsInv(s: State, step: Step)
    requires Inv(s) && step.Issue?
    ensures Inv(Next(s, step))
  {
    var now := Next(s, step);
    if now != s {
      IssuingKeepsTable(s.resets, step.id, step.userId, step.hash, step.expiresAt, s.clock);
      KeptRowsKeepCallers(s.resets, now.resets, s.callers, s.changes);
    }
  }

  lemma ClaimKeepsInv(s: State, p: nat, now: Time)
    requires Inv(s) && p < |s.callers|
    ensures Inv(Next(s, Claim(p, now)))
  {
  }

  /** A caller may let go of a code, or read on without one, and nothing else is affected. */
  lemma LettingGoKeepsSound(resets: Table, callers: seq<Caller>, changes: seq<Change>, p: nat, to: Caller)
    requires CallersAreSound(resets, callers) && ChangesAreSound(resets, callers, changes) && p < |callers|
    requires !to.Claimed?
    requires HasRecord(to) ==> to.id in resets && resets[to.id].userId == to.record.userId
    ensures CallersAreSound(resets, callers[p := to]) && ChangesAreSound(resets, callers[p := to], changes)
  {
  }

  lemma MoveKeepsInv(s: State, step: Step)
    requires Inv(s) && (step.Look? || step.Check? || step.SetPassword?) && step.p < |s.callers|
    ensures Inv(Next(s, step))
  {
    var now, c := Next(s, step), s.callers[step.p];
    if now != s {
      LettingGoKeepsSound(s.resets, s.callers, s.changes, step.p, now.callers[step.p]);
      if step.SetPassword? {
        assert forall q :: 0 <= q < |s.callers| && q != step.p && s.callers[q].Claimed? ==> s.callers[q].id != c.id;
      }
    }
  }

  lemma StepKeepsInv(s: State, step: Step)
    requires Inv(s)
    ensures Inv(Next(s, step))
  {
    match step
    case Issue(_, _, _, _) => IssueKeepsInv(s, step);
    case Claim(p, now) => if p < |s.callers| { ClaimKeepsInv(s, p, now); }
    case Look(p, _) => if p < |s.callers| { MoveKeepsInv(s, step); }
    case Check(p, _) => if p < |s.callers| { MoveKeepsInv(s, step); }
    case SetPassword(p) => if p < |s.callers| { MoveKeepsInv(s, step); }
    case Arrive(_) =>
    case Activate(_) =>
    case Deactivate(_) =>
    case Tick =>
  }

  lemma StepKeepsRevoked(s: State, step: Step, id: ResetId)
    requires Inv(s) && id in s.resets && s.resets[id].revokedAt.Some?
    ensures id in Next(s, step).resets && Next(s, step).resets[id] == s.resets[id]
  {
  }

  lemma {:induction false} RunKeepsInv(s: State, steps: seq<Step>)
    requires Inv(s)
    ensures Inv(Run(s, steps))
    ensures forall id :: id in s.resets && s.resets[id].revokedAt.Some? ==>
              id in Run(s, steps).resets && Run(s, steps).resets[id] == s.resets[id]
    decreases |steps|
  {
    if steps != [] {
      StepKeepsInv(s, steps[0]);
      forall id | id in s.resets && s.resets[id].revokedAt.Some?
        ensures id in Next(s, steps[0]).resets && Next(s, steps[0]).resets[id] == s.resets[id]
      {
        StepKeepsRevoked(s, steps[0], id);
      }
      RunKeepsInv(Next(s, steps[0]), steps[1..]);
    }
  }

  // --- what every run guarantees -------------------------------------------

  /**
   At every moment of every interleaving an account has at most one open code, and every password set
   with a code was set once, for the account the code names, with a claim made before the code lapsed.
   */
  lemma OneCodeOnePassword(active: set<UserId>, steps: seq<Step>)
    ensures var s := Run(Init(active), steps);
            && OneOpen(s.resets)
            && forall k :: 0 <= k < |s.changes| ==>
                 var id := s.changes[k].reset;
                 && id in s.resets && s.resets[id].userId == s.changes[k].userId
                 && s.resets[id].revokedAt.None? && s.resets[id].usedAt.Some?
                 && s.resets[id].usedAt.value < s.resets[id].expiresAt
                 && forall l :: 0 <= l < |s.changes| && s.changes[l].reset == id ==> l == k
  {
    RunKeepsInv(Init(active), steps);
  }

  /** A code still open when a newer one is issued for its account never sets a password, however far a caller had got with it. */
  lemma NewerCodeRetiresOlder(s: State, id: ResetId, newer: Step, steps: seq<Step>)
    requires Inv(s) && id in s.resets && IsOpen(s.resets[id])
    requires newer.Issue? && newer.userId == s.resets[id].userId && Next(s, newer) != s
    ensures var after := Run(Next(s, newer), steps);
            && (forall k :: 0 <= k < |after.changes| ==> after.changes[k].reset != id)
            && (forall p :: 0 <= p < |after.callers| && after.callers[p].Claimed? ==> after.callers[p].id != id)
  {
    StepKeepsInv(s, newer);
    RunKeepsInv(Next(s, newer), steps);
  }

  // --- the table -----------------------------------------------------------

  class ResetTable {
    var resets: Table

    /** Both statements of `insert_password_reset`; its columns are unique. */
    method InsertPasswordReset(id: ResetId, userId: UserId, hash: string, expiresAt: Time, now: Time)
      requires id !in resets && !HashInUse(resets, hash)
      modifies this
      ensures resets == Issued(old(resets), id, userId, hash, expiresAt, now)
    {
      var rest := resets.Keys;
      while rest != {}
        invariant rest <= old(resets).Keys && resets.Keys == old(resets).Keys
        invariant forall r :: r in rest ==> resets[r] == old(resets)[r]
        invariant forall r :: r in resets && r !in rest ==> resets[r] == Retired(old(resets), userId, now)[r]
      {
        var r :| r in rest;
        rest := rest - {r};
        if resets[r].userId == userId && IsOpen(resets[r]) {
          resets := resets[r := resets[r].(revokedAt := Some(now))];
        }
      }
      assert resets == Retired(old(resets), userId, now);
      resets := resets[id := Reset(userId, hash, expiresAt, None, None)];
    }

    method ClaimPasswordReset(id: ResetId, now: Time) returns (claimed: bool)
      modifies this
      ensures resets == Spent(old(resets), id, now)
      ensures claimed <==> Claimable(old(resets), id, now)
    {
      claimed := id in resets && resets[id].usedAt.None? && resets[id].revokedAt.None? && now < resets[id].expiresAt;
      if claimed {
        resets := resets[id := resets[id].(usedAt := Some(now))];
      }
    }
  }
}
