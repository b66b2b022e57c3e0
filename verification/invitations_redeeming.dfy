/**
 What each statement on invitations changes, row by row, and when a code left to
 one caller creates an account (backend/core/accounts.py, backend/core/database.py).
 */
module InvitationsRedeeming {
  import opened Wrappers
  import opened Invitations

  type Table = map<InviteId, Invite>

  predicate Live(i: Invite, now: Time)
  {
    i.usedAt == None && i.revokedAt == None && now < i.expiresAt
  }

  /** What a person is told of a code: revoked before used, used before expired. */
  lemma StatusIs(i: Invite, now: Time)
    ensures StatusOf(i, now) == Open <==> Live(i, now)
    ensures StatusOf(i, now) == Revoked <==> i.revokedAt.Some?
    ensures StatusOf(i, now) == Used <==> i.revokedAt == None && i.usedAt.Some?
    ensures StatusOf(i, now) == Expired <==> i.revokedAt == None && i.usedAt == None && i.expiresAt <= now
  {
  }

  /** A claim marks one live row with the name and the time, and changes no other. */
  lemma ClaimingChanges(invites: Table, id: InviteId, name: Name, now: Time, r: InviteId)
    ensures var after := ClaimInvite(invites, id, name, now);
            && (r in after <==> r in invites)
            && (r in invites ==>
                  after[r] == if r == id && Live(invites[r], now) then invites[r].(usedAt := Some(now), usedBy := Some(name)) else invites[r])
            && (Claimable(invites, id, now) <==> id in invites && Live(invites[id], now))
  {
  }

  /** A revocation dates one row that is neither used nor revoked, lapsed or not, and changes no other. */
  lemma RevokingChanges(invites: Table, id: InviteId, now: Time, r: InviteId)
    ensures var after := RevokeInvite(invites, id, now);
            && (r in after <==> r in invites)
            && (r in invites ==>
                  after[r] == if r == id && invites[r].usedAt == None && invites[r].revokedAt == None
                              then invites[r].(revokedAt := Some(now)) else invites[r])
            && (Revocable(invites, id) <==> id in invites && invites[id].usedAt == None && invites[id].revokedAt == None)
  {
  }

  /** A give-back clears who used one row and when, and changes no other. */
  lemma GivingBackChanges(invites: Table, id: InviteId, r: InviteId)
    ensures var after := GiveInviteBack(invites, id);
            && (r in after <==> r in invites)
            && (r in invites ==> after[r] == if r == id then invites[r].(usedAt := None, usedBy := None) else invites[r])
  {
  }

  /** Invitations are issued open, under an identifier and a hash not used before; accounts come and go by name; time passes. */
  lemma OtherSteps(s: State, step: Step)
    ensures step.Issue? ==>
              Next(s, step) ==
              if step.id in s.invites || exists r :: r in s.invites && s.invites[r].codeHash == step.invite.codeHash then s
              else s.(invites := s.invites[step.id := step.invite.(usedAt := None, usedBy := None, revokedAt := None)])
    ensures step.Revoke? ==> Next(s, step) == s.(invites := RevokeInvite(s.invites, step.id, s.clock))
    ensures step.Arrive? ==> Next(s, step) == s.(callers := s.callers + [Asking(step.hash, step.name)])
    ensures step.OtherAccount? ==>
              Next(s, step) == if step.name in s.users then s else s.(users := s.users[step.name := step.account])
    ensures step.RemoveAccount? ==> Next(s, step) == s.(users := s.users - {step.name})
    ensures step.Tick? ==> Next(s, step) == s.(clock := s.clock + 1)
  {
  }

  /** The statements of one call, with nobody in between. */
  function Redeeming(p: nat, id: InviteId, now: Time): seq<Step>
  {
    [Look(p, Some(id)), Check(p, now), Claim(p, now), Insert(p)]
  }

  lemma RunOne(s: State, step: Step, rest: seq<Step>)
    ensures Run(s, [step] + rest) == Run(Next(s, step), rest)
  {
    assert ([step] + rest)[1..] == rest;
  }

  lemma RunFour(s: State, a: Step, b: Step, c: Step, d: Step)
    ensures Run(s, [a, b, c, d]) == Next(Next(Next(Next(s, a), b), c), d)
  {
    assert [a, b, c, d] == [a] + ([b] + ([c] + ([d] + [])));
    RunOne(s, a, [b] + ([c] + ([d] + [])));
    RunOne(Next(s, a), b, [c] + ([d] + []));
    RunOne(Next(Next(s, a), b), c, [d] + []);
    RunOne(Next(Next(Next(s, a), b), c), d, []);
  }

  /**
   A caller alone with a code gets the account it grants, and the code is used in that name, exactly when the code is
   live and the name free; otherwise nothing changes and the caller is told why.
   */
  lemma RedeemsIff(s: State, p: nat, id: InviteId, name: Name, now: Time)
    requires p < |s.callers| && id in s.invites && s.callers[p] == Asking(s.invites[id].codeHash, name) && now <= s.clock
    ensures var after, row := Run(s, Redeeming(p, id, now)), s.invites[id];
            var account := Account(row.role, row.department);
            if !Live(row, now) then after == s.(callers := s.callers[p := Refused(NotOpen(StatusOf(row, now)))])
            else if name in s.users then after == s.(callers := s.callers[p := Refused(NameTaken)])
            else after == s.(invites := s.invites[id := row.(usedAt := Some(now), usedBy := Some(name))],
                             users := s.users[name := account], callers := s.callers[p := Done],
                             provisioned := s.provisioned + [Provision(id, name, account)])
  {
    RunFour(s, Look(p, Some(id)), Check(p, now), Claim(p, now), Insert(p));
    LookingAndChecking(s, p, id, name, now);
    var checked := Next(Next(s, Look(p, Some(id))), Check(p, now));
    if Live(s.invites[id], now) && name !in s.users {
      ClaimingAndInserting(checked, p, id, name, now);
    } else {
      RefusedStaysRefused(checked, p, now);
    }
  }

  lemma LookingAndChecking(s: State, p: nat, id: InviteId, name: Name, now: Time)
    requires p < |s.callers| && id in s.invites && s.callers[p] == Asking(s.invites[id].codeHash, name) && now <= s.clock
    ensures Next(Next(s, Look(p, Some(id))), Check(p, now)) ==
            s.(callers := s.callers[p :=
              if !Live(s.invites[id], now) then Refused(NotOpen(StatusOf(s.invites[id], now)))
              else if name in s.users then Refused(NameTaken)
              else Ready(name, id, s.invites[id])])
  {
    StatusIs(s.invites[id], now);
    var found := Next(s, Look(p, Some(id)));
    assert found == s.(callers := s.callers[p := Found(name, id, s.invites[id])]);
  }

  lemma ClaimingAndInserting(s: State, p: nat, id: InviteId, name: Name, now: Time)
    requires p < |s.callers| && id in s.invites && s.callers[p] == Ready(name, id, s.invites[id]) && now <= s.clock
    requires Live(s.invites[id], now) && name !in s.users
    ensures var row := s.invites[id];
            var account := Account(row.role, row.department);
            Next(Next(s, Claim(p, now)), Insert(p)) ==
            s.(invites := s.invites[id := row.(usedAt := Some(now), usedBy := Some(name))],
               users := s.users[name := account], callers := s.callers[p := Done],
               provisioned := s.provisioned + [Provision(id, name, account)])
  {
    var row := s.invites[id];
    var claimed := Next(s, Claim(p, now));
    assert claimed == s.(invites := s.invites[id := row.(usedAt := Some(now), usedBy := Some(name))],
                         callers := s.callers[p := Claimed(name, id, row)]);
  }

  lemma RefusedStaysRefused(s: State, p: nat, now: Time)
    requires p < |s.callers| && s.callers[p].Refused?
    ensures Next(Next(s, Claim(p, now)), Insert(p)) == s
  {
  }

  /** A code nobody was given is refused at the first look. */
  lemma UnknownIsRefused(s: State, p: nat, hash: string, name: Name)
    requires p < |s.callers| && s.callers[p] == Asking(hash, name) && forall r :: r in s.invites ==> s.invites[r].codeHash != hash
    ensures Next(s, Look(p, None)) == s.(callers := s.callers[p := Refused(UnknownCode)])
    ensures forall id :: Next(s, Look(p, Some(id))) == s
  {
  }

  /** Of two callers past their checks with one code, whoever claims first holds it and the other is refused. */
  lemma SecondClaimIsRefused(s: State, p: nat, q: nat, now: Time, later: Time)
    requires p < |s.callers| && q < |s.callers| && p != q && now <= s.clock && later <= s.clock
    requires s.callers[p].Ready? && s.callers[q].Ready? && s.callers[p].id == s.callers[q].id
    requires s.callers[p].id in s.invites && Live(s.invites[s.callers[p].id], now)
    ensures var after := Next(Next(s, Claim(p, now)), Claim(q, later));
            && after.callers[p] == Claimed(s.callers[p].name, s.callers[p].id, s.callers[p].record)
            && after.callers[q] == Refused(ClaimedConcurrently)
            && after.invites[s.callers[p].id].usedBy == Some(s.callers[p].name)
  {
  }

  /** A claim too late for a name is given back: the caller that finds its name taken frees the code for the next. */
  lemma GivenBackMayBeClaimed(s: State, p: nat, now: Time)
    requires Inv(s) && p < |s.callers| && s.callers[p].Claimed? && s.callers[p].name in s.users
    ensures var c := s.callers[p];
            var after := Next(Next(s, Insert(p)), GiveBack(p));
            && after.users == s.users && after.provisioned == s.provisioned && after.callers[p] == Refused(NameTaken)
            && c.id in after.invites
            && (Claimable(after.invites, c.id, now) <==> now < s.invites[c.id].expiresAt)
  {
    assert Holds(s.callers[p], s.callers[p].id);
  }
}
