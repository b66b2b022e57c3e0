/**
 What each statement on reset codes changes, row by row, and when a code left to
 one caller sets a password (backend/core/accounts.py, backend/core/database.py).
 */
module PasswordResetsRedeeming {
  import opened Wrappers
  import opened PasswordResets

  /** Unused, not revoked, and not yet lapsed. */
  predicate Live(r: Reset, now: Time)
  {
    r.usedAt == None && r.revokedAt == None && now < r.expiresAt
  }

  /** A new code retires the open codes of its own account, now; the rows of every other account, and closed ones, stay as they were. */
  lemma IssuingChanges(resets: Table, id: ResetId, userId: UserId, hash: string, expiresAt: Time, now: Time, r: ResetId)
    requires id !in resets
    ensures var after := Issued(resets, id, userId, hash, expiresAt, now);
            && (r in after <==> r in resets || r == id)
            && after[id] == Reset(userId, hash, expiresAt, None, None)
            && (r in resets ==>
                  after[r] == if resets[r].userId == userId && resets[r].usedAt == None && resets[r].revokedAt == None
                              then resets[r].(revokedAt := Some(now)) else resets[r])
  {
  }

  /** A claim marks one live row used, now, and changes no other; it fails exactly where the row is not live. */
  lemma ClaimingChanges(resets: Table, id: ResetId, now: Time, r: ResetId)
    ensures var after := Spent(resets, id, now);
            && (r in after <==> r in resets)
            && (r in resets ==> after[r] == if r == id && Live(resets[r], now) then resets[r].(usedAt := Some(now)) else resets[r])
            && (Claimable(resets, id, now) <==> id in resets && Live(resets[id], now))
  {
  }

  /** Codes are issued under an identifier and a hash not used before; accounts are switched on and off one at a time; time passes. */
  lemma OtherSteps(s: State, step: Step)
    ensures step.Issue? ==>
              Next(s, step) ==
              if step.id in s.resets || exists r :: r in s.resets && s.resets[r].codeHash == step.hash then s
              else s.(resets := Issued(s.resets, step.id, step.userId, step.hash, step.expiresAt, s.clock))
    ensures step.Arrive? ==> Next(s, step) == s.(callers := s.callers + [Asking(step.hash)])
    ensures step.Activate? ==> Next(s, step) == s.(active := s.active + {step.userId})
    ensures step.Deactivate? ==> Next(s, step) == s.(active := s.active - {step.userId})
    ensures step.Tick? ==> Next(s, step) == s.(clock := s.clock + 1)
  {
    if step.Issue? {
      assert HashInUse(s.resets, step.hash) <==> exists r :: r in s.resets && s.resets[r].codeHash == step.hash;
    }
  }

  /** The statements of one call, with nobody in between. */
  function Redeeming(p: nat, id: ResetId, now: Time): seq<Step>
  {
    [Look(p, Some(id)), Check(p, now), Claim(p, now), SetPassword(p)]
  }

  lemma RunOne(s: State, step: Step, rest: seq<Step>)
    ensures Run(s, [step] + rest) == Run(Next(s, step), rest)
  {
    assert ([step] + rest)[1..] == rest;
  }

  lemma RunFour(s: State, a: Step, b: Step, c: Step, d: Step)
    ensures Run(s, [a, b, c, d]) == Next(Next(Next(Next(s, a), b), c), d)
  {
    assert [a, b, c, d] == [a] + ([b] + ([c] + ([d] + [])));
    RunOne(s, a, [b] + ([c] + ([d] + [])));
    RunOne(Next(s, a), b, [c] + ([d] + []));
    RunOne(Next(Next(s, a), b), c, [d] + []);
    RunOne(Next(Next(Next(s, a), b), c), d, []);
  }

  /** A caller alone with a code sets its account's password exactly when the code is live and the account active; else nothing changes. */
  lemma RedeemsIff(s: State, p: nat, id: ResetId, now: Time)
    requires p < |s.callers| && id in s.resets && s.callers[p] == Asking(s.resets[id].codeHash) && now <= s.clock
    ensures var after, row := Run(s, Redeeming(p, id, now)), s.resets[id];
            if Live(row, now) && row.userId in s.active then
              after == s.(resets := s.resets[id := row.(usedAt := Some(now))], callers := s.callers[p := Done],
                          changes := s.changes + [Change(id, row.userId)])
            else after == s.(callers := s.callers[p := Refused])
  {
    RunFour(s, Look(p, Some(id)), Check(p, now), Claim(p, now), SetPassword(p));
    var row := s.resets[id];
    var found := Next(s, Look(p, Some(id)));
    assert found == s.(callers := s.callers[p := Found(id, row)]);
    var checked := Next(found, Check(p, now));
    if Live(row, now) && row.userId in s.active {
      assert checked == s.(callers := s.callers[p := Ready(id, row)]);
      var claimed := Next(checked, Claim(p, now));
      assert claimed == s.(resets := s.resets[id := row.(usedAt := Some(now))], callers := s.callers[p := Claimed(id, row)]);
    } else {
      assert checked == s.(callers := s.callers[p := Refused]);
    }
  }

  /** A code nobody was given is refused at the first look. */
  lemma UnknownIsRefused(s: State, p: nat, hash: string)
    requires p < |s.callers| && s.callers[p] == Asking(hash) && forall r :: r in s.resets ==> s.resets[r].codeHash != hash
    ensures Next(s, Look(p, None)) == s.(callers := s.callers[p := Refused])
    ensures forall id :: Next(s, Look(p, Some(id))) == s
  {
  }

  /** Of two callers past their checks with one code, whoever claims first sets the password and the other is refused. */
  lemma SecondClaimIsRefused(s: State, p: nat, q: nat, now: Time, later: Time)
    requires p < |s.callers| && q < |s.callers| && p != q && now <= s.clock && later <= s.clock
    requires s.callers[p].Ready? && s.callers[q].Ready? && s.callers[p].id == s.callers[q].id
    requires s.callers[p].id in s.resets && Live(s.resets[s.callers[p].id], now)
    ensures var after := Next(Next(s, Claim(p, now)), Claim(q, later));
            && after.callers[p] == Claimed(s.callers[p].id, s.callers[p].record) && after.callers[q] == Refused
            && after.resets[s.callers[p].id].usedAt == Some(now)
  {
  }
}
