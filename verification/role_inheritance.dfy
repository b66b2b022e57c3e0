/**
 Role inheritance from policies/access-control.yaml: what a role may do and how
 sensitive the data it may see is, over `inherits` graphs that may be cyclic or
 name a role nobody defined (backend/core/config.py).
 */
module RoleInheritance {
  import opened Wrappers

  datatype Role = Role(permissions: set<string>, maxClassification: string, inherits: string)

  type Roles = map<string, Role>

  /** The role inherited from; an absent or empty `inherits` is the empty string. */
  function Parent(roles: Roles, name: string): string
  {
    if name != "" && name in roles then roles[name].inherits else ""
  }

  /** The role `n` steps up the chain, or the empty string once the chain has ended. */
  function Ancestor(roles: Roles, name: string, n: nat): string
  {
    if n == 0 then name else Parent(roles, Ancestor(roles, name, n - 1))
  }

  ghost predicate Reaches(roles: Roles, name: string, other: string)
  {
    other != "" && exists n: nat :: Ancestor(roles, name, n) == other
  }

  ghost predicate ChainDefined(roles: Roles, name: string)
  {
    forall other :: Reaches(roles, name, other) ==> other in roles
  }

  ghost function EffectivePermissions(roles: Roles, name: string): set<string>
  {
    set other, permission | other in roles && permission in roles[other].permissions && Reaches(roles, name, other) :: permission
  }

  /** Every role reached is in a set that holds the start and is closed under `inherits`. */
  lemma {:induction false} ClosedHoldsAncestors(roles: Roles, name: string, closed: set<string>, n: nat)
    requires name in closed || name == ""
    requires forall other :: other in closed ==> Parent(roles, other) in closed || Parent(roles, other) == ""
    ensures Ancestor(roles, name, n) in closed || Ancestor(roles, name, n) == ""
  {
    if n > 0 {
      ClosedHoldsAncestors(roles, name, closed, n - 1);
    }
  }

  lemma StepUp(roles: Roles, name: string, other: string)
    requires Reaches(roles, name, other)
    requires Parent(roles, other) != ""
    ensures Reaches(roles, name, Parent(roles, other))
  {
    var n: nat :| Ancestor(roles, name, n) == other;
    assert Ancestor(roles, name, n + 1) == Parent(roles, other);
  }

  /** `seen` is exactly what the walk can reach, once the walk has nowhere new to go. */
  lemma WalkComplete(roles: Roles, name: string, seen: set<string>, cursor: string)
    requires cursor in seen + {""}
    requires name in seen || name == ""
    requires forall other :: other in seen ==> other in roles && Reaches(roles, name, other)
    requires forall other :: other in seen ==> Parent(roles, other) in seen + {cursor}
    ensures forall other :: other in seen <==> Reaches(roles, name, other)
    ensures ChainDefined(roles, name)
    ensures EffectivePermissions(roles, name) == set other, permission | other in seen && permission in roles[other].permissions :: permission
  {
    forall other | Reaches(roles, name, other)
      ensures other in seen
    {
      var n: nat :| Ancestor(roles, name, n) == other;
      ClosedHoldsAncestors(roles, name, seen, n);
    }
    var collected := set other, permission | other in seen && permission in roles[other].permissions :: permission;
    forall permission
      ensures permission in EffectivePermissions(roles, name) <==> permission in collected
    {
    }
  }

  /** Terminates on every graph: a role is visited at most once. */
  method RolePermissions(roles: Roles, role: string) returns (result: Result<set<string>, string>)
    ensures result.Ok? <==> ChainDefined(roles, role)
    ensures result.Ok? ==> result.value == EffectivePermissions(roles, role)
    ensures result.Err? ==> Reaches(roles, role, result.error) && result.error !in roles
  {
    var seen: set<string> := {};
    var permissions: set<string> := {};
    var cursor := role;
    assert Ancestor(roles, role, 0) == role;
    while cursor != "" && cursor !in seen
      invariant role in seen + {cursor}
      invariant cursor != "" ==> Reaches(roles, role, cursor)
      invariant forall other :: other in seen ==> other in roles && Reaches(roles, role, other)
      invariant forall other :: other in seen ==> Parent(roles, other) in seen + {cursor}
      invariant permissions == set other, permission | other in seen && permission in roles[other].permissions :: permission
      decreases roles.Keys - seen
    {
      if cursor !in roles {
        return Err(cursor);
      }
      if Parent(roles, cursor) != "" {
        StepUp(roles, role, cursor);
      }
      seen := seen + {cursor};
      permissions := permissions + roles[cursor].permissions;
      cursor := roles[cursor].inherits;
    }
    WalkComplete(roles, role, seen, cursor);
    result := Ok(permissions);
  }

  // --- clearance -----------------------------------------------------------

  /** Every level named along the chain has a rank. */
  ghost predicate LevelsRanked(roles: Roles, ranks: map<string, int>, name: string)
  {
    forall other :: Reaches(roles, name, other) && other in roles && roles[other].maxClassification != "" ==>
                      roles[other].maxClassification in ranks
  }

  /** `bound` is at least the rank of every level the chain grants. */
  ghost predicate BoundsChain(roles: Roles, ranks: map<string, int>, name: string, bound: int)
  {
    forall other :: Reaches(roles, name, other) && other in roles && roles[other].maxClassification in ranks
                    && roles[other].maxClassification != "" ==>
                      ranks[roles[other].maxClassification] <= bound
  }

  ghost predicate GrantedOnChain(roles: Roles, name: string, level: string)
  {
    level != "" && exists other :: Reaches(roles, name, other) && other in roles && roles[other].maxClassification == level
  }

  /** The highest-ranked level on the chain, or the default when none ranks above -1. */
  ghost predicate IsClearance(roles: Roles, ranks: map<string, int>, name: string, level: string)
  {
    if level in ranks && ranks[level] > -1 && GrantedOnChain(roles, name, level)
    then BoundsChain(roles, ranks, name, ranks[level])
    else level == "normal" && BoundsChain(roles, ranks, name, -1)
  }

  method RoleMaxClassification(roles: Roles, ranks: map<string, int>, role: string) returns (result: Result<string, string>)
    ensures result.Ok? <==> ChainDefined(roles, role) && LevelsRanked(roles, ranks, role)
    ensures result.Ok? ==> IsClearance(roles, ranks, role, result.value)
  {
    var seen: set<string> := {};
    var cursor := role;
    var best, bestRank := "normal", -1;
    assert Ancestor(roles, role, 0) == role;
    while cursor != "" && cursor !in seen
      invariant role in seen + {cursor}
      invariant cursor != "" ==> Reaches(roles, role, cursor)
      invariant forall other :: other in seen ==> other in roles && Reaches(roles, role, other)
      invariant forall other :: other in seen ==> Parent(roles, other) in seen + {cursor}
      invariant forall other :: other in seen && roles[other].maxClassification != "" ==>
                  && roles[other].maxClassification in ranks
                  && ranks[roles[other].maxClassification] <= bestRank
      invariant if bestRank == -1 then best == "normal"
                else bestRank > -1 && best in ranks && ranks[best] == bestRank && GrantedOnChain(roles, role, best)
      decreases roles.Keys - seen
    {
      if cursor !in roles {
        return Err(cursor);
      }
      var candidate := roles[cursor].maxClassification;
      if candidate != "" {
        if candidate !in ranks {
          return Err(candidate);
        }
        if ranks[candidate] > bestRank {
          best, bestRank := candidate, ranks[candidate];
        }
      }
      if Parent(roles, cursor) != "" {
        StepUp(roles, role, cursor);
      }
      seen := seen + {cursor};
      cursor := roles[cursor].inherits;
    }
    WalkComplete(roles, role, seen, cursor);
    result := Ok(best);
  }

  // --- inheritance only adds -----------------------------------------------

  lemma {:induction false} ParentChain(roles: Roles, name: string, n: nat)
    ensures Ancestor(roles, Parent(roles, name), n) == Ancestor(roles, name, n + 1)
  {
    if n > 0 {
      ParentChain(roles, name, n - 1);
    }
  }

  /**
   No role on the parent's chain grants a level that ranks above -1, so the parent has the default, and the
   role itself grants one that ranks below it.
   */
  ghost predicate OwnLevelBelowDefault(roles: Roles, ranks: map<string, int>, name: string)
  {
    && name in roles && BoundsChain(roles, ranks, Parent(roles, name), -1)
    && var own := roles[name].maxClassification;
       own != "" && own in ranks && "normal" in ranks && -1 < ranks[own] < ranks["normal"]
  }

  lemma ChainIsOwnAndParents(roles: Roles, name: string, other: string)
    requires Parent(roles, name) != ""
    ensures Reaches(roles, name, other) <==> other == name || Reaches(roles, Parent(roles, name), other)
  {
    if Reaches(roles, name, other) && other != name {
      var n: nat :| Ancestor(roles, name, n) == other;
      ParentChain(roles, name, n - 1);
      assert Ancestor(roles, Parent(roles, name), n - 1) == other;
    }
    if Reaches(roles, Parent(roles, name), other) {
      var n: nat :| Ancestor(roles, Parent(roles, name), n) == other;
      ParentChain(roles, name, n);
      assert Ancestor(roles, name, n + 1) == other;
    }
    assert Ancestor(roles, name, 0) == name;
  }

  /**
   A role can do whatever its parent can. It sees data at least as sensitive except in exactly one case:
   the parent has only the default level and the role's own level ranks below that default.
   */
  lemma InheritanceOnlyAdds(roles: Roles, ranks: map<string, int>, name: string, level: string, parentLevel: string)
    requires Parent(roles, name) != ""
    requires IsClearance(roles, ranks, name, level)
    requires IsClearance(roles, ranks, Parent(roles, name), parentLevel)
    ensures EffectivePermissions(roles, Parent(roles, name)) <= EffectivePermissions(roles, name)
    ensures ChainDefined(roles, name) ==> ChainDefined(roles, Parent(roles, name))
    ensures level in ranks && parentLevel in ranks ==>
              (ranks[level] < ranks[parentLevel] <==> OwnLevelBelowDefault(roles, ranks, name))
  {
    forall other
      ensures Reaches(roles, name, other) <==> other == name || Reaches(roles, Parent(roles, name), other)
    {
      ChainIsOwnAndParents(roles, name, other);
    }
  }

  /** A defined role may do what it is granted itself and what the role it inherits from may do, and nothing more. */
  lemma InheritedIs(roles: Roles, name: string, level: string)
    ensures name == "" ==> EffectivePermissions(roles, name) == {} && ChainDefined(roles, name)
    ensures name != "" && name !in roles ==> !ChainDefined(roles, name)
    ensures name != "" && name in roles ==>
              var role, above := roles[name], roles[name].inherits;
              && EffectivePermissions(roles, name) == role.permissions + EffectivePermissions(roles, above)
              && (ChainDefined(roles, name) <==> ChainDefined(roles, above))
              && (GrantedOnChain(roles, name, level) <==>
                    (level != "" && level == role.maxClassification) || GrantedOnChain(roles, above, level))
  {
    assert Ancestor(roles, name, 0) == name;
    if name == "" || name !in roles || roles[name].inherits == "" {
      NothingAbove(roles, name);
      NothingAbove(roles, "");
    } else {
      forall other
        ensures Reaches(roles, name, other) <==> other == name || Reaches(roles, Parent(roles, name), other)
      {
        ChainIsOwnAndParents(roles, name, other);
      }
    }
  }

  lemma NothingAbove(roles: Roles, name: string)
    requires Parent(roles, name) == ""
    ensures forall other :: Reaches(roles, name, other) <==> other == name != ""
  {
    forall n: nat
      ensures Ancestor(roles, name, n) in {name, ""}
    {
      ClosedHoldsAncestors(roles, name, {name}, n);
    }
    assert Ancestor(roles, name, 0) == name;
  }
}
