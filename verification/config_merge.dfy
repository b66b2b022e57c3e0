/**
 Layered configuration: a base file, a hardware profile laid over it, then
 environment variables laid over both (backend/core/config.py).

 Lists, numbers, strings and null are all `Leaf`: the merge treats them alike,
 replacing rather than combining.
 */
module ConfigMerge {
  import opened Wrappers

  datatype Value = Leaf(text: string) | Mapping(entries: map<string, Value>)

  /** `overlay` on `base`: mappings merge key by key, anything else replaces. */
  function Merge(base: Value, overlay: Value): (merged: Value)
    decreases overlay
  {
    if base.Mapping? && overlay.Mapping? then
      Mapping(map key | key in base.entries.Keys + overlay.entries.Keys ::
                if key !in overlay.entries then base.entries[key]
                else if key in base.entries then Merge(base.entries[key], overlay.entries[key])
                else overlay.entries[key])
    else overlay
  }

  /** One key of a merge of two mappings. */
  lemma MergedEntry(base: map<string, Value>, overlay: map<string, Value>, key: string)
    requires key in base || key in overlay
    ensures var merged := Merge(Mapping(base), Mapping(overlay));
            && merged.Mapping?
            && key in merged.entries
            && merged.entries[key] ==
               if key !in overlay then base[key]
               else if key in base then Merge(base[key], overlay[key])
               else overlay[key]
  {
  }

  /** The loop of `deep_merge`: a copy of the base, updated one overlay key at a time. */
  method DeepMerge(base: map<string, Value>, overlay: map<string, Value>) returns (merged: map<string, Value>)
    ensures Mapping(merged) == Merge(Mapping(base), Mapping(overlay))
    decreases Mapping(overlay), 0
  {
    merged := base;
    ghost var target := Merge(Mapping(base), Mapping(overlay)).entries;
    var pending := overlay.Keys;
    while pending != {}
      invariant pending <= overlay.Keys
      invariant forall key :: key in target && key !in pending ==> key in merged && merged[key] == target[key]
      invariant merged.Keys <= target.Keys
      invariant forall key :: key in pending ==> (key in merged <==> key in base)
      invariant forall key :: key in pending && key in merged ==> merged[key] == base[key]
      decreases pending
    {
      var key :| key in pending;
      MergedEntry(base, overlay, key);
      var entry := MergeEntry(if key in merged then Some(merged[key]) else None, overlay[key]);
      merged := merged[key := entry];
      pending := pending - {key};
    }
    assert merged == target;
  }

  method MergeEntry(under: Option<Value>, value: Value) returns (entry: Value)
    ensures entry == if under.Some? then Merge(under.value, value) else value
    decreases value, 1
  {
    if value.Mapping? && under.Some? && under.value.Mapping? {
      var nested := DeepMerge(under.value.entries, value.entries);
      entry := Mapping(nested);
    } else {
      entry := value;
    }
  }

  // --- algebra -------------------------------------------------------------

  lemma {:induction false} MergeWithItself(x: Value)
    ensures Merge(x, x) == x
  {
    if x.Mapping? {
      forall key | key in x.entries
        ensures Merge(x.entries[key], x.entries[key]) == x.entries[key]
      {
        MergeWithItself(x.entries[key]);
      }
      assert Merge(x, x).entries == x.entries;
    }
  }

  /** Laying the same overlay on twice changes nothing the second time. */
  lemma {:induction false} MergeAbsorbs(base: Value, overlay: Value)
    ensures Merge(Merge(base, overlay), overlay) == Merge(base, overlay)
    decreases overlay
  {
    var once := Merge(base, overlay);
    if base.Mapping? && overlay.Mapping? {
      forall key | key in overlay.entries
        ensures Merge(once.entries[key], overlay.entries[key]) == once.entries[key]
      {
        if key in base.entries {
          MergeAbsorbs(base.entries[key], overlay.entries[key]);
        } else {
          MergeWithItself(overlay.entries[key]);
        }
      }
      assert Merge(once, overlay).entries == once.entries;
    } else {
      MergeWithItself(overlay);
    }
  }

  /** `upper` overrides everything `lower` says. */
  ghost predicate Covers(upper: Value, lower: Value)
    decreases upper
  {
    upper.Mapping? && lower.Mapping? ==>
      forall key :: key in lower.entries ==>
                      key in upper.entries && Covers(upper.entries[key], lower.entries[key])
  }

  lemma {:induction false} CoversIff(upper: Value, lower: Value)
    ensures Covers(upper, lower) <==> Merge(lower, upper) == upper
    decreases upper
  {
    if upper.Mapping? && lower.Mapping? {
      var merged := Merge(lower, upper);
      forall key | key in lower.entries && key in upper.entries
        ensures Covers(upper.entries[key], lower.entries[key]) <==> merged.entries[key] == upper.entries[key]
      {
        CoversIff(upper.entries[key], lower.entries[key]);
      }
      if Covers(upper, lower) {
        assert merged.entries == upper.entries;
      } else if merged == upper {
        forall key | key in lower.entries
          ensures key in upper.entries && Covers(upper.entries[key], lower.entries[key])
        {
          assert key in merged.entries;
        }
      }
    }
  }

  /** Wherever `b` puts a leaf over a mapping of `a` and `c` a mapping over that leaf, `c` covers `a`. */
  ghost predicate Regroups(a: Value, b: Value, c: Value)
    decreases b
  {
    if !c.Mapping? then true
    else if !b.Mapping? then Covers(c, a)
    else a.Mapping? ==>
           forall key :: key in a.entries && key in b.entries && key in c.entries ==>
                           Regroups(a.entries[key], b.entries[key], c.entries[key])
  }

  /** Three layers may be grouped either way exactly when `Regroups` holds. */
  lemma {:induction false} AssociativeIff(a: Value, b: Value, c: Value)
    ensures Merge(Merge(a, b), c) == Merge(a, Merge(b, c)) <==> Regroups(a, b, c)
    decreases b
  {
    if c.Mapping? && !b.Mapping? {
      CoversIff(c, a);
    } else if a.Mapping? && b.Mapping? && c.Mapping? {
      var left, right := Merge(Merge(a, b), c), Merge(a, Merge(b, c));
      assert left.entries.Keys == right.entries.Keys;
      forall key | key in left.entries
        ensures left.entries[key] == right.entries[key] <==>
                (key in a.entries && key in b.entries && key in c.entries ==>
                   Regroups(a.entries[key], b.entries[key], c.entries[key]))
      {
        if key in a.entries && key in b.entries && key in c.entries {
          AssociativeIff(a.entries[key], b.entries[key], c.entries[key]);
        }
      }
      if Regroups(a, b, c) {
        assert left.entries == right.entries;
      }
    }
  }

  /** `upper` never puts a leaf where `lower` has a mapping. */
  ghost predicate KeepsMappings(upper: Value, lower: Value)
    decreases upper
  {
    lower.Mapping? ==>
      && upper.Mapping?
      && forall key :: key in lower.entries && key in upper.entries ==>
                         KeepsMappings(upper.entries[key], lower.entries[key])
  }

  lemma {:induction false} AssociativeWhenMappingsAreKept(a: Value, b: Value, c: Value)
    requires KeepsMappings(b, a)
    ensures Merge(Merge(a, b), c) == Merge(a, Merge(b, c))
    decreases b
  {
    KeptMappingsRegroup(a, b, c);
    AssociativeIff(a, b, c);
  }

  lemma {:induction false} KeptMappingsRegroup(a: Value, b: Value, c: Value)
    requires KeepsMappings(b, a)
    ensures Regroups(a, b, c)
    decreases b
  {
    if a.Mapping? && b.Mapping? && c.Mapping? {
      forall key | key in a.entries && key in b.entries && key in c.entries
        ensures Regroups(a.entries[key], b.entries[key], c.entries[key])
      {
        KeptMappingsRegroup(a.entries[key], b.entries[key], c.entries[key]);
      }
    }
  }

  /** A profile that blanks a section and a variable that refills it with another key do not regroup. */
  lemma NotAssociativeInGeneral(section: string, lost: string, kept: string, x: string, y: string)
    requires lost != kept
    ensures var a := Mapping(map[section := Mapping(map[lost := Leaf(x)])]);
            var b := Mapping(map[section := Leaf("null")]);
            var c := Mapping(map[section := Mapping(map[kept := Leaf(y)])]);
            Merge(Merge(a, b), c) != Merge(a, Merge(b, c))
  {
    var a := Mapping(map[section := Mapping(map[lost := Leaf(x)])]);
    var b := Mapping(map[section := Leaf("null")]);
    var c := Mapping(map[section := Mapping(map[kept := Leaf(y)])]);
    assert lost in a.entries[section].entries && lost !in c.entries[section].entries;
    assert !Regroups(a.entries[section], b.entries[section], c.entries[section]);
    AssociativeIff(a, b, c);
  }

  // --- dotted lookup -------------------------------------------------------

  /** `Settings.get`, with `None` for the caller's default. */
  function Get(cursor: Value, path: seq<string>): (found: Option<Value>)
  {
    if path == [] then Some(cursor)
    else if !cursor.Mapping? || path[0] !in cursor.entries then None
    else Get(cursor.entries[path[0]], path[1..])
  }

  /** What an overlay has to say about a path. */
  datatype Stance = Silent | Replaces | Extends

  function StanceOn(overlay: Value, path: seq<string>): Stance
  {
    if !overlay.Mapping? then Replaces
    else if path == [] then Extends
    else if path[0] !in overlay.entries then Silent
    else StanceOn(overlay.entries[path[0]], path[1..])
  }

  /** The stances, in terms of lookups alone. */
  lemma {:induction false} StanceMeans(overlay: Value, path: seq<string>)
    ensures StanceOn(overlay, path) == Replaces <==>
            exists n :: 0 <= n <= |path| && Get(overlay, path[..n]).Some? && !Get(overlay, path[..n]).value.Mapping?
    ensures StanceOn(overlay, path) == Extends <==> Get(overlay, path).Some? && Get(overlay, path).value.Mapping?
  {
    if !overlay.Mapping? {
      assert path[..0] == [];
      assert Get(overlay, path[..0]) == Some(overlay);
    } else if path != [] && path[0] in overlay.entries {
      var inner := overlay.entries[path[0]];
      StanceMeans(inner, path[1..]);
      forall n | 1 <= n <= |path|
        ensures Get(overlay, path[..n]) == Get(inner, path[1..][..n - 1])
      {
        assert path[..n][1..] == path[1..][..n - 1];
      }
      if StanceOn(overlay, path) == Replaces {
        var n :| 0 <= n <= |path[1..]| && Get(inner, path[1..][..n]).Some?
                 && !Get(inner, path[1..][..n]).value.Mapping?;
        assert Get(overlay, path[..n + 1]) == Get(inner, path[1..][..n]);
      }
    } else {
      assert forall n :: 0 < n <= |path| ==> path[..n][0] == path[0];
    }
  }

  /**
   What a lookup in the merged configuration returns, for every path: the
   overlay's answer where it replaces, the base's where it is silent, and the
   merge of both where both hold a mapping there.
   */
  lemma {:induction false} GetFromMerged(base: Value, overlay: Value, path: seq<string>)
    requires base.Mapping? && overlay.Mapping?
    ensures StanceOn(overlay, path) == Replaces ==> Get(Merge(base, overlay), path) == Get(overlay, path)
    ensures StanceOn(overlay, path) == Silent ==> Get(Merge(base, overlay), path) == Get(base, path)
    ensures StanceOn(overlay, path) == Extends ==>
              && Get(overlay, path).Some?
              && Get(Merge(base, overlay), path) ==
                 Some(match Get(base, path)
                      case None => Get(overlay, path).value
                      case Some(under) => Merge(under, Get(overlay, path).value))
    decreases path
  {
    if path != [] && path[0] in overlay.entries {
      var over := overlay.entries[path[0]];
      StanceMeans(over, path[1..]);
      if StanceOn(over, path[1..]) == Silent {
        SilentFindsNothing(over, path[1..]);
      }
      if path[0] in base.entries {
        var under := base.entries[path[0]];
        if under.Mapping? && over.Mapping? {
          GetFromMerged(under, over, path[1..]);
        } else {
          assert !under.Mapping? && path[1..] != [] ==> Get(under, path[1..]) == None;
          assert Get(Merge(base, overlay), path) == Get(over, path[1..]);
        }
      }
    }
  }

  lemma {:induction false} SilentFindsNothing(overlay: Value, path: seq<string>)
    requires StanceOn(overlay, path) == Silent
    ensures Get(overlay, path) == None
  {
    if path[0] in overlay.entries {
      SilentFindsNothing(overlay.entries[path[0]], path[1..]);
    }
  }

  // --- environment variables ----------------------------------------------

  /** One variable applied: walk to the last segment, replacing any leaf in the way, and assign. */
  function Put(data: Value, path: seq<string>, value: Value): (updated: Value)
    requires path != []
    ensures updated.Mapping?
    decreases |path|
  {
    var entries := if data.Mapping? then data.entries else map[];
    var inner :=
      if |path| == 1 then value
      else Put(if path[0] in entries then entries[path[0]] else Mapping(map[]), path[1..], value);
    Mapping(entries[path[0] := inner])
  }

  /** The overlay that says one thing. */
  function OnlyPath(path: seq<string>, value: Value): Value
  {
    if path == [] then value else Mapping(map[path[0] := OnlyPath(path[1..], value)])
  }

  /**
   Writing a variable is laying on the overlay that sets only its path, exactly when nothing is there yet or
   the value overrides everything that is. A leaf always does; a mapping may leave keys the assignment drops.
   */
  lemma {:induction false} VariableIsAnOverlayIff(data: Value, path: seq<string>, value: Value)
    requires path != [] && data.Mapping?
    ensures Put(data, path, value) == Merge(data, OnlyPath(path, value)) <==>
            (Get(data, path).Some? ==> Covers(value, Get(data, path).value))
    decreases |path|
  {
    var overlay := OnlyPath(path, value);
    var rest := OnlyPath(path[1..], value);
    var put, merged := Put(data, path, value), Merge(data, overlay);
    assert overlay.entries.Keys == {path[0]} && overlay.entries[path[0]] == rest;
    assert put.entries.Keys == merged.entries.Keys == data.entries.Keys + {path[0]};
    assert put == merged <==> put.entries[path[0]] == merged.entries[path[0]] by {
      if put.entries[path[0]] == merged.entries[path[0]] {
        assert put.entries == merged.entries;
      }
    }
    var under := if path[0] in data.entries then data.entries[path[0]] else Mapping(map[]);
    if |path| == 1 {
      if path[0] in data.entries {
        CoversIff(value, under);
      }
    } else if under.Mapping? {
      VariableIsAnOverlayIff(under, path[1..], value);
      MergeOntoEmpty(rest);
    } else {
      assert Put(under, path[1..], value) == Put(Mapping(map[]), path[1..], value);
      VariableIsAnOverlayIff(Mapping(map[]), path[1..], value);
      MergeOntoEmpty(rest);
    }
  }

  lemma MergeOntoEmpty(overlay: Value)
    requires overlay.Mapping?
    ensures Merge(Mapping(map[]), overlay) == overlay
  {
    assert Merge(Mapping(map[]), overlay).entries == overlay.entries;
  }

  function PutAll(data: Value, variables: seq<(seq<string>, Value)>): Value
    requires forall v :: v in variables ==> v.0 != []
  {
    if variables == [] then data
    else Put(PutAll(data, variables[..|variables| - 1]), variables[|variables| - 1].0, variables[|variables| - 1].1)
  }

  method ApplyEnvOverrides(data: Value, variables: seq<(seq<string>, Value)>) returns (updated: Value)
    requires forall v :: v in variables ==> v.0 != []
    ensures updated == PutAll(data, variables)
  {
    updated := data;
    for i := 0 to |variables|
      invariant updated == PutAll(data, variables[..i])
    {
      assert variables[..i + 1][..i] == variables[..i];
      updated := Put(updated, variables[i].0, variables[i].1);
    }
    assert variables[..|variables|] == variables;
  }

  lemma {:induction false} PutIsRead(data: Value, path: seq<string>, value: Value)
    requires path != []
    ensures Get(Put(data, path, value), path) == Some(value)
    decreases |path|
  {
    if |path| > 1 {
      var entries := if data.Mapping? then data.entries else map[];
      PutIsRead(if path[0] in entries then entries[path[0]] else Mapping(map[]), path[1..], value);
    }
  }

  /** Neither path runs through the other. */
  predicate Unrelated(p: seq<string>, q: seq<string>)
  {
    !(p <= q) && !(q <= p)
  }

  lemma {:induction false} PutLeavesOthers(data: Value, path: seq<string>, value: Value, other: seq<string>)
    requires Unrelated(path, other)
    ensures Get(Put(data, path, value), other) == Get(data, other)
    decreases |path|
  {
    if path[0] == other[0] {
      assert path == [path[0]] + path[1..] && other == [other[0]] + other[1..];
      var entries := if data.Mapping? then data.entries else map[];
      var under := if path[0] in entries then entries[path[0]] else Mapping(map[]);
      PutLeavesOthers(under, path[1..], value, other[1..]);
    }
  }

  /**
   A variable is what its path reads, whatever value it holds and whatever lies beneath, unless a later
   variable's path runs through it or it through that one's.
   */
  lemma {:induction false} LastVariableWins(data: Value, variables: seq<(seq<string>, Value)>, k: nat)
    requires forall v :: v in variables ==> v.0 != []
    requires k < |variables| && forall j :: k < j < |variables| ==> Unrelated(variables[j].0, variables[k].0)
    ensures Get(PutAll(data, variables), variables[k].0) == Some(variables[k].1)
  {
    var n := |variables| - 1;
    var under := PutAll(data, variables[..n]);
    if k == n {
      PutIsRead(under, variables[n].0, variables[n].1);
    } else {
      LastVariableWins(data, variables[..n], k);
      PutLeavesOthers(under, variables[n].0, variables[n].1, variables[k].0);
    }
  }
}
