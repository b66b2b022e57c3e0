/**
 The verdict on a claim and the validity of an answer, read off the claim, the
 conflicts and the evidence alone (backend/agents/verifier.py).
 */
module ClaimRules {
  import opened Wrappers
  import opened ClaimVerdicts

  // --- what a claim touches ------------------------------------------------

  /** How many of a conflict's candidates the claim names. */
  function HowMany(p: Patterns, claim: string, candidates: seq<Candidate>): nat
  {
    if candidates == [] then 0
    else HowMany(p, claim, candidates[..|candidates| - 1])
         + if p.namesValue(claim, candidates[|candidates| - 1].stated) then 1 else 0
  }

  lemma {:induction false} NamedAre(p: Patterns, claim: string, candidates: seq<Candidate>)
    ensures |Filter(candidates, (x: Candidate) => p.namesValue(claim, x.stated))| == HowMany(p, claim, candidates)
  {
    if candidates != [] {
      var n := |candidates| - 1;
      NamedAre(p, claim, candidates[..n]);
      FilterAppend(candidates[..n], candidates[n], (x: Candidate) => p.namesValue(claim, x.stated));
      assert candidates == candidates[..n] + [candidates[n]];
    }
  }

  ghost function NamedPlaces(p: Patterns, claim: string, candidates: seq<Candidate>): set<int>
  {
    set i | 0 <= i < |candidates| && p.namesValue(claim, candidates[i].stated)
  }

  lemma OneMorePlace(p: Patterns, claim: string, front: seq<Candidate>, last: Candidate)
    ensures |NamedPlaces(p, claim, front + [last])| == |NamedPlaces(p, claim, front)| + if p.namesValue(claim, last.stated) then 1 else 0
  {
    var n, all := |front|, front + [last];
    var before := NamedPlaces(p, claim, front);
    assert all[n] == last && forall i :: 0 <= i < n ==> all[i] == front[i];
    assert n !in before;
    if p.namesValue(claim, last.stated) {
      assert NamedPlaces(p, claim, all) == before + {n};
    } else {
      assert NamedPlaces(p, claim, all) == before;
    }
  }

  /** A count is the number of places that count. */
  lemma {:induction false} HowManyIs(p: Patterns, claim: string, candidates: seq<Candidate>)
    ensures HowMany(p, claim, candidates) == |NamedPlaces(p, claim, candidates)|
  {
    if candidates != [] {
      var n := |candidates| - 1;
      HowManyIs(p, claim, candidates[..n]);
      OneMorePlace(p, claim, candidates[..n], candidates[n]);
      assert candidates == candidates[..n] + [candidates[n]];
    }
  }

  /** A rate, a life or a severity, stated as a disposition, an engineering claim or a figure. */
  predicate ConcludesFromInputs(p: Patterns, claim: string)
  {
    p.conclusions(claim) != [] && (p.decision(claim) || p.engineering(claim) || p.quantity(claim))
  }

  predicate OpenInput(c: Conflict)
  {
    c.kind.InputConflict? && c.status.Unresolved? && c.high
  }

  predicate OpenFact(c: Conflict)
  {
    c.kind.FactConflict? && c.status.Unresolved?
  }

  /** A claim touches a disputed input by a conclusion drawn from inputs, by naming one of several values, or by naming more than one. */
  predicate TouchesInput(p: Patterns, claim: string, c: Conflict)
  {
    var n := HowMany(p, claim, c.candidates);
    OpenInput(c) && (ConcludesFromInputs(p, claim) || (n == 1 && |c.candidates| > 1) || n > 1)
  }

  /** A claim touches a disputed fact by mentioning its subject and naming a value of it. */
  predicate TouchesFact(p: Patterns, claim: string, c: Conflict)
  {
    OpenFact(c) && p.mentions(claim, c) && HowMany(p, claim, c.candidates) >= 1
  }

  ghost predicate FirstInput(p: Patterns, claim: string, conflicts: seq<Conflict>, i: nat)
  {
    i < |conflicts| && TouchesInput(p, claim, conflicts[i]) && forall j :: 0 <= j < i ==> !TouchesInput(p, claim, conflicts[j])
  }

  ghost predicate FirstFact(p: Patterns, claim: string, conflicts: seq<Conflict>, i: nat)
  {
    i < |conflicts| && TouchesFact(p, claim, conflicts[i]) && forall j :: 0 <= j < i ==> !TouchesFact(p, claim, conflicts[j])
  }

  ghost predicate TouchesNoInput(p: Patterns, claim: string, conflicts: seq<Conflict>)
  {
    forall c :: c in conflicts ==> !TouchesInput(p, claim, c)
  }

  ghost predicate TouchesNoFact(p: Patterns, claim: string, conflicts: seq<Conflict>)
  {
    forall c :: c in conflicts ==> !TouchesFact(p, claim, c)
  }

  /** A sentence that reports a dispute instead of concluding anything. */
  ghost predicate Reports(p: Patterns, claim: string, conflicts: seq<Conflict>)
  {
    (exists c :: c in conflicts && c.kind.InputConflict?) && p.withholding(claim) && p.conclusions(claim) == []
  }

  // --- the first conflict touched rules ------------------------------------

  lemma InputRulingIs(p: Patterns, claim: string, c: Conflict)
    requires OpenInput(c)
    ensures InputRuling(p, claim, c).Some? <==> TouchesInput(p, claim, c)
    ensures TouchesInput(p, claim, c) ==>
              InputRuling(p, claim, c) ==
              Some(Ruling(if ConcludesFromInputs(p, claim) || HowMany(p, claim, c.candidates) == 1 then Conflicted else Supported,
                          Sources(c.candidates)))
  {
    NamedAre(p, claim, c.candidates);
  }

  lemma FactRulingIs(p: Patterns, claim: string, c: Conflict)
    requires OpenFact(c)
    ensures FactRuling(p, claim, c).Some? <==> TouchesFact(p, claim, c)
    ensures TouchesFact(p, claim, c) ==>
              FactRuling(p, claim, c) ==
              Some(Ruling(if HowMany(p, claim, c.candidates) == 1 then Conflicted else Supported, Sources(c.candidates)))
  {
    NamedAre(p, claim, c.candidates);
  }

  /** Asking the kept conflicts in order is asking all in order and passing over the rest. */
  lemma {:induction false} FirstOfKept(conflicts: seq<Conflict>, keep: Conflict -> bool, rule: Conflict -> Option<Ruling>)
    ensures (forall c :: c in conflicts && keep(c) ==> rule(c).None?) ==> FirstRuling(Filter(conflicts, keep), rule).None?
    ensures forall i :: 0 <= i < |conflicts| && keep(conflicts[i]) && rule(conflicts[i]).Some?
                        && (forall j :: 0 <= j < i && keep(conflicts[j]) ==> rule(conflicts[j]).None?) ==>
              FirstRuling(Filter(conflicts, keep), rule) == rule(conflicts[i])
  {
    if conflicts != [] {
      var first, rest := conflicts[0], conflicts[1..];
      FirstOfKept(rest, keep, rule);
      FilterCons(first, rest, keep);
      assert conflicts == [first] + rest;
      if keep(first) {
        assert ([first] + Filter(rest, keep))[1..] == Filter(rest, keep);
      } else {
        assert [] + Filter(rest, keep) == Filter(rest, keep);
      }
      forall i | 0 < i < |conflicts| && keep(conflicts[i]) && rule(conflicts[i]).Some?
                 && (forall j :: 0 <= j < i && keep(conflicts[j]) ==> rule(conflicts[j]).None?)
        ensures FirstRuling(Filter(conflicts, keep), rule) == rule(conflicts[i])
      {
        assert rest[i - 1] == conflicts[i];
        assert forall j :: 0 <= j < i - 1 ==> rest[j] == conflicts[j + 1];
        assert keep(first) ==> rule(first).None?;
      }
    }
  }

  lemma ByInput(p: Patterns, claim: string, conflicts: seq<Conflict>)
    ensures var ruling := FirstRuling(Filter(conflicts, IsOpenInput), (c: Conflict) => InputRuling(p, claim, c));
            && (TouchesNoInput(p, claim, conflicts) ==> ruling.None?)
            && (forall i: nat :: FirstInput(p, claim, conflicts, i) ==> ruling == InputRuling(p, claim, conflicts[i]))
  {
    var rule := (c: Conflict) => InputRuling(p, claim, c);
    FirstOfKept(conflicts, IsOpenInput, rule);
    forall c: Conflict | IsOpenInput(c)
      ensures rule(c).Some? <==> TouchesInput(p, claim, c)
    {
      InputRulingIs(p, claim, c);
    }
    forall i: nat | FirstInput(p, claim, conflicts, i)
      ensures FirstRuling(Filter(conflicts, IsOpenInput), rule) == InputRuling(p, claim, conflicts[i])
    {
      assert IsOpenInput(conflicts[i]) && rule(conflicts[i]).Some?;
      assert forall j :: 0 <= j < i && IsOpenInput(conflicts[j]) ==> !TouchesInput(p, claim, conflicts[j]);
    }
  }

  lemma ByFact(p: Patterns, claim: string, conflicts: seq<Conflict>)
    ensures var ruling := FirstRuling(Filter(conflicts, IsOpenFact), (c: Conflict) => FactRuling(p, claim, c));
            && (TouchesNoFact(p, claim, conflicts) ==> ruling.None?)
            && (forall i: nat :: FirstFact(p, claim, conflicts, i) ==> ruling == FactRuling(p, claim, conflicts[i]))
  {
    var rule := (c: Conflict) => FactRuling(p, claim, c);
    FirstOfKept(conflicts, IsOpenFact, rule);
    forall c: Conflict | IsOpenFact(c)
      ensures rule(c).Some? <==> TouchesFact(p, claim, c)
    {
      FactRulingIs(p, claim, c);
    }
    forall i: nat | FirstFact(p, claim, conflicts, i)
      ensures FirstRuling(Filter(conflicts, IsOpenFact), rule) == FactRuling(p, claim, conflicts[i])
    {
      assert IsOpenFact(conflicts[i]) && rule(conflicts[i]).Some?;
      assert forall j :: 0 <= j < i && IsOpenFact(conflicts[j]) ==> !TouchesFact(p, claim, conflicts[j]);
    }
  }

  lemma ReportsIs(p: Patterns, claim: string, conflicts: seq<Conflict>)
    ensures Withholds(p, conflicts, claim) <==> Reports(p, claim, conflicts)
  {
    FilterKeeps(conflicts, IsInput);
    if Filter(conflicts, IsInput) != [] {
      assert Filter(conflicts, IsInput)[0] in conflicts;
    }
  }

  // --- the verdict ---------------------------------------------------------

  /** A verdict carries the claim up to 400 characters and its kind: the first of the four patterns it matches, else a fact. */
  lemma VerdictIsOfItsClaim(p: Patterns, a: Option<Assessment>, conflicts: seq<Conflict>, passages: Passages, claim: string)
    ensures var v := VerdictOn(p, a, conflicts, passages, claim);
            && v.text <= claim && (v.text == claim || |v.text| == 400 < |claim|)
            && (v.kind == Recommendation <==> p.decision(claim))
            && (v.kind == Engineering <==> !p.decision(claim) && p.engineering(claim))
            && (v.kind == Numerical <==> !p.decision(claim) && !p.engineering(claim) && p.quantity(claim))
            && (v.kind == Procedural <==>
                  !p.decision(claim) && !p.engineering(claim) && !p.quantity(claim) && p.procedural(claim))
            && (v.kind == Factual <==>
                  !p.decision(claim) && !p.engineering(claim) && !p.quantity(claim) && !p.procedural(claim))
  {
  }

  lemma {:induction false} SourcesAre(candidates: seq<Candidate>)
    ensures |Sources(candidates)| == |candidates|
    ensures forall k :: 0 <= k < |candidates| ==> Sources(candidates)[k] == candidates[k].evidenceId
  {
    if candidates != [] {
      SourcesAre(candidates[1..]);
    }
  }

  function InputsOf(conflicts: seq<Conflict>): seq<Conflict>
  {
    Filter(conflicts, IsInput)
  }

  /** The input conflicts of a run, in order. */
  lemma {:induction false} InputsAre(conflicts: seq<Conflict>, c: Conflict)
    ensures InputsOf(conflicts + [c]) == InputsOf(conflicts) + if c.kind.InputConflict? then [c] else []
  {
    FilterAppend(conflicts, c, IsInput);
  }

  lemma {:induction false} EverySourceOneMore(conflicts: seq<Conflict>, c: Conflict)
    ensures AllSources(conflicts + [c]) == AllSources(conflicts) + Sources(c.candidates)
  {
    if conflicts == [] {
      assert [] + [c] == [c] && [c][1..] == [];
      assert AllSources([c]) == Sources(c.candidates) + AllSources([c][1..]);
    } else {
      EverySourceOneMore(conflicts[1..], c);
      assert (conflicts + [c])[1..] == conflicts[1..] + [c];
      InThree(Sources(conflicts[0].candidates), AllSources(conflicts[1..]), Sources(c.candidates));
    }
  }

  lemma InThree(a: seq<string>, b: seq<string>, c: seq<string>)
    ensures a + (b + c) == a + b + c
  {
  }

  lemma {:induction false} EveryResolutionOneMore(conflicts: seq<Conflict>, c: Conflict)
    ensures Resolutions(conflicts + [c]) == Resolutions(conflicts) + if c.resolution.Some? then [c.resolution.value] else []
  {
    if conflicts == [] {
      assert [] + [c] == [c] && [c][1..] == [];
    } else {
      EveryResolutionOneMore(conflicts[1..], c);
      assert (conflicts + [c])[1..] == conflicts[1..] + [c];
    }
  }

  /** A sentence that reports a dispute is carried by every source of every input conflict, and by the choices made since. */
  lemma ReportsAreSupported(p: Patterns, a: Option<Assessment>, conflicts: seq<Conflict>, passages: Passages, claim: string)
    requires Reports(p, claim, conflicts)
    ensures var v := VerdictOn(p, a, conflicts, passages, claim);
            v.value == Supported && v.ids == AllSources(InputsOf(conflicts)) + Resolutions(InputsOf(conflicts))
  {
    ReportsIs(p, claim, conflicts);
  }

  /** The first disputed input a claim touches rules on it: against a conclusion or one side, for naming several values. */
  lemma FirstInputRules(
      p: Patterns, a: Option<Assessment>, conflicts: seq<Conflict>, passages: Passages, claim: string, i: nat)
    requires !Reports(p, claim, conflicts) && FirstInput(p, claim, conflicts, i)
    ensures var v, candidates := VerdictOn(p, a, conflicts, passages, claim), conflicts[i].candidates;
            && v.value == (if ConcludesFromInputs(p, claim) || HowMany(p, claim, candidates) == 1 then Conflicted else Supported)
            && v.ids == Sources(candidates)
  {
    ReportsIs(p, claim, conflicts);
    ByInput(p, claim, conflicts);
    InputRulingIs(p, claim, conflicts[i]);
  }

  /**
   Where a claim reports no dispute and touches no disputed input, the first disputed fact it touches rules: naming one
   value of it is taking a side, naming several is reporting it.
   */
  lemma FirstFactRules(
      p: Patterns, a: Option<Assessment>, conflicts: seq<Conflict>, passages: Passages, claim: string, i: nat)
    requires !Reports(p, claim, conflicts) && TouchesNoInput(p, claim, conflicts) && FirstFact(p, claim, conflicts, i)
    ensures var v, candidates := VerdictOn(p, a, conflicts, passages, claim), conflicts[i].candidates;
            && v.value == (if HowMany(p, claim, candidates) == 1 then Conflicted else Supported)
            && v.ids == Sources(candidates)
  {
    ReportsIs(p, claim, conflicts);
    ByInput(p, claim, conflicts);
    ByFact(p, claim, conflicts);
    FactRulingIs(p, claim, conflicts[i]);
  }

  /** The registry speaks on a claim it has calculated for, of a kind it judges or naming the authority or the basis. */
  predicate Speaks(p: Patterns, a: Assessment, claim: string)
  {
    && a.status.Computed?
    && ((!p.decision(claim) && (p.engineering(claim) || p.quantity(claim) || p.procedural(claim))) || a.judged(claim))
  }

  /**
   Where no dispute is touched a disposition is a person's; a claim the registry speaks on is unsupported if it
   contradicts it and calculated if it restates it; any other is supported by a passage, or by nothing.
   */
  lemma UndisputedVerdict(p: Patterns, a: Option<Assessment>, conflicts: seq<Conflict>, passages: Passages, claim: string)
    requires !Reports(p, claim, conflicts) && TouchesNoInput(p, claim, conflicts) && TouchesNoFact(p, claim, conflicts)
    ensures var v := VerdictOn(p, a, conflicts, passages, claim);
            var registry := !p.decision(claim) && a.Some? && Speaks(p, a.value, claim);
            && (p.decision(claim) ==> v.value == RequiresHumanDecision && v.ids == p.cited(claim))
            && (registry && a.value.contradicts(claim) ==> v.value == Unsupported && v.ids == a.value.decision)
            && (registry && !a.value.contradicts(claim) && a.value.restates(claim).Some? ==>
                  v.value == Calculated && v.ids == a.value.restates(claim).value)
            && (!p.decision(claim) && (registry ==> !a.value.contradicts(claim) && a.value.restates(claim).None?) ==>
                  if passages(claim).Some? then v.value == Supported && v.ids == passages(claim).value
                  else v.value == Unsupported && v.ids == p.cited(claim))
  {
    ReportsIs(p, claim, conflicts);
    ByInput(p, claim, conflicts);
    ByFact(p, claim, conflicts);
  }

  /** A claim is disputed exactly when it touches a disputed input, or failing that a disputed fact, on one side only. */
  lemma ConflictedIff(p: Patterns, a: Option<Assessment>, conflicts: seq<Conflict>, passages: Passages, claim: string)
    ensures VerdictOn(p, a, conflicts, passages, claim).value == Conflicted <==>
              && !Reports(p, claim, conflicts)
              && (|| (exists i: nat :: FirstInput(p, claim, conflicts, i)
                        && (ConcludesFromInputs(p, claim) || HowMany(p, claim, conflicts[i].candidates) == 1))
                  || (TouchesNoInput(p, claim, conflicts)
                        && exists i: nat :: FirstFact(p, claim, conflicts, i) && HowMany(p, claim, conflicts[i].candidates) == 1))
  {
    if Reports(p, claim, conflicts) {
      ReportsAreSupported(p, a, conflicts, passages, claim);
    } else if !TouchesNoInput(p, claim, conflicts) {
      var i := LeastInput(p, claim, conflicts);
      FirstInputRules(p, a, conflicts, passages, claim, i);
      assert forall k: nat :: FirstInput(p, claim, conflicts, k) ==> k == i;
    } else if !TouchesNoFact(p, claim, conflicts) {
      var i := LeastFact(p, claim, conflicts);
      FirstFactRules(p, a, conflicts, passages, claim, i);
      assert forall k: nat :: FirstFact(p, claim, conflicts, k) ==> k == i;
    } else {
      UndisputedVerdict(p, a, conflicts, passages, claim);
    }
  }

  lemma LeastInput(p: Patterns, claim: string, conflicts: seq<Conflict>) returns (i: nat)
    requires !TouchesNoInput(p, claim, conflicts)
    ensures FirstInput(p, claim, conflicts, i)
  {
    i := 0;
    var c :| c in conflicts && TouchesInput(p, claim, c);
    var k :| 0 <= k < |conflicts| && conflicts[k] == c;
    while !TouchesInput(p, claim, conflicts[i])
      invariant i <= k && forall j :: 0 <= j < i ==> !TouchesInput(p, claim, conflicts[j])
      decreases k - i
    {
      i := i + 1;
    }
  }

  lemma LeastFact(p: Patterns, claim: string, conflicts: seq<Conflict>) returns (i: nat)
    requires !TouchesNoFact(p, claim, conflicts)
    ensures FirstFact(p, claim, conflicts, i)
  {
    i := 0;
    var c :| c in conflicts && TouchesFact(p, claim, c);
    var k :| 0 <= k < |conflicts| && conflicts[k] == c;
    while !TouchesFact(p, claim, conflicts[i])
      invariant i <= k && forall j :: 0 <= j < i ==> !TouchesFact(p, claim, conflicts[j])
      decreases k - i
    {
      i := i + 1;
    }
  }

  // --- the answer ----------------------------------------------------------

  /** A claim is carried by a passage, or by a verdict on a text it begins with that settled it. */
  ghost predicate IsCarried(verdicts: seq<Verdict>, passages: Passages, claim: string)
  {
    || passages(claim).Some?
    || exists v :: v in verdicts && (v.value == Calculated || v.value == Supported) && v.text <= claim && |v.text| == if |claim| < 400 then |claim| else 400
  }

  lemma CarriedIs(verdicts: seq<Verdict>, passages: Passages, claim: string)
    ensures Carried(verdicts, passages, claim) <==> IsCarried(verdicts, passages, claim)
  {
    if v :| v in verdicts && (v.value == Calculated || v.value == Supported) && v.text <= claim
            && |v.text| == if |claim| < 400 then |claim| else 400 {
      var k :| 0 <= k < |verdicts| && verdicts[k] == v;
      assert Settles(verdicts[k]) && verdicts[k].text == Shortened(claim);
    }
    if k :| 0 <= k < |verdicts| && Settles(verdicts[k]) && verdicts[k].text == Shortened(claim) {
      assert verdicts[k] in verdicts;
    }
  }

  ghost function CarriedPlaces(verdicts: seq<Verdict>, passages: Passages, claims: seq<string>): set<int>
  {
    set k | 0 <= k < |claims| && IsCarried(verdicts, passages, claims[k])
  }

  lemma OneMoreCarried(verdicts: seq<Verdict>, passages: Passages, front: seq<string>, last: string)
    ensures |CarriedPlaces(verdicts, passages, front + [last])| ==
            |CarriedPlaces(verdicts, passages, front)| + if IsCarried(verdicts, passages, last) then 1 else 0
  {
    var n, all := |front|, front + [last];
    forall i
      ensures i in CarriedPlaces(verdicts, passages, all) <==>
                i in CarriedPlaces(verdicts, passages, front) || (i == n && IsCarried(verdicts, passages, last))
    {
      assert 0 <= i < n ==> all[i] == front[i];
    }
    OneMoreElement(CarriedPlaces(verdicts, passages, front), n, IsCarried(verdicts, passages, last), CarriedPlaces(verdicts, passages, all));
  }

  lemma OneMoreElement(before: set<int>, n: int, more: bool, after: set<int>)
    requires n !in before
    requires forall i: int :: i in after <==> (i in before || (i == n && more))
    ensures |after| == |before| + if more then 1 else 0
  {
    var sum := if more then before + {n} else before;
    forall x: int
      ensures x in after <==> x in sum
    {
    }
    assert after == sum;
  }

  lemma {:induction false} CountIs(verdicts: seq<Verdict>, passages: Passages, claims: seq<string>)
    ensures CountCarried(verdicts, passages, claims) == |CarriedPlaces(verdicts, passages, claims)|
  {
    if claims != [] {
      var n := |claims| - 1;
      CountIs(verdicts, passages, claims[..n]);
      CarriedIs(verdicts, passages, claims[n]);
      OneMoreCarried(verdicts, passages, claims[..n], claims[n]);
      assert claims == claims[..n] + [claims[n]];
    }
  }

  /** What an answer states agrees with its assessment: no conclusion from disputed inputs, no figure where one is missing, none that contradicts it. */
  predicate Agrees(p: Patterns, a: Option<Assessment>, text: string)
  {
    a.Some? ==>
      && (a.value.status.Disputed? ==> p.conclusions(text) == [])
      && (a.value.status.Missing? ==> !p.figures(text))
      && (a.value.status.Computed? ==> !a.value.contradicts(text))
  }

  /** No claim is disputed, and no engineering claim unsupported. */
  ghost predicate NothingBlocks(p: Patterns, a: Option<Assessment>, conflicts: seq<Conflict>, passages: Passages, claims: seq<string>)
  {
    forall claim :: claim in claims ==>
      var v := VerdictOn(p, a, conflicts, passages, claim);
      v.value != Conflicted && !(v.value == Unsupported && v.kind == Engineering)
  }

  /** The share of the claims that must be carried; with no claim at all it counts as one. */
  predicate Reaches(carried: nat, total: nat, threshold: real)
  {
    if total == 0 then threshold <= 1.0 else threshold * total as real <= carried as real
  }

  /**
   An answer is reported valid exactly when every other check passed, what it states agrees with the assessment, no claim
   of it is disputed or an unsupported engineering claim, and the share of its claims that are carried is reached.
   */
  lemma AnswerIsValidIff(
      p: Patterns, a: Option<Assessment>, conflicts: seq<Conflict>, passages: Passages, text: string,
      others: seq<Check>, threshold: real, limitations: seq<string>)
    ensures var claims := p.material(text);
            var verdicts := VerdictsOn(p, a, conflicts, passages, claims);
            Compiled(RunChecks(p, a, verdicts, text, others), |claims|, CountCarried(verdicts, passages, claims), threshold, limitations).valid
            <==>
              && (forall c :: c in others ==> c.passed)
              && Agrees(p, a, text) && NothingBlocks(p, a, conflicts, passages, claims)
              && Reaches(|CarriedPlaces(verdicts, passages, claims)|, |claims|, threshold)
  {
    var claims := p.material(text);
    var verdicts := VerdictsOn(p, a, conflicts, passages, claims);
    CountIs(verdicts, passages, claims);
    EnoughIs(CountCarried(verdicts, passages, claims), |claims|, threshold);
    CompiledIsValidIff(p, a, verdicts, text, others, |claims|, CountCarried(verdicts, passages, claims), threshold, limitations);
    NoneBlocksIff(p, a, conflicts, passages, claims);
  }

  lemma CompiledIsValidIff(
      p: Patterns, a: Option<Assessment>, verdicts: seq<Verdict>, text: string, others: seq<Check>,
      total: nat, supported: nat, threshold: real, limitations: seq<string>)
    ensures Compiled(RunChecks(p, a, verdicts, text, others), total, supported, threshold, limitations).valid <==>
              && (forall c :: c in others ==> c.passed)
              && Agrees(p, a, text)
              && (forall k :: 0 <= k < |verdicts| ==> !Blocks(verdicts[k]))
              && Enough(supported, total, threshold)
  {
    ValidIff(RunChecks(p, a, verdicts, text, others), total, supported, threshold, limitations);
    ChecksPassIff(p, a, verdicts, text, others);
  }

  lemma EnoughIs(supported: nat, total: nat, threshold: real)
    ensures Enough(supported, total, threshold) <==> Reaches(supported, total, threshold)
  {
    if total > 0 {
      var share := supported as real / total as real;
      assert share * total as real == supported as real;
      if threshold <= share {
        assert threshold * total as real <= share * total as real;
      } else {
        assert threshold * total as real > share * total as real;
      }
    }
  }

  lemma ChecksPassIff(p: Patterns, a: Option<Assessment>, verdicts: seq<Verdict>, text: string, others: seq<Check>)
    ensures (forall c :: c in RunChecks(p, a, verdicts, text, others) ==> c.passed) <==>
              && (forall c :: c in others ==> c.passed)
              && (a.Some? ==> EngineeringPasses(p, a.value, text))
              && (forall k :: 0 <= k < |verdicts| ==> !Blocks(verdicts[k]))
  {
    var engineering := if a.Some? then [EngineeringCheck(p, a.value, text)] else [];
    var claims := if verdicts == [] then [] else [ClaimsCheck(verdicts)];
    assert RunChecks(p, a, verdicts, text, others) == others + engineering + claims;
    assert forall c :: c in others + engineering + claims <==> c in others || c in engineering || c in claims;
    assert a.Some? ==> engineering[0] in engineering;
    assert verdicts != [] ==> claims[0] in claims;
  }

  lemma NoneBlocksIff(p: Patterns, a: Option<Assessment>, conflicts: seq<Conflict>, passages: Passages, claims: seq<string>)
    ensures var verdicts := VerdictsOn(p, a, conflicts, passages, claims);
            (forall k :: 0 <= k < |verdicts| ==> !Blocks(verdicts[k])) <==> NothingBlocks(p, a, conflicts, passages, claims)
  {
    var verdicts := VerdictsOn(p, a, conflicts, passages, claims);
    forall k | 0 <= k < |claims|
      ensures verdicts[k] == VerdictOn(p, a, conflicts, passages, claims[k]) && claims[k] in claims
    {
    }
  }

  // --- checking again ------------------------------------------------------

  /** The checks of a re-verified report: the fresh ones, those of the old that nothing replaces, and the share of claims carried. */
  lemma ReverifiedChecksAre(r: Report, f: Fresh, c: Check)
    ensures c in Reverified(r, f).checks <==>
              || c == f.sources || f.calculation == Some(c) || f.engineering == Some(c) || f.claims == Some(c)
              || (c in r.checks
                  && c.name != "source_verification" && c.name != "calculation_verification" && c.name != "engineering_verification"
                  && c.name != "claim_verification" && c.name != "hallucination_check")
              || c == Check("hallucination_check", Enough(f.supported, f.total, f.threshold), "")
  {
    FilterKeeps(r.checks, Keeps);
    var kept := Filter(r.checks, Keeps);
    var share := Check("hallucination_check", Enough(f.supported, f.total, f.threshold), "");
    assert Reverified(r, f).checks == [f.sources] + Listed(f.calculation) + kept + Listed(f.engineering) + Listed(f.claims) + [share];
  }

  /** A note is written for each failed check, and for nothing else. */
  lemma {:induction false} NotesAre(checks: seq<Check>, note: string)
    ensures note in Notes(checks) <==> exists c :: c in checks && !c.passed && note == c.name + ": " + c.detail
  {
    if checks != [] {
      var n := |checks| - 1;
      NotesAre(checks[..n], note);
      assert checks == checks[..n] + [checks[n]];
    }
  }

  /** What a re-verified report is limited by: the old notes of checks nothing replaces, then a note for each check that failed now. */
  lemma ReverifiedNotesAre(r: Report, f: Fresh, note: string)
    ensures note in Reverified(r, f).limitations <==>
              || (note in r.limitations && forall name :: name in REPLACED ==> !(name + ":" <= note))
              || exists c :: c in Reverified(r, f).checks && !c.passed && note == c.name + ": " + c.detail
  {
    FilterKeeps(r.limitations, KeepsNote);
    LimitationsOf(r, f);
    NotesAre(Reverified(r, f).checks, note);
    forall name | name in REPLACED
      ensures StartsWith(note, name + ":") <==> name + ":" <= note
    {
    }
  }
}
