/**
 A verdict for every material claim of an answer, the checks that read the
 verdicts, and the report they add up to (backend/agents/verifier.py). What a
 sentence matches is left to the patterns: they are functions here.
 */
module ClaimVerdicts {
  import opened Wrappers

  datatype Kind = Recommendation | Engineering | Numerical | Procedural | Factual

  datatype Value = Supported | Calculated | Conflicted | Unsupported | RequiresHumanDecision

  datatype Candidate = Candidate(stated: string, evidenceId: string)

  datatype ConflictKind = InputConflict | RevisionConflict | FactConflict

  datatype ConflictStatus = Unresolved | Resolved | AutoResolved

  datatype Conflict = Conflict(
    kind: ConflictKind, status: ConflictStatus, high: bool, candidates: seq<Candidate>, resolution: Option<string>)

  /** What the patterns say about a sentence or a text. */
  datatype Patterns = Patterns(
    decision: string -> bool,
    engineering: string -> bool,
    quantity: string -> bool,
    procedural: string -> bool,
    withholding: string -> bool,
    conclusions: string -> seq<string>,     // rates, lives and severities stated
    figures: string -> bool,                // any rate or life at all
    namesValue: (string, string) -> bool,
    mentions: (string, Conflict) -> bool,
    cited: string -> seq<string>,           // the evidence a sentence cites that there is
    material: string -> seq<string>)

  datatype Status = Computed | Disputed | Missing

  /** The assessment, with what the registry makes of a sentence. */
  datatype Assessment = Assessment(
    status: Status,
    decision: seq<string>,                   // the record of the decision, if there is one
    contradicts: string -> bool,
    judged: string -> bool,                  // names the authority or the basis
    restates: string -> Option<seq<string>>) // the records that computed what it says

  datatype Verdict = Verdict(text: string, kind: Kind, value: Value, ids: seq<string>)

  datatype Ruling = Ruling(value: Value, ids: seq<string>)

  /** What a passage of the evidence carries. */
  type Passages = string -> Option<seq<string>>

  datatype Check = Check(name: string, passed: bool, detail: string)

  datatype Report = Report(valid: bool, checks: seq<Check>, total: nat, supported: nat, limitations: seq<string>)

  // --- small lists ---------------------------------------------------------

  function Filter<T>(s: seq<T>, keep: T -> bool): seq<T>
  {
    if s == [] then [] else (if keep(s[0]) then [s[0]] else []) + Filter(s[1..], keep)
  }

  lemma {:induction false} FilterKeeps<T>(s: seq<T>, keep: T -> bool)
    ensures forall x :: x in Filter(s, keep) <==> x in s && keep(x)
  {
    if s != [] {
      FilterKeeps(s[1..], keep);
      assert s == [s[0]] + s[1..];
    }
  }

  lemma FilterCons<T>(x: T, rest: seq<T>, keep: T -> bool)
    ensures Filter([x] + rest, keep) == (if keep(x) then [x] else []) + Filter(rest, keep)
  {
    assert ([x] + rest)[1..] == rest;
  }

  lemma {:induction false} FilterAppend<T>(s: seq<T>, x: T, keep: T -> bool)
    ensures Filter(s + [x], keep) == Filter(s, keep) + if keep(x) then [x] else []
  {
    if s == [] {
      FilterCons(x, [], keep);
      assert s + [x] == [x] + [];
    } else {
      var first, rest := s[0], s[1..];
      FilterAppend(rest, x, keep);
      FilterCons(first, rest + [x], keep);
      FilterCons(first, rest, keep);
      assert s == [first] + rest && s + [x] == [first] + (rest + [x]);
    }
  }

  lemma {:induction false} FilterTwice<T>(s: seq<T>, keep: T -> bool)
    ensures Filter(Filter(s, keep), keep) == Filter(s, keep)
  {
    if s != [] {
      FilterTwice(s[1..], keep);
      if keep(s[0]) {
        assert Filter(s, keep)[1..] == Filter(s[1..], keep);
      } else {
        assert Filter(s, keep) == Filter(s[1..], keep);
      }
    }
  }

  function Sources(candidates: seq<Candidate>): seq<string>
  {
    if candidates == [] then [] else [candidates[0].evidenceId] + Sources(candidates[1..])
  }

  function AllSources(conflicts: seq<Conflict>): seq<string>
  {
    if conflicts == [] then [] else Sources(conflicts[0].candidates) + AllSources(conflicts[1..])
  }

  function Resolutions(conflicts: seq<Conflict>): seq<string>
  {
    if conflicts == [] then []
    else (if conflicts[0].resolution.Some? then [conflicts[0].resolution.value] else []) + Resolutions(conflicts[1..])
  }

  // --- one claim -----------------------------------------------------------

  function KindOf(p: Patterns, claim: string): Kind
  {
    if p.decision(claim) then Recommendation
    else if p.engineering(claim) then Engineering
    else if p.quantity(claim) then Numerical
    else if p.procedural(claim) then Procedural
    else Factual
  }

  predicate DependsOnInputs(kind: Kind)
  {
    kind.Engineering? || kind.Numerical? || kind.Recommendation?
  }

  predicate IsInput(c: Conflict) { c.kind == InputConflict }

  predicate IsOpenInput(c: Conflict) { c.kind == InputConflict && c.status == Unresolved && c.high }

  predicate IsOpenFact(c: Conflict) { c.kind == FactConflict && c.status == Unresolved }

  function Named(p: Patterns, claim: string, c: Conflict): seq<Candidate>
  {
    Filter(c.candidates, (x: Candidate) => p.namesValue(claim, x.stated))
  }

  /** What one open input conflict makes of a claim. */
  function InputRuling(p: Patterns, claim: string, c: Conflict): Option<Ruling>
  {
    var named := |Named(p, claim, c)|;
    if p.conclusions(claim) != [] && DependsOnInputs(KindOf(p, claim)) then Some(Ruling(Conflicted, Sources(c.candidates)))
    else if named == 1 && |c.candidates| > 1 then Some(Ruling(Conflicted, Sources(c.candidates)))
    else if named > 1 then Some(Ruling(Supported, Sources(c.candidates)))
    else None
  }

  function FactRuling(p: Patterns, claim: string, c: Conflict): Option<Ruling>
  {
    var named := |Named(p, claim, c)|;
    if !p.mentions(claim, c) || named == 0 then None
    else Some(Ruling(if named == 1 then Conflicted else Supported, Sources(c.candidates)))
  }

  /** The loops stop at the first conflict that yields anything. */
  function FirstRuling(conflicts: seq<Conflict>, rule: Conflict -> Option<Ruling>): Option<Ruling>
  {
    if conflicts == [] then None
    else if rule(conflicts[0]).Some? then rule(conflicts[0])
    else FirstRuling(conflicts[1..], rule)
  }

  function ConflictRuling(p: Patterns, conflicts: seq<Conflict>, claim: string): Option<Ruling>
  {
    var byInput := FirstRuling(Filter(conflicts, IsOpenInput), (c: Conflict) => InputRuling(p, claim, c));
    if byInput.Some? then byInput
    else FirstRuling(Filter(conflicts, IsOpenFact), (c: Conflict) => FactRuling(p, claim, c))
  }

  /** `check_engineering` on a text. */
  predicate EngineeringPasses(p: Patterns, a: Assessment, text: string)
  {
    match a.status
    case Disputed => p.conclusions(text) == []
    case Missing => !p.figures(text)
    case Computed => !a.contradicts(text)
  }

  predicate JudgedByRegistry(p: Patterns, assessment: Option<Assessment>, claim: string)
  {
    assessment.Some? && assessment.value.status == Computed &&
    (KindOf(p, claim) in {Engineering, Numerical, Procedural} || assessment.value.judged(claim))
  }

  predicate Withholds(p: Patterns, conflicts: seq<Conflict>, claim: string)
  {
    Filter(conflicts, IsInput) != [] && p.withholding(claim) && p.conclusions(claim) == []
  }

  function Judge(
      p: Patterns, assessment: Option<Assessment>, conflicts: seq<Conflict>, passages: Passages, claim: string): Ruling
  {
    var inputs := Filter(conflicts, IsInput);
    if Withholds(p, conflicts, claim) then Ruling(Supported, AllSources(inputs) + Resolutions(inputs))
    else if ConflictRuling(p, conflicts, claim).Some? then ConflictRuling(p, conflicts, claim).value
    else if KindOf(p, claim) == Recommendation then Ruling(RequiresHumanDecision, p.cited(claim))
    else if JudgedByRegistry(p, assessment, claim) && assessment.value.contradicts(claim) then Ruling(Unsupported, assessment.value.decision)
    else if JudgedByRegistry(p, assessment, claim) && assessment.value.restates(claim).Some? then
      Ruling(Calculated, assessment.value.restates(claim).value)
    else if passages(claim).Some? then Ruling(Supported, passages(claim).value)
    else Ruling(Unsupported, p.cited(claim))
  }

  /** Verdicts carry the first 400 characters of their claim. */
  function Shortened(claim: string): string
  {
    if |claim| <= 400 then claim else claim[..400]
  }

  function VerdictOn(
      p: Patterns, assessment: Option<Assessment>, conflicts: seq<Conflict>, passages: Passages, claim: string): Verdict
  {
    var ruling := Judge(p, assessment, conflicts, passages, claim);
    Verdict(Shortened(claim), KindOf(p, claim), ruling.value, ruling.ids)
  }

  // --- what disputed inputs do to a claim ----------------------------------

  lemma {:induction false} FirstRulingIsFirst(conflicts: seq<Conflict>, rule: Conflict -> Option<Ruling>)
    ensures FirstRuling(conflicts, rule).None? <==> forall k :: 0 <= k < |conflicts| ==> rule(conflicts[k]).None?
    ensures forall k :: 0 <= k < |conflicts| && rule(conflicts[k]).Some? && (forall j :: 0 <= j < k ==> rule(conflicts[j]).None?) ==>
              FirstRuling(conflicts, rule) == rule(conflicts[k])
  {
    if conflicts != [] {
      FirstRulingIsFirst(conflicts[1..], rule);
      forall k | 0 <= k < |conflicts| && rule(conflicts[k]).Some? && (forall j :: 0 <= j < k ==> rule(conflicts[j]).None?)
        ensures FirstRuling(conflicts, rule) == rule(conflicts[k])
      {
        if k > 0 {
          assert conflicts[1..][k - 1] == conflicts[k];
          assert forall j :: 0 <= j < k - 1 ==> conflicts[1..][j] == conflicts[j + 1];
        }
      }
      assert forall k :: 1 <= k < |conflicts| ==> conflicts[k] == conflicts[1..][k - 1];
    }
  }

  /**
   While a high-impact input is disputed, a claim that states a conclusion, of a kind that
   depends on the inputs, is CONFLICTED whatever it cites and whatever the registry computed.
   */
  lemma DisputedConclusionIsConflicted(
      p: Patterns, assessment: Option<Assessment>, conflicts: seq<Conflict>, passages: Passages, claim: string, c: Conflict)
    requires c in conflicts && IsOpenInput(c)
    requires p.conclusions(claim) != [] && DependsOnInputs(KindOf(p, claim))
    ensures VerdictOn(p, assessment, conflicts, passages, claim).value == Conflicted
  {
    FilterKeeps(conflicts, IsOpenInput);
    assert Filter(conflicts, IsOpenInput) != [];
    assert InputRuling(p, claim, Filter(conflicts, IsOpenInput)[0]).Some?;
  }

  /** Stating a conclusion is enough exactly where the kind depends on the inputs: otherwise the values named decide. */
  lemma OnlyDependentKindsAreCaught(
      p: Patterns, assessment: Option<Assessment>, conflicts: seq<Conflict>, passages: Passages, claim: string, c: Conflict)
    requires c in conflicts && IsOpenInput(c) && p.conclusions(claim) != []
    requires forall d :: d in conflicts ==> Named(p, claim, d) == []
    ensures VerdictOn(p, assessment, conflicts, passages, claim).value == Conflicted <==> DependsOnInputs(KindOf(p, claim))
  {
    if DependsOnInputs(KindOf(p, claim)) {
      DisputedConclusionIsConflicted(p, assessment, conflicts, passages, claim, c);
    } else {
      FilterKeeps(conflicts, IsOpenInput);
      FilterKeeps(conflicts, IsOpenFact);
      var inputs, facts := Filter(conflicts, IsOpenInput), Filter(conflicts, IsOpenFact);
      FirstRulingIsFirst(inputs, (d: Conflict) => InputRuling(p, claim, d));
      FirstRulingIsFirst(facts, (d: Conflict) => FactRuling(p, claim, d));
      assert forall k :: 0 <= k < |inputs| ==> inputs[k] in conflicts;
      assert forall k :: 0 <= k < |facts| ==> facts[k] in conflicts;
    }
  }

  /** A disposition is never the registry's or a passage's to settle. */
  lemma DispositionsAreForAPerson(
      p: Patterns, assessment: Option<Assessment>, conflicts: seq<Conflict>, passages: Passages, claim: string)
    requires KindOf(p, claim) == Recommendation
    ensures var value := VerdictOn(p, assessment, conflicts, passages, claim).value;
            && value != Calculated && value != Unsupported
            && (value == RequiresHumanDecision <==>
                  !Withholds(p, conflicts, claim) && ConflictRuling(p, conflicts, claim).None?)
            && VerdictOn(p, None, conflicts, (_: string) => None, claim).value == value
  {
    FirstRulingValues(p, conflicts, claim);
  }

  lemma {:induction false} RulingsOfRule(conflicts: seq<Conflict>, rule: Conflict -> Option<Ruling>)
    requires forall c :: rule(c).Some? ==> rule(c).value.value in {Conflicted, Supported}
    ensures FirstRuling(conflicts, rule).Some? ==> FirstRuling(conflicts, rule).value.value in {Conflicted, Supported}
  {
    if conflicts != [] {
      RulingsOfRule(conflicts[1..], rule);
    }
  }

  lemma FirstRulingValues(p: Patterns, conflicts: seq<Conflict>, claim: string)
    ensures ConflictRuling(p, conflicts, claim).Some? ==>
              ConflictRuling(p, conflicts, claim).value.value in {Conflicted, Supported}
  {
    RulingsOfRule(Filter(conflicts, IsOpenInput), (c: Conflict) => InputRuling(p, claim, c));
    RulingsOfRule(Filter(conflicts, IsOpenFact), (c: Conflict) => FactRuling(p, claim, c));
  }

  /** A claim taking one side of a disputed input, as opposed to reporting the dispute. */
  predicate TakesASide(p: Patterns, claim: string, c: Conflict)
  {
    |Named(p, claim, c)| == 1 && |c.candidates| > 1
  }

  predicate ReportsBoth(p: Patterns, claim: string, c: Conflict)
  {
    |Named(p, claim, c)| > 1
  }

  /** A conclusion stated by a claim whose kind depends on the inputs. */
  predicate StatesDependent(p: Patterns, claim: string)
  {
    p.conclusions(claim) != [] && DependsOnInputs(KindOf(p, claim))
  }

  /**
   With several disputed inputs the first one the claim touches decides. A claim taking a side is CONFLICTED
   exactly when it states a conclusion that depends on the inputs, or when it does not read as withholding
   and no conflict before that one is reported in full.
   */
  lemma TakingASideIsCaughtIff(
      p: Patterns, assessment: Option<Assessment>, conflicts: seq<Conflict>, passages: Passages, claim: string, k: nat)
    requires var open := Filter(conflicts, IsOpenInput);
             k < |open| && TakesASide(p, claim, open[k]) && forall j :: 0 <= j < k ==> !TakesASide(p, claim, open[j])
    ensures var open := Filter(conflicts, IsOpenInput);
            VerdictOn(p, assessment, conflicts, passages, claim).value == Conflicted <==>
              || StatesDependent(p, claim)
              || (!Withholds(p, conflicts, claim) && forall j :: 0 <= j < k ==> !ReportsBoth(p, claim, open[j]))
  {
    var open := Filter(conflicts, IsOpenInput);
    if StatesDependent(p, claim) {
      FilterKeeps(conflicts, IsOpenInput);
      assert open[k] in open;
      DisputedConclusionIsConflicted(p, assessment, conflicts, passages, claim, open[k]);
    } else {
      FirstTouched(p, open, claim, k, 0);
      assert open[0..] == open;
    }
  }

  /**
   A claim with a word of withholding and no conclusion is SUPPORTED while there is any input conflict, open or
   settled, whichever side of it the claim takes.
   */
  lemma WithholdingCoversASide(
      p: Patterns, assessment: Option<Assessment>, conflicts: seq<Conflict>, passages: Passages, claim: string, c: Conflict)
    requires c in conflicts && IsInput(c) && p.withholding(claim) && p.conclusions(claim) == []
    ensures VerdictOn(p, assessment, conflicts, passages, claim).value == Supported
    ensures VerdictOn(p, assessment, conflicts, passages, claim).ids ==
            AllSources(Filter(conflicts, IsInput)) + Resolutions(Filter(conflicts, IsInput))
  {
    FilterKeeps(conflicts, IsInput);
    assert c in Filter(conflicts, IsInput);
  }

  lemma {:induction false} FirstTouched(p: Patterns, conflicts: seq<Conflict>, claim: string, k: nat, from: nat)
    requires !StatesDependent(p, claim) && from <= k < |conflicts|
    requires TakesASide(p, claim, conflicts[k])
    requires forall j :: from <= j < k ==> !TakesASide(p, claim, conflicts[j])
    ensures var ruling := FirstRuling(conflicts[from..], (c: Conflict) => InputRuling(p, claim, c));
            ruling.Some? && (ruling.value.value == Conflicted <==> forall j :: from <= j < k ==> !ReportsBoth(p, claim, conflicts[j]))
    decreases k - from
  {
    assert conflicts[from..][0] == conflicts[from] && conflicts[from..][1..] == conflicts[from + 1..];
    if from < k && !ReportsBoth(p, claim, conflicts[from]) {
      FirstTouched(p, conflicts, claim, k, from + 1);
    }
  }

  // --- the checks and the report -------------------------------------------

  predicate Blocks(v: Verdict)
  {
    v.value == Conflicted || (v.value == Unsupported && v.kind == Engineering)
  }

  function VerdictsOn(
      p: Patterns, assessment: Option<Assessment>, conflicts: seq<Conflict>, passages: Passages, claims: seq<string>):
      (verdicts: seq<Verdict>)
    ensures |verdicts| == |claims|
  {
    seq(|claims|, k requires 0 <= k < |claims| => VerdictOn(p, assessment, conflicts, passages, claims[k]))
  }

  function ClaimsCheck(verdicts: seq<Verdict>): Check
  {
    Check("claim_verification", forall k :: 0 <= k < |verdicts| ==> !Blocks(verdicts[k]), "")
  }

  function EngineeringCheck(p: Patterns, a: Assessment, text: string): Check
  {
    Check("engineering_verification", EngineeringPasses(p, a, text), "")
  }

  /** Verdicts that carry their claim: later entries with the same text do not undo an earlier one. */
  predicate Settles(v: Verdict)
  {
    v.value == Calculated || v.value == Supported
  }

  predicate Carried(verdicts: seq<Verdict>, passages: Passages, claim: string)
  {
    (exists k :: 0 <= k < |verdicts| && Settles(verdicts[k]) && verdicts[k].text == Shortened(claim)) || passages(claim).Some?
  }

  function CountCarried(verdicts: seq<Verdict>, passages: Passages, claims: seq<string>): (n: nat)
    ensures n <= |claims|
  {
    if claims == [] then 0
    else CountCarried(verdicts, passages, claims[..|claims| - 1]) +
         (if Carried(verdicts, passages, claims[|claims| - 1]) then 1 else 0)
  }

  function Enough(supported: nat, total: nat, threshold: real): bool
  {
    (if total == 0 then 1.0 else supported as real / total as real) >= threshold
  }

  function Note(c: Check): string
  {
    c.name + ": " + c.detail
  }

  function Notes(checks: seq<Check>): seq<string>
  {
    if checks == [] then []
    else Notes(checks[..|checks| - 1]) + if checks[|checks| - 1].passed then [] else [Note(checks[|checks| - 1])]
  }

  function Compiled(checks: seq<Check>, total: nat, supported: nat, threshold: real, limitations: seq<string>): Report
  {
    var every := checks + [Check("hallucination_check", Enough(supported, total, threshold), "")];
    Report(forall k :: 0 <= k < |every| ==> every[k].passed, every, total, supported, limitations + Notes(every))
  }

  /** A report is valid exactly when every check passed and enough of the claims are carried. */
  lemma ValidIff(checks: seq<Check>, total: nat, supported: nat, threshold: real, limitations: seq<string>)
    ensures Compiled(checks, total, supported, threshold, limitations).valid <==>
              (forall c :: c in checks ==> c.passed) && Enough(supported, total, threshold)
  {
    var every := Compiled(checks, total, supported, threshold, limitations).checks;
    assert every[|checks|].passed <==> Enough(supported, total, threshold);
    assert forall k :: 0 <= k < |checks| ==> every[k] == checks[k];
  }

  /** The checks of a run that bear on the claims; `others` are whatever else was checked. */
  function RunChecks(
      p: Patterns, assessment: Option<Assessment>, verdicts: seq<Verdict>, text: string, others: seq<Check>): seq<Check>
  {
    others
    + (if assessment.Some? then [EngineeringCheck(p, assessment.value, text)] else [])
    + (if verdicts == [] then [] else [ClaimsCheck(verdicts)])
  }

  /**
   While a high-impact input is disputed, no answer with a material claim that
   states a conclusion, of a kind that depends on the inputs, can be reported valid.
   */
  lemma DisputedConclusionInvalidatesTheReport(
      p: Patterns, assessment: Option<Assessment>, conflicts: seq<Conflict>, passages: Passages, text: string,
      others: seq<Check>, supported: nat, threshold: real, limitations: seq<string>, claim: string, c: Conflict)
    requires c in conflicts && IsOpenInput(c)
    requires claim in p.material(text) && p.conclusions(claim) != [] && DependsOnInputs(KindOf(p, claim))
    ensures var verdicts := VerdictsOn(p, assessment, conflicts, passages, p.material(text));
            !Compiled(RunChecks(p, assessment, verdicts, text, others), |verdicts|, supported, threshold, limitations).valid
  {
    var verdicts := VerdictsOn(p, assessment, conflicts, passages, p.material(text));
    var checks := RunChecks(p, assessment, verdicts, text, others);
    var k :| 0 <= k < |p.material(text)| && p.material(text)[k] == claim;
    DisputedConclusionIsConflicted(p, assessment, conflicts, passages, claim, c);
    assert Blocks(verdicts[k]);
    assert checks[|checks| - 1] == ClaimsCheck(verdicts) && ClaimsCheck(verdicts) in checks;
    ValidIff(checks, |verdicts|, supported, threshold, limitations);
  }

  /** And for a disputed assessment, a conclusion anywhere in the answer is enough, material or not. */
  lemma DisputedAssessmentInvalidatesTheReport(
      p: Patterns, a: Assessment, verdicts: seq<Verdict>, text: string,
      others: seq<Check>, total: nat, supported: nat, threshold: real, limitations: seq<string>)
    requires a.status == Disputed && p.conclusions(text) != []
    ensures !Compiled(RunChecks(p, Some(a), verdicts, text, others), total, supported, threshold, limitations).valid
  {
    var checks := RunChecks(p, Some(a), verdicts, text, others);
    assert checks[|others|] == EngineeringCheck(p, a, text) && checks[|others|] in checks;
    ValidIff(checks, total, supported, threshold, limitations);
  }

  /** A claim no rule about conflicts reaches, that a passage carries and the registry does not contradict. */
  ghost predicate CarriedAside(
      p: Patterns, a: Assessment, conflicts: seq<Conflict>, passages: Passages, claim: string)
  {
    && !DependsOnInputs(KindOf(p, claim)) && !a.contradicts(claim) && passages(claim).Some?
    && forall d :: d in conflicts ==> Named(p, claim, d) == []
  }

  lemma CarriedAsideSettles(
      p: Patterns, a: Assessment, conflicts: seq<Conflict>, passages: Passages, claim: string)
    requires CarriedAside(p, a, conflicts, passages, claim)
    ensures Settles(VerdictOn(p, Some(a), conflicts, passages, claim))
  {
    FilterKeeps(conflicts, IsOpenInput);
    FilterKeeps(conflicts, IsOpenFact);
    var inputs, facts := Filter(conflicts, IsOpenInput), Filter(conflicts, IsOpenFact);
    FirstRulingIsFirst(inputs, (d: Conflict) => InputRuling(p, claim, d));
    FirstRulingIsFirst(facts, (d: Conflict) => FactRuling(p, claim, d));
    assert forall k :: 0 <= k < |inputs| ==> inputs[k] in conflicts;
    assert forall k :: 0 <= k < |facts| ==> facts[k] in conflicts;
  }

  lemma {:induction false} AllCarried(verdicts: seq<Verdict>, passages: Passages, claims: seq<string>)
    requires forall claim :: claim in claims ==> passages(claim).Some?
    ensures CountCarried(verdicts, passages, claims) == |claims|
  {
    if claims != [] {
      AllCarried(verdicts, passages, claims[..|claims| - 1]);
    }
  }

  /**
   The kind is what decides once the engineering check passes: conclusions of no kind that depends on the
   inputs are reported valid beside any open conflict whose values they do not name.
   */
  lemma IndependentConclusionsPass(
      p: Patterns, a: Assessment, conflicts: seq<Conflict>, passages: Passages, text: string, threshold: real)
    requires EngineeringPasses(p, a, text) && threshold <= 1.0
    requires forall claim :: claim in p.material(text) ==> CarriedAside(p, a, conflicts, passages, claim)
    ensures var verdicts := VerdictsOn(p, Some(a), conflicts, passages, p.material(text));
            Compiled(RunChecks(p, Some(a), verdicts, text, []), |verdicts|,
                     CountCarried(verdicts, passages, p.material(text)), threshold, []).valid
  {
    var claims := p.material(text);
    var verdicts := VerdictsOn(p, Some(a), conflicts, passages, claims);
    var checks := RunChecks(p, Some(a), verdicts, text, []);
    forall k | 0 <= k < |verdicts|
      ensures !Blocks(verdicts[k])
    {
      assert claims[k] in claims;
      CarriedAsideSettles(p, a, conflicts, passages, claims[k]);
    }
    AllCarried(verdicts, passages, claims);
    ValidIff(checks, |verdicts|, |verdicts|, threshold, []);
  }

  /** A claim alike in its first 400 characters to one that is settled counts as carried, whatever its own verdict. */
  lemma LongClaimsShareAVerdict(
      p: Patterns, assessment: Option<Assessment>, conflicts: seq<Conflict>, passages: Passages,
      claims: seq<string>, one: string, other: string)
    requires one in claims && Shortened(one) == Shortened(other)
    requires Settles(VerdictOn(p, assessment, conflicts, passages, one))
    ensures Carried(VerdictsOn(p, assessment, conflicts, passages, claims), passages, other)
  {
    var verdicts := VerdictsOn(p, assessment, conflicts, passages, claims);
    var k :| 0 <= k < |claims| && claims[k] == one;
    assert Settles(verdicts[k]) && verdicts[k].text == Shortened(other);
  }

  /** For claims of at most 400 characters the verdict is their own: a disputed or unsupported one is not carried by it. */
  lemma {:induction false} ShortClaimsKeepTheirVerdict(
      p: Patterns, assessment: Option<Assessment>, conflicts: seq<Conflict>, passages: Passages, claims: seq<string>, claim: string)
    requires forall other :: other in claims ==> |other| <= 400
    requires claim in claims && passages(claim).None?
    ensures Carried(VerdictsOn(p, assessment, conflicts, passages, claims), passages, claim) <==>
              Settles(VerdictOn(p, assessment, conflicts, passages, claim))
  {
    var verdicts := VerdictsOn(p, assessment, conflicts, passages, claims);
    var k :| 0 <= k < |claims| && claims[k] == claim;
    assert verdicts[k] == VerdictOn(p, assessment, conflicts, passages, claim);
    forall j | 0 <= j < |verdicts| && verdicts[j].text == Shortened(claim)
      ensures verdicts[j] == VerdictOn(p, assessment, conflicts, passages, claim)
    {
      assert claims[j] in claims && claims[j] == claim;
    }
  }

  // --- checking again after a resolution -----------------------------------

  const REPLACED: set<string> := {
    "engineering_verification", "claim_verification", "calculation_verification",
    "hallucination_check", "source_verification"}

  predicate Keeps(c: Check)
  {
    c.name !in REPLACED
  }

  predicate StartsWith(s: string, prefix: string)
  {
    |prefix| <= |s| && s[..|prefix|] == prefix
  }

  predicate KeepsNote(note: string)
  {
    forall name :: name in REPLACED ==> !StartsWith(note, name + ":")
  }

  /** The fresh checks of a re-verification, before and after the ones kept. */
  datatype Fresh = Fresh(
    sources: Check, calculation: Option<Check>, engineering: Option<Check>, claims: Option<Check>,
    total: nat, supported: nat, threshold: real)

  predicate WellNamed(f: Fresh)
  {
    && f.sources.name == "source_verification"
    && (f.calculation.Some? ==> f.calculation.value.name == "calculation_verification")
    && (f.engineering.Some? ==> f.engineering.value.name == "engineering_verification")
    && (f.claims.Some? ==> f.claims.value.name == "claim_verification")
  }

  function Listed(c: Option<Check>): seq<Check>
  {
    if c.Some? then [c.value] else []
  }

  function Reverified(r: Report, f: Fresh): Report
  {
    var kept := Filter(r.checks, Keeps);
    Compiled([f.sources] + Listed(f.calculation) + kept + Listed(f.engineering) + Listed(f.claims),
             f.total, f.supported, f.threshold, Filter(r.limitations, KeepsNote))
  }

  lemma {:induction false} FilterConcat<T>(a: seq<T>, b: seq<T>, keep: T -> bool)
    ensures Filter(a + b, keep) == Filter(a, keep) + Filter(b, keep)
  {
    if b == [] {
      assert a + b == a && Filter(b, keep) == [];
    } else {
      var front, last := b[..|b| - 1], b[|b| - 1];
      FilterConcat(a, front, keep);
      FilterAppend(a + front, last, keep);
      FilterAppend(front, last, keep);
      assert a + b == (a + front) + [last] && b == front + [last];
    }
  }

  lemma {:induction false} FilterNone<T>(s: seq<T>, keep: T -> bool)
    requires forall x :: x in s ==> !keep(x)
    ensures Filter(s, keep) == []
  {
    if s != [] {
      assert s[0] in s;
      FilterNone(s[1..], keep);
    }
  }

  lemma FilterMiddle<T>(front: seq<T>, middle: seq<T>, back: seq<T>, keep: T -> bool)
    requires forall x :: x in front || x in back ==> !keep(x)
    ensures Filter(front + middle + back, keep) == Filter(middle, keep)
  {
    FilterConcat(front + middle, back, keep);
    FilterConcat(front, middle, keep);
    FilterNone(front, keep);
    FilterNone(back, keep);
  }

  lemma KeptAreKept(r: Report, f: Fresh)
    requires WellNamed(f)
    ensures Filter(Reverified(r, f).checks, Keeps) == Filter(r.checks, Keeps)
  {
    var front := [f.sources] + Listed(f.calculation);
    var back := Listed(f.engineering) + Listed(f.claims)
                + [Check("hallucination_check", Enough(f.supported, f.total, f.threshold), "")];
    assert Reverified(r, f).checks == front + Filter(r.checks, Keeps) + back;
    FilterTwice(r.checks, Keeps);
    FilterMiddle(front, Filter(r.checks, Keeps), back, Keeps);
  }

  /** Checking again with nothing changed gives the same checks and the same answer. */
  lemma ReverifyingKeepsTheChecks(r: Report, f: Fresh)
    requires WellNamed(f)
    ensures Reverified(Reverified(r, f), f).checks == Reverified(r, f).checks
    ensures Reverified(Reverified(r, f), f).valid == Reverified(r, f).valid
  {
    KeptAreKept(r, f);
  }

  predicate Plain(name: string)
  {
    ':' !in name
  }

  /** A note is dropped with its check: the name before its first colon is one of those replaced. */
  lemma NoteKeptIff(c: Check)
    requires Plain(c.name)
    ensures KeepsNote(Note(c)) <==> Keeps(c)
  {
    var note := Note(c);
    assert note[..|c.name|] == c.name && note[|c.name|] == ':';
    if Keeps(c) {
      forall name | name in REPLACED
        ensures !StartsWith(note, name + ":")
      {
        assert Plain(name);
        if |name| < |c.name| {
          assert note[|name|] == c.name[|name|] != ':' && (name + ":")[|name|] == ':';
        } else if |name| > |c.name| {
          assert (name + ":")[|c.name|] == name[|c.name|] != ':';
        } else {
          assert note[..|name| + 1][..|name|] == c.name && (name + ":")[..|name|] == name;
        }
      }
    } else {
      assert note[..|c.name| + 1] == c.name + ":";
      assert StartsWith(note, c.name + ":");
    }
  }

  lemma {:induction false} NotesKeptIff(checks: seq<Check>)
    requires forall c :: c in checks ==> Plain(c.name)
    ensures Filter(Notes(checks), KeepsNote) == [] <==> forall c :: c in checks && Keeps(c) ==> c.passed
  {
    if checks != [] {
      var front, last := checks[..|checks| - 1], checks[|checks| - 1];
      NotesKeptIff(front);
      assert checks == front + [last];
      NoteKeptIff(last);
      FilterAppend(Notes(front), Note(last), KeepsNote);
      if last.passed {
        assert Notes(checks) == Notes(front);
      }
    }
  }

  /**
   What re-verification does not settle: the note of a check it keeps is written
   again each time, so the limitations come out the same exactly when no kept check has failed.
   */
  lemma LimitationsRepeatIff(r: Report, f: Fresh)
    requires WellNamed(f) && forall c :: c in Reverified(r, f).checks ==> Plain(c.name)
    ensures Reverified(Reverified(r, f), f).limitations == Reverified(r, f).limitations <==>
              forall c :: c in Reverified(r, f).checks && Keeps(c) ==> c.passed
  {
    var once := Reverified(r, f);
    ReverifyingKeepsTheChecks(r, f);
    NotesKeptIff(once.checks);
    FilterTwice(r.limitations, KeepsNote);
    RepeatsIff(Filter(r.limitations, KeepsNote), Notes(once.checks));
    LimitationsOf(r, f);
    LimitationsOf(once, f);
  }

  lemma LimitationsOf(r: Report, f: Fresh)
    ensures Reverified(r, f).limitations == Filter(r.limitations, KeepsNote) + Notes(Reverified(r, f).checks)
  {
  }

  lemma RepeatsIff(kept: seq<string>, notes: seq<string>)
    requires Filter(kept, KeepsNote) == kept
    ensures Filter(kept + notes, KeepsNote) + notes == kept + notes <==> Filter(notes, KeepsNote) == []
  {
    FilterConcat(kept, notes, KeepsNote);
    var again := Filter(notes, KeepsNote);
    assert |kept + again + notes| == |kept + notes| + |again|;
    if again == [] {
      assert kept + again == kept;
    }
  }

  // --- the engine's loops --------------------------------------------------

  /** The two conflict loops of `claim_verdicts`. */
  method RuleOnConflicts(p: Patterns, conflicts: seq<Conflict>, claim: string) returns (ruling: Option<Ruling>)
    ensures ruling == ConflictRuling(p, conflicts, claim)
  {
    var openInputs, openFacts := Filter(conflicts, IsOpenInput), Filter(conflicts, IsOpenFact);
    ruling := None;
    ghost var byInput := (c: Conflict) => InputRuling(p, claim, c);
    var i := 0;
    while i < |openInputs| && ruling.None?
      invariant 0 <= i <= |openInputs|
      invariant FirstRuling(openInputs, byInput) == if ruling.Some? then ruling else FirstRuling(openInputs[i..], byInput)
    {
      var named := Named(p, claim, openInputs[i]);
      assert openInputs[i..][0] == openInputs[i] && openInputs[i..][1..] == openInputs[i + 1..];
      if p.conclusions(claim) != [] && DependsOnInputs(KindOf(p, claim)) {
        ruling := Some(Ruling(Conflicted, Sources(openInputs[i].candidates)));
      } else if |named| == 1 && |openInputs[i].candidates| > 1 {
        ruling := Some(Ruling(Conflicted, Sources(openInputs[i].candidates)));
      } else if |named| > 1 {
        ruling := Some(Ruling(Supported, Sources(openInputs[i].candidates)));
      }
      i := i + 1;
    }
    if ruling.Some? {
      return;
    }
    ghost var byFact := (c: Conflict) => FactRuling(p, claim, c);
    i := 0;
    while i < |openFacts| && ruling.None?
      invariant 0 <= i <= |openFacts|
      invariant FirstRuling(openFacts, byFact) == if ruling.Some? then ruling else FirstRuling(openFacts[i..], byFact)
    {
      var named := Named(p, claim, openFacts[i]);
      assert openFacts[i..][0] == openFacts[i] && openFacts[i..][1..] == openFacts[i + 1..];
      if p.mentions(claim, openFacts[i]) {
        if |named| == 1 {
          ruling := Some(Ruling(Conflicted, Sources(openFacts[i].candidates)));
        } else if |named| > 1 {
          ruling := Some(Ruling(Supported, Sources(openFacts[i].candidates)));
        }
      }
      i := i + 1;
    }
  }

  /** `claim_verdicts`: one verdict for each material claim, in order. */
  method JudgeClaims(
      p: Patterns, assessment: Option<Assessment>, conflicts: seq<Conflict>, passages: Passages, text: string)
      returns (verdicts: seq<Verdict>)
    ensures verdicts == VerdictsOn(p, assessment, conflicts, passages, p.material(text))
  {
    var claims := p.material(text);
    verdicts := [];
    for k := 0 to |claims|
      invariant |verdicts| == k
      invariant forall j :: 0 <= j < k ==> verdicts[j] == VerdictOn(p, assessment, conflicts, passages, claims[j])
    {
      var claim := claims[k];
      var kind := KindOf(p, claim);
      var inputs := Filter(conflicts, IsInput);
      var ruling: Ruling;
      if inputs != [] && p.withholding(claim) && p.conclusions(claim) == [] {
        ruling := Ruling(Supported, AllSources(inputs) + Resolutions(inputs));
      } else {
        var conflicted := RuleOnConflicts(p, conflicts, claim);
        if conflicted.Some? {
          ruling := conflicted.value;
        } else if kind == Recommendation {
          ruling := Ruling(RequiresHumanDecision, p.cited(claim));
        } else {
          ruling := JudgeOnEvidence(p, assessment, passages, claim);
        }
      }
      verdicts := verdicts + [Verdict(Shortened(claim), kind, ruling.value, ruling.ids)];
    }
  }

  method JudgeOnEvidence(p: Patterns, assessment: Option<Assessment>, passages: Passages, claim: string) returns (ruling: Ruling)
    requires KindOf(p, claim) != Recommendation
    ensures forall conflicts :: !Withholds(p, conflicts, claim) && ConflictRuling(p, conflicts, claim).None? ==>
              ruling == Judge(p, assessment, conflicts, passages, claim)
  {
    if JudgedByRegistry(p, assessment, claim) {
      if assessment.value.contradicts(claim) {
        return Ruling(Unsupported, assessment.value.decision);
      }
      if assessment.value.restates(claim).Some? {
        return Ruling(Calculated, assessment.value.restates(claim).value);
      }
    }
    if passages(claim).Some? {
      return Ruling(Supported, passages(claim).value);
    }
    return Ruling(Unsupported, p.cited(claim));
  }

  /** `check_claims`. */
  method CheckClaims(verdicts: seq<Verdict>) returns (check: Check, blocking: seq<Verdict>)
    ensures check == ClaimsCheck(verdicts)
    ensures blocking == Filter(verdicts, Blocks)
  {
    blocking := [];
    for k := 0 to |verdicts|
      invariant blocking == Filter(verdicts[..k], Blocks)
    {
      assert verdicts[..k + 1] == verdicts[..k] + [verdicts[k]];
      FilterAppend(verdicts[..k], verdicts[k], Blocks);
      if Blocks(verdicts[k]) {
        blocking := blocking + [verdicts[k]];
      }
    }
    assert verdicts[..|verdicts|] == verdicts;
    FilterKeeps(verdicts, Blocks);
    if blocking != [] {
      assert blocking[0] in Filter(verdicts, Blocks);
    }
    check := Check("claim_verification", blocking == [], "");
  }

  /** `compile_report`. */
  method CompileReport(
      p: Patterns, checks: seq<Check>, text: string, passages: Passages, verdicts: seq<Verdict>,
      limitations: seq<string>, threshold: real)
      returns (report: Report)
    ensures report == Compiled(checks, |p.material(text)|, CountCarried(verdicts, passages, p.material(text)), threshold, limitations)
  {
    var material := p.material(text);
    var supported: nat := 0;
    for k := 0 to |material|
      invariant supported == CountCarried(verdicts, passages, material[..k])
    {
      assert material[..k + 1][..k] == material[..k];
      if Carried(verdicts, passages, material[k]) {
        supported := supported + 1;
      }
    }
    assert material[..|material|] == material;
    var every := checks + [Check("hallucination_check", Enough(supported, |material|, threshold), "")];
    var notes: seq<string> := [];
    var valid := true;
    for k := 0 to |every|
      invariant notes == Notes(every[..k])
      invariant valid <==> forall j :: 0 <= j < k ==> every[j].passed
    {
      assert every[..k + 1][..k] == every[..k];
      if !every[k].passed {
        notes := notes + [Note(every[k])];
        valid := false;
      }
    }
    assert every[..|every|] == every;
    return Report(valid, every, |material|, supported, limitations + notes);
  }
}
