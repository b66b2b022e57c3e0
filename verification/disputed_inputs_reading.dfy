/**
 What merging keeps of the sources, what a dispute lists, and which record an
 assessment is made from (backend/engineering/extraction.py, backend/engineering/stage.py).
 */
module DisputedInputsReading {
  import opened Wrappers
  import opened DisputedInputs
  import V = ClaimVerdicts

  /** The first statement on a field. */
  ghost predicate FirstSaid(said: seq<Statement>, f: Field, i: nat)
  {
    i < |said| && said[i].field == f && forall j :: 0 <= j < i ==> said[j].field != f
  }

  lemma MergedMore(said: seq<Statement>, s: Statement)
    ensures MergeAll(said + [s]) == MergeOne(MergeAll(said), s)
  {
    assert (said + [s])[..|said|] == said;
  }

  /** The value in force is the one stated first, as it was written there. */
  lemma {:induction false} FirstSaidIsKept(said: seq<Statement>, f: Field, i: nat)
    requires FirstSaid(said, f, i)
    ensures f in MergeAll(said).values && MergeAll(said).values[f] == said[i].bound
  {
    var n := |said| - 1;
    assert said == said[..n] + [said[n]];
    MergedMore(said[..n], said[n]);
    if i < n {
      assert FirstSaid(said[..n], f, i);
      FirstSaidIsKept(said[..n], f, i);
    } else {
      MergedIs(said[..n], f);
      assert forall j :: 0 <= j < n ==> said[..n][j] == said[j];
    }
  }

  ghost predicate SaidOf(said: seq<Statement>, f: Field, value: string)
  {
    exists i :: 0 <= i < |said| && said[i].field == f && said[i].bound.value == value
  }

  lemma OneMoreSaid(front: seq<Statement>, last: Statement, f: Field, value: string)
    ensures SaidOf(front + [last], f, value) <==> SaidOf(front, f, value) || (last.field == f && last.bound.value == value)
  {
    var said := front + [last];
    assert said[|front|] == last && forall i :: 0 <= i < |front| ==> said[i] == front[i];
  }

  // --- what one dispute lists, in order ------------------------------------

  ghost predicate Mentioned(values: seq<Bound>, value: string)
  {
    exists v :: v in values && v.value == value
  }

  /** What is stated of a field: each value once, as it was first written, in that order. */
  ghost function Firsts(said: seq<Statement>, f: Field): seq<Bound>
  {
    if said == [] then []
    else
      var before, last := Firsts(said[..|said| - 1], f), said[|said| - 1];
      if last.field == f && !Mentioned(before, last.bound.value) then before + [last.bound] else before
  }

  ghost predicate OnePerField(disputes: seq<Dispute>)
  {
    disputes == [] || (disputes[0].field !in Fields(disputes[1..]) && OnePerField(disputes[1..]))
  }

  /** What a list of disputes becomes when a value of one field differs from the one in force. */
  ghost predicate Became(disputes: seq<Dispute>, f: Field, mine: Bound, theirs: Bound, d: Dispute)
  {
    || (d.field != f && d in disputes)
    || (d.field == f && f !in Fields(disputes) && d.values == [mine, theirs])
    || (d.field == f && exists e ::
          && e in disputes && e.field == f
          && d.values == if Mentioned(e.values, theirs.value) then e.values else e.values + [theirs])
  }

  lemma PassedOver(first: Dispute, rest: seq<Dispute>, f: Field, mine: Bound, theirs: Bound, d: Dispute)
    requires first.field != f && (d == first || Became(rest, f, mine, theirs, d))
    ensures Became([first] + rest, f, mine, theirs, d)
  {
    FieldsCons(first, rest);
    assert forall x :: x in rest ==> x in [first] + rest;
    assert first in [first] + rest;
  }

  lemma Joined(first: Dispute, rest: seq<Dispute>, f: Field, mine: Bound, theirs: Bound, d: Dispute)
    requires first.field == f && f !in Fields(rest)
    requires d in rest || d == first.(values := if Mentioned(first.values, theirs.value) then first.values else first.values + [theirs])
    ensures Became([first] + rest, f, mine, theirs, d)
  {
    assert first in [first] + rest;
    assert forall x :: x in rest ==> x in [first] + rest && x.field in Fields(rest);
  }

  lemma {:induction false} DisputingIs(disputes: seq<Dispute>, f: Field, mine: Bound, theirs: Bound)
    requires OnePerField(disputes)
    ensures OnePerField(Disputing(disputes, f, mine, theirs))
    ensures forall d :: d in Disputing(disputes, f, mine, theirs) ==> Became(disputes, f, mine, theirs, d)
  {
    if disputes == [] {
      assert [Dispute(f, [mine, theirs])][1..] == [];
    } else {
      var first, rest, all := disputes[0], disputes[1..], Disputing(disputes, f, mine, theirs);
      assert disputes == [first] + rest;
      if first.field != f {
        DisputingIs(rest, f, mine, theirs);
        DisputingAdds(rest, f, mine, theirs);
        assert all[1..] == Disputing(rest, f, mine, theirs);
        forall d | d in all
          ensures Became(disputes, f, mine, theirs, d)
        {
          PassedOver(first, rest, f, mine, theirs, d);
        }
      } else {
        assert all[1..] == rest;
        forall d | d in all
          ensures Became(disputes, f, mine, theirs, d)
        {
          Joined(first, rest, f, mine, theirs, d);
        }
      }
    }
  }

  lemma {:induction false} FirstsStart(said: seq<Statement>, f: Field)
    ensures f !in MergeAll(said).values ==> Firsts(said, f) == []
    ensures f in MergeAll(said).values ==> Firsts(said, f) != [] && Firsts(said, f)[0] == MergeAll(said).values[f]
  {
    if said != [] {
      FirstsStart(said[..|said| - 1], f);
    }
  }

  lemma {:induction false} FirstsAgree(said: seq<Statement>, f: Field)
    requires !Disagree(said, f)
    ensures |Firsts(said, f)| <= 1
    ensures forall v :: v in Firsts(said, f) ==> SaidOf(said, f, v.value)
  {
    if said != [] {
      var n := |said| - 1;
      assert said == said[..n] + [said[n]];
      assert forall i :: 0 <= i < n ==> said[..n][i] == said[i];
      FirstsAgree(said[..n], f);
      OneMoreSaid(said[..n], said[n], f, said[n].bound.value);
      assert Firsts(said[..n], f) != [] ==> Firsts(said[..n], f)[0] in Firsts(said[..n], f);
      forall v | v in Firsts(said[..n], f)
        ensures SaidOf(said, f, v.value)
        ensures said[n].field == f ==> said[n].bound.value == v.value
      {
        OneMoreSaid(said[..n], said[n], f, v.value);
        var i :| 0 <= i < n && said[..n][i].field == f && said[..n][i].bound.value == v.value;
        assert said[i].field == f;
      }
    }
  }

  /** A dispute lists every value stated of its field once, as first written, in the order they were first stated; and a field has one dispute. */
  lemma {:induction false} DisputesAre(said: seq<Statement>)
    ensures OnePerField(MergeAll(said).disputes)
    ensures forall d :: d in MergeAll(said).disputes ==> d.values == Firsts(said, d.field)
  {
    if said != [] {
      var n := |said| - 1;
      var front, last := said[..n], said[n];
      var m, f := MergeAll(front), last.field;
      DisputesAre(front);
      FirstsStart(front, f);
      DisputedIff(front, f);
      if f in m.values && m.values[f].value != last.bound.value {
        DisputingIs(m.disputes, f, m.values[f], last.bound);
        if !Disagree(front, f) {
          FirstsAgree(front, f);
        }
        forall d | d in MergeAll(said).disputes
          ensures d.values == Firsts(said, d.field)
        {
          assert Became(m.disputes, f, m.values[f], last.bound, d);
        }
      } else {
        assert f in m.values ==> Mentioned(Firsts(front, f), last.bound.value);
        forall d | d in m.disputes
          ensures d.values == Firsts(said, d.field)
        {
          MergedIs(front, d.field);
          assert d.field in Fields(m.disputes);
        }
      }
    }
  }

  ghost predicate Holds(disputes: seq<Dispute>, f: Field, value: string)
  {
    exists d :: d in disputes && d.field == f && Mentioned(d.values, value)
  }

  lemma {:induction false} FirstsMention(said: seq<Statement>, f: Field, value: string)
    ensures Mentioned(Firsts(said, f), value) <==> SaidOf(said, f, value)
  {
    if said != [] {
      var n := |said| - 1;
      var before, last := Firsts(said[..n], f), said[n];
      assert said == said[..n] + [last];
      FirstsMention(said[..n], f, value);
      OneMoreSaid(said[..n], last, f, value);
      assert forall v :: v in before + [last.bound] <==> v in before || v == last.bound;
    }
  }

  /** A dispute on a field lists exactly the values sources state for it. */
  lemma DisputeLists(said: seq<Statement>, f: Field, value: string)
    ensures Holds(MergeAll(said).disputes, f, value) <==> Disagree(said, f) && SaidOf(said, f, value)
  {
    DisputesAre(said);
    DisputedIff(said, f);
    FirstsMention(said, f, value);
  }

  lemma {:induction false} WithoutAre(disputes: seq<Dispute>, settled: set<Field>, d: Dispute)
    ensures d in Without(disputes, settled) <==> d in disputes && d.field !in settled
  {
    if disputes != [] {
      WithoutAre(disputes[1..], settled, d);
      assert disputes == [disputes[0]] + disputes[1..];
    }
  }

  lemma WithoutHolds(disputes: seq<Dispute>, settled: set<Field>, f: Field, value: string)
    ensures Holds(Without(disputes, settled), f, value) <==> Holds(disputes, f, value) && f !in settled
  {
    forall d
      ensures d in Without(disputes, settled) <==> d in disputes && d.field !in settled
    {
      WithoutAre(disputes, settled, d);
    }
  }

  /** What a person is shown for a disputed vessel input: each value some source still read states for it. */
  lemma VesselDisputeLists(sources: seq<Source>, o: Overrides, f: Field, value: string)
    ensures Holds(Vessel(sources, o).disputes, f, value) <==>
              var said := Said(Fitting(sources, o));
              f !in o && Disagree(said, f) && SaidOf(said, f, value)
  {
    DisputeLists(Said(Fitting(sources, o)), f, value);
    WithoutHolds(MergeAll(Said(Fitting(sources, o))).disputes, o.Keys, f, value);
  }

  /** In what order: as the sources still read first state them, each once; and a choice takes its own dispute away and no other. */
  lemma VesselDisputesAre(sources: seq<Source>, o: Overrides, d: Dispute)
    ensures d in Vessel(sources, o).disputes ==> d.field !in o && d.values == Firsts(Said(Fitting(sources, o)), d.field)
    ensures d.field !in o ==> (d in Vessel(sources, o).disputes <==> d in MergeAll(Said(Fitting(sources, o))).disputes)
  {
    DisputesAre(Said(Fitting(sources, o)));
    WithoutAre(MergeAll(Said(Fitting(sources, o))).disputes, o.Keys, d);
  }

  /** The value a formula reads: the one chosen, else the one stated first among the sources still read; a choice for a location not read is not used. */
  lemma ValueInForce(sources: seq<Source>, o: Overrides, f: Field)
    ensures var said, values := Said(Fitting(sources, o)), Vessel(sources, o).values;
            && (f in values <==> States(said, f) || (f in o && !f.Reading?))
            && (f in o && f in values ==> values[f] == o[f])
            && (forall i: nat :: FirstSaid(said, f, i) && f !in o ==> f in values && values[f] == said[i].bound)
  {
    var said := Said(Fitting(sources, o));
    MergedIs(said, f);
    forall i: nat | FirstSaid(said, f, i)
      ensures f in MergeAll(said).values && MergeAll(said).values[f] == said[i].bound
    {
      FirstSaidIsKept(said, f, i);
    }
  }

  /** A source is left out exactly when a tag has been chosen and the source names another. */
  lemma {:induction false} FittingAre(sources: seq<Source>, o: Overrides, s: Source)
    ensures s in Fitting(sources, o) <==>
              s in sources && !(Tag in o && TagOf(s).Some? && TagOf(s).value != o[Tag].value)
  {
    if sources != [] {
      var n := |sources| - 1;
      FittingAre(sources[..n], o, s);
      assert sources == sources[..n] + [sources[n]];
    }
  }

  lemma {:induction false} TagIsFirst(s: Source, i: nat)
    requires FirstSaid(s, Tag, i)
    ensures TagOf(s) == Some(s[i].bound.value)
  {
    if i > 0 {
      assert s[0].field != Tag;
      assert forall j :: 0 <= j < i - 1 ==> s[1..][j] == s[j + 1];
      TagIsFirst(s[1..], i - 1);
    }
  }

  /** A disagreement over anything a formula reads withholds a vessel: over any input but its design pressure. */
  lemma VesselIsWithheldIff(files: Files, formulas: Formulas, o: Overrides)
    requires WellRead(files) && Found(Vessel(files.sources, o).values)
    ensures Assess(files, formulas, o).Some?
    ensures Assess(files, formulas, o).value.status == V.Disputed <==>
              exists f :: f !in o && f != Scalar("design_pressure") && Disagree(Said(Fitting(files.sources, o)), f)
    ensures Assess(files, formulas, o).value.status != V.Disputed ==>
              Assess(files, formulas, o).value.status == if formulas.vessel(Vessel(files.sources, o).values) then V.Computed else V.Missing
  {
    var disputes := Vessel(files.sources, o).disputes;
    BlockedIff(disputes);
    if f :| f in Fields(disputes) && High(f) {
      VesselDisputesIff(files.sources, o, f);
      assert f != Scalar("design_pressure");
    }
    if f :| f !in o && f != Scalar("design_pressure") && Disagree(Said(Fitting(files.sources, o)), f) {
      VesselDisputesIff(files.sources, o, f);
      DisagreeingIsStated(files.sources, o, f);
      assert High(f) && f in Fields(disputes);
    }
  }

  /** A vessel record needs a reading and a thickness to compare it with; without one a piping record is assessed, and without that the relief tests. */
  lemma AssessedFrom(files: Files, formulas: Formulas, o: Overrides)
    ensures var values := Vessel(files.sources, o).values;
            var vessel := (exists f :: f in values && f.Reading?) && (Scalar("nominal") in values || Scalar("t_min") in values);
            && (vessel ==> Assess(files, formulas, o).Some? && Assess(files, formulas, o).value.disputes == Vessel(files.sources, o).disputes)
            && (!vessel && files.piping.Some? ==>
                  Assess(files, formulas, o) == Some(Assessed(if files.piping.value then V.Computed else V.Missing, [])))
            && (!vessel && files.piping.None? ==> (Assess(files, formulas, o).None? <==> files.tests == []))
  {
  }

  /** Relief tests are withheld by any disagreement within a test but over the equipment protected. */
  lemma ReliefIsWithheldIff(files: Files, formulas: Formulas, o: Overrides)
    requires WellRead(files) && !Found(Vessel(files.sources, o).values) && files.piping.None? && files.tests != []
    ensures Assess(files, formulas, o).Some?
    ensures Assess(files, formulas, o).value.status == V.Disputed <==>
              exists f :: f !in o && f.Relief? && f.name != "protects" && Disagree(files.tests, f)
  {
    var all := Overridden(MergeAll(files.tests), o).disputes + files.across(o);
    BlockedIff(all);
    if f :| f in Fields(all) && High(f) {
      ReliefDisputes(files, o, f);
    }
    if f :| f !in o && f.Relief? && f.name != "protects" && Disagree(files.tests, f) {
      ReliefDisputes(files, o, f);
      TestFieldIsHigh(files, f);
    }
  }

  lemma TestFieldIsHigh(files: Files, f: Field)
    requires WellRead(files) && Disagree(files.tests, f) && f.Relief? && f.name != "protects"
    ensures High(f)
  {
    var i :| 0 <= i < |files.tests| && files.tests[i].field == f;
    assert files.tests[i] in files.tests;
  }

  // --- the record ----------------------------------------------------------

  /** A conflict is recorded open, with its field's impact, and one candidate for each value, as it was written and where. */
  lemma {:induction false} CandidatesAre(values: seq<Bound>)
    ensures |Candidates(values)| == |values|
    ensures forall k :: 0 <= k < |values| ==> Candidates(values)[k] == V.Candidate(values[k].stated, values[k].evidenceId)
  {
    if values != [] {
      CandidatesAre(values[1..]);
    }
  }

  lemma RecordIs(d: Dispute)
    ensures var r := RecordOf(d);
            && r.field == d.field && r.chosen == None
            && r.conflict.kind == V.InputConflict && r.conflict.status == V.Unresolved && r.conflict.resolution == None
            && r.conflict.high == High(d.field) && r.conflict.candidates == Candidates(d.values)
  {
  }

  /** Recording leaves every conflict already there as it was, in its place. */
  lemma {:induction false} RecordedKeeps(disputes: seq<Dispute>, records: seq<Record>)
    ensures records <= Recorded(disputes, records)
    decreases |disputes|
  {
    if disputes != [] {
      RecordedKeeps(disputes[1..], if Has(records, disputes[0].field) then records else records + [RecordOf(disputes[0])]);
    }
  }

  /** A resolution closes its own conflict with the person's evidence and value, and touches no other already there. */
  lemma ResolvingTouchesOne(files: Files, formulas: Formulas, c: Case, i: nat, bound: Bound, j: nat)
    requires j < |c.records|
    ensures var after := Step(files, formulas, c, Resolve(i, bound)).records;
            && |c.records| <= |after|
            && after[j] == if j == i && c.records[i].conflict.status == V.Unresolved
                           then c.records[i].(conflict := c.records[i].conflict.(status := V.Resolved, resolution := Some(bound.evidenceId)),
                                              chosen := Some(bound))
                           else c.records[j]
  {
    if i < |c.records| && c.records[i].conflict.status == V.Unresolved {
      var records := c.records[i := Settled(c.records[i], bound)];
      if Assess(files, formulas, Chosen(records)).Some? {
        RecordedKeeps(Assess(files, formulas, Chosen(records)).value.disputes, records);
      }
    }
  }

  /** Every dispute found has a record afterwards, and whatever is added is the record of one that had none. */
  lemma {:induction false} RecordedAre(disputes: seq<Dispute>, records: seq<Record>)
    ensures forall d :: d in disputes ==> Has(Recorded(disputes, records), d.field)
    ensures forall r :: r in Recorded(disputes, records) ==>
              r in records || exists d :: d in disputes && !Has(records, d.field) && r == RecordOf(d)
    decreases |disputes|
  {
    if disputes != [] {
      var d, rest := disputes[0], disputes[1..];
      var more := if Has(records, d.field) then records else records + [RecordOf(d)];
      assert disputes == [d] + rest;
      RecordedAre(rest, more);
      RecordedKeeps(rest, more);
      assert !Has(records, d.field) ==> more[|records|] == RecordOf(d);
      assert records <= more;
      KeepsHaving(records, more);
      KeepsHaving(more, Recorded(disputes, records));
    }
  }

  lemma KeepsHaving(records: seq<Record>, more: seq<Record>)
    requires records <= more
    ensures forall f :: Has(records, f) ==> Has(more, f)
  {
    assert forall r :: r in records ==> r in more;
  }

  /** What an assessment leaves on the task: its status, and a record of every dispute it found; without one, what was there. */
  ghost predicate Leaves(assessed: Option<Assessed>, before: Case, after: Case)
  {
    match assessed
    case None => after == before
    case Some(a) =>
      && after.status == Some(a.status) && before.records <= after.records
      && (forall d :: d in a.disputes ==> Has(after.records, d.field))
      && forall r :: r in after.records ==> r in before.records || exists d :: d in a.disputes && !Has(before.records, d.field) && r == RecordOf(d)
  }

  /** The stage assesses with nothing chosen, a resolution with every value chosen so far, its own included; each records what it finds. */
  lemma AssessmentsAreRecorded(files: Files, formulas: Formulas, c: Case, i: nat, bound: Bound)
    ensures Leaves(Assess(files, formulas, map[]), c, Stage(files, formulas, c.records, c.status))
    ensures i < |c.records| && c.records[i].conflict.status == V.Unresolved ==>
              var settled := c.records[i := Settled(c.records[i], bound)];
              Leaves(Assess(files, formulas, Chosen(settled)), c.(records := settled), Step(files, formulas, c, Resolve(i, bound)))
  {
    if Assess(files, formulas, map[]).Some? {
      var disputes := Assess(files, formulas, map[]).value.disputes;
      RecordedAre(disputes, c.records);
      RecordedKeeps(disputes, c.records);
    }
    if i < |c.records| {
      var settled := c.records[i := Settled(c.records[i], bound)];
      if Assess(files, formulas, Chosen(settled)).Some? {
        var disputes := Assess(files, formulas, Chosen(settled)).value.disputes;
        RecordedAre(disputes, settled);
        RecordedKeeps(disputes, settled);
      }
    }
  }

  /** A conflict of another kind joins the task and settles nothing; what is about an input is recorded by the stage alone. */
  lemma NotedIs(files: Files, formulas: Formulas, c: Case, r: Record)
    ensures var after := Step(files, formulas, c, Note(r));
            && after.status == c.status
            && after.records == c.records + if !IsInput(r) && r.field.Other? then [r] else []
  {
  }
}
