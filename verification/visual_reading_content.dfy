/**
 What the items of a vision reading say: whose words they carry, under which
 number, why an answer is refused and when a file fails (backend/agents/orchestrator.py).
 */
module VisualReadingContent {
  import opened Wrappers
  import opened EvidenceLedgers
  import opened VisualReading

  // --- reading a label -----------------------------------------------------

  /** The blank, the tab and the four characters that end a line or a page. */
  const SPACES: set<char> := {' ', '\t', '\n', '\U{0B}', '\U{0C}', '\r'}

  lemma SpacesAre(c: char)
    ensures IsSpace(c) <==> c in SPACES
  {
  }

  /** What is left of a text once space is taken from both ends. */
  ghost predicate Within(s: string, t: string, left: nat, right: nat)
  {
    && left + |t| + right == |s| && t == s[left..|s| - right]
    && (forall i :: 0 <= i < left ==> s[i] in SPACES) && forall i :: |s| - right <= i < |s| ==> s[i] in SPACES
  }

  lemma SpaceBefore(s: string, t: string, left: nat, right: nat)
    requires s != [] && IsSpace(s[0]) && Within(s[1..], t, left, right)
    ensures Within(s, t, left + 1, right)
  {
    SpacesAre(s[0]);
    assert s[1..][left..|s| - 1 - right] == s[left + 1..|s| - right];
    assert forall i :: 0 < i < |s| ==> s[i] == s[1..][i - 1];
  }

  lemma SpaceAfter(s: string, t: string, left: nat, right: nat)
    requires s != [] && IsSpace(s[|s| - 1]) && Within(s[..|s| - 1], t, left, right)
    ensures Within(s, t, left, right + 1)
  {
    SpacesAre(s[|s| - 1]);
    assert s[..|s| - 1][left..|s| - 1 - right] == s[left..|s| - 1 - right];
    assert forall i :: 0 <= i < |s| - 1 ==> s[i] == s[..|s| - 1][i];
  }

  lemma NoSpaceLeft(s: string)
    requires s != [] ==> !IsSpace(s[0]) && !IsSpace(s[|s| - 1])
    ensures Strip(s) == s && Within(s, s, 0, 0)
    ensures s != [] ==> s[0] !in SPACES && s[|s| - 1] !in SPACES
  {
  }

  lemma StripOneMore(s: string)
    ensures s != [] && IsSpace(s[0]) ==> Strip(s) == Strip(s[1..])
    ensures s != [] && !IsSpace(s[0]) && IsSpace(s[|s| - 1]) ==> Strip(s) == Strip(s[..|s| - 1])
  {
  }

  /** Stripping takes the space at both ends and nothing else. */
  lemma {:induction false} StripIs(s: string) returns (left: nat, right: nat)
    ensures Within(s, Strip(s), left, right)
    ensures Strip(s) != [] ==> Strip(s)[0] !in SPACES && Strip(s)[|Strip(s)| - 1] !in SPACES
    decreases |s|
  {
    StripOneMore(s);
    left, right := 0, 0;
    if s == [] || (!IsSpace(s[0]) && !IsSpace(s[|s| - 1])) {
      NoSpaceLeft(s);
    } else if IsSpace(s[0]) {
      left, right := StripIs(s[1..]);
      SpaceBefore(s, Strip(s), left, right);
      left := left + 1;
    } else {
      left, right := StripIs(s[..|s| - 1]);
      SpaceAfter(s, Strip(s), left, right);
      right := right + 1;
    }
  }

  /** A label states a number when it is one, or is a text of digits once stripped. */
  lemma LabelStates(mark: Label, n: int)
    ensures Stated(mark) == Some(n) <==>
              || mark == Number(n)
              || (mark.Text? && Strip(mark.text) != [] && AllDigits(Strip(mark.text)) && Value(Strip(mark.text)) == n)
  {
  }

  /** An entry is filed under the number its label states, or under the one page shown alone. */
  lemma FiledUnder(batch: seq<int>, page: Reported, n: int)
    ensures NumberOf(batch, page) == Some(n) <==>
              page.Page? && (Stated(page.mark) == Some(n) || (Stated(page.mark) == None && |batch| == 1 && batch[0] == n))
  {
  }

  // --- what an accepted answer records -------------------------------------

  /** How the item of a page says its number came about: as the model had it, corrected, or supplied. */
  predicate Says(how: Provenance, mark: Label, number: int)
  {
    match how
    case WithoutLabel => Stated(mark) == None
    case AsLabelled => Stated(mark) == Some(number)
    case Relabelled(n) => Stated(mark) == Some(n) && n != number
  }

  /** The entry filed under this page's number, or, where the model counted from one, under its place in the batch. */
  ghost predicate IsAbout(batch: seq<int>, labels: seq<Option<int>>, i: nat, k: nat)
  {
    && i < |labels| && k < |batch|
    && labels[i] == Some(if Numbers(labels) == Expected(batch) then batch[k] else k + 1)
  }

  lemma PlacedIsAbout(batch: seq<int>, answer: Answer, k: nat)
    requires Distinct(batch) && Place(batch, answer).Ok? && k < |batch|
    ensures |Place(batch, answer).value| == |batch| && Place(batch, answer).value[k] < |answer.value|
    ensures IsAbout(batch, Labels(batch, answer.value), Place(batch, answer).value[k], k)
  {
    var labels := Labels(batch, answer.value);
    MatchedIsExact(batch, labels);
    ByNumberIsExact(labels, |labels|);
    assert labels[..|labels|] == labels;
    var found := ByNumber(labels, |labels|).value;
    IndexedAreLabelled(found, labels);
  }

  /**
   An accepted answer records, for each page of the batch in order, the words of the entry that is about it, under the
   renderer's number, and says how the model had labelled it.
   */
  lemma AcceptedIsRecorded(source: string, batch: seq<int>, answer: Answer, k: nat) returns (i: nat)
    requires Distinct(batch) && Acceptable(batch, answer) && k < |batch|
    ensures Recorded(source, batch, answer).refusal == None && |Recorded(source, batch, answer).added| == |batch|
    ensures IsAbout(batch, Labels(batch, answer.value), i, k) && answer.value[i].Page?
    ensures var r, page := Recorded(source, batch, answer).added[k], answer.value[i];
            r.source == source && r.page == batch[k] && r.content == page.content && Says(r.how, page.mark, batch[k])
  {
    PlaceIsExact(batch, answer);
    PlacedIsRecordable(batch, answer);
    PlacedIsAbout(batch, answer, k);
    i := Place(batch, answer).value[k];
  }

  /** Only one entry is about a page. */
  lemma OneEntryIsAbout(batch: seq<int>, labels: seq<Option<int>>, i: nat, j: nat, k: nat)
    requires Labelled(labels) && IsAbout(batch, labels, i, k) && IsAbout(batch, labels, j, k)
    ensures i == j
  {
  }

  // --- why an answer is refused --------------------------------------------

  /** The first entry that has no number, or one an earlier entry has. */
  ghost predicate FirstFault(labels: seq<Option<int>>, i: nat)
  {
    && i < |labels| && Labelled(labels[..i])
    && (labels[i] == None || exists j :: 0 <= j < i && labels[j] == labels[i])
  }

  lemma FaultOfTable(labels: seq<Option<int>>, i: nat)
    requires FirstFault(labels, i)
    ensures ByNumber(labels, |labels|) == Err(if labels[i] == None then Unlabelled else Twice(labels[i].value))
  {
    ByNumberIsExact(labels, i);
    var found := ByNumber(labels, i).value;
    if labels[i].Some? {
      var j :| 0 <= j < i && labels[j] == labels[i];
      assert labels[..i][j].value in found;
    }
    FirstFaultStands(labels, i + 1, |labels|);
  }

  lemma {:induction false} SomeFault(labels: seq<Option<int>>, n: nat) returns (i: nat)
    requires n <= |labels| && !Labelled(labels[..n])
    ensures FirstFault(labels, i) && i < n
  {
    if Labelled(labels[..n - 1]) {
      i := n - 1;
      assert forall k :: 0 <= k < i ==> labels[..n][k] == labels[..i][k];
      assert labels[..n][i] == labels[i];
    } else {
      i := SomeFault(labels, n - 1);
    }
  }

  /**
   Why an answer is refused: it leaves pages out, its first faulty entry has no number or one already given, its numbers
   are neither the pages' nor one to n, or it leaves a page of several empty.
   */
  lemma RefusedBecause(source: string, batch: seq<int>, answer: Answer)
    requires Distinct(batch)
    ensures var refusal := Recorded(source, batch, answer).refusal;
            var counted := answer.Some? && |answer.value| == |batch|;
            && (!counted ==> refusal == Some(Omitted))
            && (counted ==>
                  var labels := Labels(batch, answer.value);
                  && (forall i: nat :: FirstFault(labels, i) ==>
                        refusal == Some(if labels[i] == None then Unlabelled else Twice(labels[i].value)))
                  && (Labelled(labels) && Numbers(labels) != Expected(batch) && Numbers(labels) != Ordinals(|batch|) ==>
                        refusal == Some(Mismatch))
                  && (Labelled(labels) && (Numbers(labels) == Expected(batch) || Numbers(labels) == Ordinals(|batch|)) ==>
                        refusal == if |batch| > 1 && exists i :: 0 <= i < |batch| && answer.value[i].Page? && answer.value[i].empty
                                   then Some(LeftEmpty) else None))
  {
    if answer.Some? && |answer.value| == |batch| {
      var labels := Labels(batch, answer.value);
      forall i: nat | FirstFault(labels, i)
        ensures Recorded(source, batch, answer).refusal == Some(if labels[i] == None then Unlabelled else Twice(labels[i].value))
      {
        FaultOfTable(labels, i);
      }
      MatchedIsExact(batch, labels);
      ByNumberIsExact(labels, |labels|);
      assert labels[..|labels|] == labels;
      if Labelled(labels) {
        var found := ByNumber(labels, |labels|).value;
        IndexedAreLabelled(found, labels);
        if Matched(batch, labels).Ok? {
          LeavesOneEmptyIff(answer.value, Matched(batch, labels).value);
        }
      }
    }
  }

  // --- retries, batches and files ------------------------------------------

  /** A batch fails when it was refused and its retry was: the same page once more, or some page of it alone. */
  lemma BatchFailsIff(source: string, batch: seq<int>, model: Model)
    requires Distinct(batch)
    ensures Extracted(source, batch, model).refusal.Some? <==>
              && !Acceptable(batch, model(source, batch, 0))
              && (if |batch| == 1 then !Acceptable(batch, model(source, batch, 1))
                  else exists k :: 0 <= k < |batch| && !Acceptable([batch[k]], model(source, [batch[k]], 0)))
  {
    AcceptedIff(source, batch, model(source, batch, 0));
    AcceptedIff(source, batch, model(source, batch, 1));
    OneByOneFailsIff(source, batch, model);
  }

  lemma AcceptedIff(source: string, batch: seq<int>, answer: Answer)
    requires Distinct(batch)
    ensures Recorded(source, batch, answer).refusal == None <==> Acceptable(batch, answer)
  {
    PlaceIsExact(batch, answer);
  }

  lemma {:induction false} OneByOneFailsIff(source: string, pages: seq<int>, model: Model)
    ensures OneByOne(source, pages, model).refusal.Some? <==>
              exists k :: 0 <= k < |pages| && !Acceptable([pages[k]], model(source, [pages[k]], 0))
  {
    if pages != [] {
      AcceptedIff(source, [pages[0]], model(source, [pages[0]], 0));
      OneByOneFailsIff(source, pages[1..], model);
      if k :| 0 <= k < |pages| - 1 && !Acceptable([pages[1..][k]], model(source, [pages[1..][k]], 0)) {
        assert pages[k + 1] == pages[1..][k];
      }
      if k :| 0 < k < |pages| && !Acceptable([pages[k]], model(source, [pages[k]], 0)) {
        assert pages[1..][k - 1] == pages[k];
      }
    }
  }

  /** A file fails exactly when some batch of it does. */
  lemma {:induction false} FileFailsIff(source: string, batches: seq<seq<int>>, model: Model)
    ensures BatchesRead(source, batches, model).refusal.Some? <==>
              exists b :: 0 <= b < |batches| && Extracted(source, batches[b], model).refusal.Some?
  {
    if batches != [] {
      FileFailsIff(source, batches[1..], model);
      if b :| 0 <= b < |batches| - 1 && Extracted(source, batches[1..][b], model).refusal.Some? {
        assert batches[b + 1] == batches[1..][b];
      }
      if b :| 0 < b < |batches| && Extracted(source, batches[b], model).refusal.Some? {
        assert batches[1..][b - 1] == batches[b];
      }
    }
  }

  /** The item stands in an answer the model gave about some pages, the n-th time it was shown them. */
  ghost predicate Answered(source: string, model: Model, r: Reading)
  {
    exists batch: seq<int>, n: nat :: n < 2 && r in Recorded(source, batch, model(source, batch, n)).added
  }

  lemma AnsweredBy(source: string, model: Model, batch: seq<int>, n: nat)
    requires n < 2
    ensures forall r :: r in Recorded(source, batch, model(source, batch, n)).added ==> Answered(source, model, r)
  {
  }

  lemma {:induction false} OneByOneIsAnswered(source: string, pages: seq<int>, model: Model)
    ensures forall r :: r in OneByOne(source, pages, model).added ==> Answered(source, model, r)
  {
    if pages != [] {
      AnsweredBy(source, model, [pages[0]], 0);
      OneByOneIsAnswered(source, pages[1..], model);
    }
  }

  lemma {:induction false} BatchesAreAnswered(source: string, batches: seq<seq<int>>, model: Model)
    ensures forall r :: r in BatchesRead(source, batches, model).added ==> Answered(source, model, r)
  {
    if batches != [] {
      AnsweredBy(source, model, batches[0], 0);
      AnsweredBy(source, model, batches[0], 1);
      OneByOneIsAnswered(source, batches[0], model);
      BatchesAreAnswered(source, batches[1..], model);
    }
  }

  /** Nothing is recorded of a file that the model did not answer about it. */
  lemma EveryReadingIsTheModels(source: string, pages: seq<int>, model: Model)
    ensures forall r :: r in FileRead(source, pages, model).added ==> Answered(source, model, r)
  {
    BatchesAreAnswered(source, Batches(pages), model);
  }
}
