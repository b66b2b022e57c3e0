/**
 Reading the pages of a scanned document: what a vision model answers about a
 batch is matched to the rendered pages before anything is recorded, and an
 ambiguous batch is read again page by page (backend/agents/orchestrator.py).
 The model is an oracle: anything may come back.
 */
module VisualReading {
  import opened Wrappers
  import opened EvidenceLedgers

  /** The value a model put under `page_number`: a number, a string, or nothing usable. */
  datatype Label = Number(n: int) | Text(text: string) | Absent

  /** One entry of the answer's `pages`; `empty` when it transcribed and found nothing. */
  datatype Reported = Page(mark: Label, empty: bool, content: string) | NotAPage

  /** None when the answer holds no list of pages. */
  type Answer = Option<seq<Reported>>

  /** What the model answers when shown these pages of this file for the n-th time. */
  type Model = (string, seq<int>, nat) -> Answer

  datatype Refusal = Omitted | Unlabelled | Twice(n: int) | Mismatch | LeftEmpty

  datatype Provenance = AsLabelled | Relabelled(reported: int) | WithoutLabel

  /** What one evidence item says it is: a page of a file, by the renderer's number. */
  datatype Reading = Reading(source: string, page: int, how: Provenance, content: string)

  const PDF_PAGES_PER_BATCH: nat := 3

  // --- reading a label -----------------------------------------------------

  predicate IsSpace(c: char)
  {
    c == ' ' || '\t' <= c <= '\r'
  }

  function Strip(s: string): string
  {
    if s == [] then s
    else if IsSpace(s[0]) then Strip(s[1..])
    else if IsSpace(s[|s| - 1]) then Strip(s[..|s| - 1])
    else s
  }

  function Stated(mark: Label): Option<int>
  {
    match mark
    case Number(n) => Some(n)
    case Text(s) => if Strip(s) != [] && AllDigits(Strip(s)) then Some(Value(Strip(s))) else None
    case Absent => None
  }

  /** The number an entry is filed under; one image can only be one page. */
  function NumberOf(batch: seq<int>, page: Reported): Option<int>
  {
    if page.NotAPage? then None
    else if Stated(page.mark).Some? then Stated(page.mark)
    else if |batch| == 1 then Some(batch[0])
    else None
  }

  function Labels(batch: seq<int>, pages: seq<Reported>): (labels: seq<Option<int>>)
    ensures |labels| == |pages|
    ensures forall i :: 0 <= i < |pages| ==> labels[i] == NumberOf(batch, pages[i])
  {
    seq(|pages|, i requires 0 <= i < |pages| => NumberOf(batch, pages[i]))
  }

  // --- matching an answer to a batch ---------------------------------------

  /** `by_number` after the first n entries: number to position, or the first fault. */
  function ByNumber(labels: seq<Option<int>>, n: nat): Result<map<int, nat>, Refusal>
    requires n <= |labels|
  {
    if n == 0 then Ok(map[])
    else
      var before := ByNumber(labels, n - 1);
      if before.Err? then before
      else if labels[n - 1].None? then Err(Unlabelled)
      else if labels[n - 1].value in before.value then Err(Twice(labels[n - 1].value))
      else Ok(before.value[labels[n - 1].value := n - 1])
  }

  function Expected(batch: seq<int>): set<int>
  {
    set k | 0 <= k < |batch| :: batch[k]
  }

  /** The number a model that counts from one would give the page in position k. */
  function Ordinal(k: int): int
  {
    k + 1
  }

  function Ordinals(n: nat): set<int>
  {
    set k | 0 <= k < n :: Ordinal(k)
  }

  /** For each page of the batch, the position of the entry that is about it. */
  function Matched(batch: seq<int>, labels: seq<Option<int>>): Result<seq<nat>, Refusal>
  {
    match ByNumber(labels, |labels|)
    case Err(why) => Err(why)
    case Ok(found) =>
      if found.Keys == Expected(batch) then Ok(NumbersPlaced(batch, found))
      else if found.Keys == Ordinals(|batch|) then Ok(PositionsPlaced(batch, found))
      else Err(Mismatch)
  }

  function NumbersPlaced(batch: seq<int>, found: map<int, nat>): (used: seq<nat>)
    requires found.Keys == Expected(batch)
    ensures |used| == |batch| && forall k :: 0 <= k < |used| ==> batch[k] in found && used[k] == found[batch[k]]
  {
    assert forall k :: 0 <= k < |batch| ==> batch[k] in Expected(batch);
    seq(|batch|, k requires 0 <= k < |batch| => found[batch[k]])
  }

  function PositionsPlaced(batch: seq<int>, found: map<int, nat>): (used: seq<nat>)
    requires found.Keys == Ordinals(|batch|)
    ensures |used| == |batch| && forall k :: 0 <= k < |used| ==> Ordinal(k) in found && used[k] == found[Ordinal(k)]
  {
    assert forall k :: 0 <= k < |batch| ==> Ordinal(k) in Ordinals(|batch|);
    seq(|batch|, k requires 0 <= k < |batch| => found[Ordinal(k)])
  }

  predicate Blank(page: Reported)
  {
    page.Page? && page.empty
  }

  /** In a batch of several, a page with nothing on it is a reason to ask again. */
  predicate LeavesOneEmpty(pages: seq<Reported>, used: seq<nat>)
  {
    |used| > 1 && exists k :: 0 <= k < |used| && used[k] < |pages| && Blank(pages[used[k]])
  }

  function Place(batch: seq<int>, answer: Answer): Result<seq<nat>, Refusal>
  {
    if answer.None? || |answer.value| != |batch| then Err(Omitted)
    else
      match Matched(batch, Labels(batch, answer.value))
      case Err(why) => Err(why)
      case Ok(used) => if LeavesOneEmpty(answer.value, used) then Err(LeftEmpty) else Ok(used)
  }

  ghost predicate Distinct<T(!new)>(s: seq<T>)
  {
    forall i, j :: 0 <= i < j < |s| ==> s[i] != s[j]
  }

  /** Every entry has a number, and a number of its own. */
  ghost predicate Labelled(labels: seq<Option<int>>)
  {
    (forall i :: 0 <= i < |labels| ==> labels[i].Some?) && Distinct(labels)
  }

  function Numbers(labels: seq<Option<int>>): set<int>
  {
    set i | 0 <= i < |labels| && labels[i].Some? :: labels[i].value
  }

  /** A table from each number to where it stands. */
  ghost predicate Indexes(found: map<int, nat>, labels: seq<Option<int>>)
  {
    && (forall i :: 0 <= i < |labels| ==> labels[i].Some? && labels[i].value in found && found[labels[i].value] == i)
    && (forall x :: x in found ==> found[x] < |labels| && labels[found[x]] == Some(x))
  }

  lemma IndexesOneMore(found: map<int, nat>, labels: seq<Option<int>>, x: int)
    requires Indexes(found, labels) && x !in found
    ensures Indexes(found[x := |labels|], labels + [Some(x)])
  {
  }

  lemma IndexedAreLabelled(found: map<int, nat>, labels: seq<Option<int>>)
    requires Indexes(found, labels)
    ensures Labelled(labels) && found.Keys == Numbers(labels)
  {
    forall x | x in found
      ensures x in Numbers(labels)
    {
      assert labels[found[x]].value == x;
    }
  }

  /** The table is complete exactly when every entry has a number of its own. */
  lemma {:induction false} ByNumberIsExact(labels: seq<Option<int>>, n: nat)
    requires n <= |labels|
    ensures ByNumber(labels, n).Ok? ==> Indexes(ByNumber(labels, n).value, labels[..n])
    ensures ByNumber(labels, n).Ok? <==> Labelled(labels[..n])
  {
    if n > 0 {
      ByNumberIsExact(labels, n - 1);
      var before := ByNumber(labels, n - 1);
      assert labels[..n] == labels[..n - 1] + [labels[n - 1]];
      if before.Err? {
        assert forall i :: 0 <= i < n - 1 ==> labels[..n - 1][i] == labels[..n][i];
      } else if labels[n - 1].None? {
        assert labels[..n][n - 1].None?;
      } else if labels[n - 1].value in before.value {
        var x := labels[n - 1].value;
        var j := before.value[x];
        assert j < |labels[..n - 1]| && labels[..n - 1][j] == Some(x);
        assert labels[..n][j] == labels[..n][n - 1];
      } else {
        IndexesOneMore(before.value, labels[..n - 1], labels[n - 1].value);
        IndexedAreLabelled(ByNumber(labels, n).value, labels[..n]);
      }
    }
  }

  /** An answer a batch can be recorded from, said without saying how it is matched. */
  ghost predicate Acceptable(batch: seq<int>, answer: Answer)
  {
    && answer.Some? && |answer.value| == |batch|
    && var labels := Labels(batch, answer.value);
       && Labelled(labels)
       && (Numbers(labels) == Expected(batch) || Numbers(labels) == Ordinals(|batch|))
       && (|batch| > 1 ==> forall i :: 0 <= i < |batch| ==> !Blank(answer.value[i]))
  }

  /** Each page of the batch gets an entry, each entry goes to one page, and the labels agree throughout. */
  ghost predicate OneForOne(batch: seq<int>, labels: seq<Option<int>>, used: seq<nat>)
  {
    && |used| == |batch| == |labels|
    && (forall k :: 0 <= k < |used| ==> used[k] < |labels|)
    && Distinct(used)
    && (forall i :: 0 <= i < |labels| ==> i in used)
    && ((forall k :: 0 <= k < |used| ==> labels[used[k]] == Some(batch[k]))
        || (forall k :: 0 <= k < |used| ==> labels[used[k]] == Some(Ordinal(k))))
  }

  lemma NumbersPlacedOneForOne(batch: seq<int>, labels: seq<Option<int>>, found: map<int, nat>)
    requires Distinct(batch) && |labels| == |batch| && Indexes(found, labels) && found.Keys == Expected(batch)
    ensures OneForOne(batch, labels, NumbersPlaced(batch, found))
  {
    var used := NumbersPlaced(batch, found);
    forall i | 0 <= i < |labels|
      ensures i in used
    {
      assert labels[i].value in Expected(batch);
      var k :| 0 <= k < |batch| && batch[k] == labels[i].value;
      assert used[k] == i;
    }
  }

  lemma PositionsPlacedOneForOne(batch: seq<int>, labels: seq<Option<int>>, found: map<int, nat>)
    requires |labels| == |batch| && Indexes(found, labels) && found.Keys == Ordinals(|batch|)
    ensures OneForOne(batch, labels, PositionsPlaced(batch, found))
  {
    var used := PositionsPlaced(batch, found);
    forall i | 0 <= i < |labels|
      ensures i in used
    {
      assert labels[i].value in Ordinals(|batch|);
      var k :| 0 <= k < |batch| && Ordinal(k) == labels[i].value;
      assert used[k] == i;
    }
  }

  lemma MatchedIsExact(batch: seq<int>, labels: seq<Option<int>>)
    requires Distinct(batch) && |labels| == |batch|
    ensures Matched(batch, labels).Ok? <==>
              Labelled(labels) && (Numbers(labels) == Expected(batch) || Numbers(labels) == Ordinals(|batch|))
    ensures Matched(batch, labels).Ok? ==> OneForOne(batch, labels, Matched(batch, labels).value)
  {
    ByNumberIsExact(labels, |labels|);
    assert labels[..|labels|] == labels;
    if ByNumber(labels, |labels|).Ok? {
      var found := ByNumber(labels, |labels|).value;
      IndexedAreLabelled(found, labels);
      if found.Keys == Expected(batch) {
        NumbersPlacedOneForOne(batch, labels, found);
      } else if found.Keys == Ordinals(|batch|) {
        PositionsPlacedOneForOne(batch, labels, found);
      }
    }
  }

  lemma LeavesOneEmptyIff(pages: seq<Reported>, used: seq<nat>)
    requires forall k :: 0 <= k < |used| ==> used[k] < |pages|
    requires forall i :: 0 <= i < |pages| ==> i in used
    ensures LeavesOneEmpty(pages, used) <==> |used| > 1 && exists i :: 0 <= i < |pages| && Blank(pages[i])
  {
    forall i | 0 <= i < |pages| && Blank(pages[i])
      ensures exists k :: 0 <= k < |used| && used[k] < |pages| && Blank(pages[used[k]])
    {
      assert i in used;
    }
  }

  /** What is accepted, both ways, and that an accepted answer is used up exactly. */
  lemma PlaceIsExact(batch: seq<int>, answer: Answer)
    requires Distinct(batch)
    ensures Place(batch, answer).Ok? <==> Acceptable(batch, answer)
    ensures Place(batch, answer).Ok? ==> OneForOne(batch, Labels(batch, answer.value), Place(batch, answer).value)
  {
    if answer.Some? && |answer.value| == |batch| {
      var labels := Labels(batch, answer.value);
      MatchedIsExact(batch, labels);
      if Matched(batch, labels).Ok? {
        LeavesOneEmptyIff(answer.value, Matched(batch, labels).value);
      }
    }
  }

  function Positions(n: nat): (s: set<nat>)
    ensures |s| == n && forall k: nat :: k in s <==> k < n
  {
    if n == 0 then {} else Positions(n - 1) + {n - 1}
  }

  function Elements(order: seq<nat>): (s: set<nat>)
    ensures forall k: nat :: k in s <==> k in order
  {
    if order == [] then {} else Elements(order[..|order| - 1]) + {order[|order| - 1]}
  }

  lemma {:induction false} DistinctCount(order: seq<nat>)
    requires Distinct(order)
    ensures |Elements(order)| == |order|
  {
    if order != [] {
      var front, last := order[..|order| - 1], order[|order| - 1];
      DistinctCount(front);
      assert last !in front;
    }
  }

  /** An order without repetition leaves no position out. */
  lemma OrderReachesAll(order: seq<nat>)
    requires Distinct(order) && forall i :: 0 <= i < |order| ==> order[i] < |order|
    ensures forall k: nat :: k < |order| ==> k in order
  {
    var all, used := Positions(|order|), Elements(order);
    DistinctCount(order);
    assert used <= all;
    assert all == used + (all - used);
    assert |all - used| == 0;
    forall k: nat | k < |order|
      ensures k in order
    {
      assert k in all && k !in all - used;
    }
  }

  lemma ShuffledLabels(labels: seq<Option<int>>, again: seq<Option<int>>, order: seq<nat>)
    requires |labels| == |again| == |order| && Distinct(order)
    requires forall i :: 0 <= i < |order| ==> order[i] < |labels| && again[i] == labels[order[i]]
    ensures Labelled(labels) <==> Labelled(again)
    ensures Numbers(labels) == Numbers(again)
  {
    OrderReachesAll(order);
    if Labelled(again) {
      forall k: nat | k < |labels|
        ensures labels[k].Some?
      {
        var i := WhereIs(order, k);
        assert again[i] == labels[k];
      }
      forall k: nat, l: nat | k < l < |labels|
        ensures labels[k] != labels[l]
      {
        var i, j := WhereIs(order, k), WhereIs(order, l);
        assert again[i] == labels[k] && again[j] == labels[l] && i != j;
      }
    }
    forall x | x in Numbers(labels)
      ensures x in Numbers(again)
    {
      var k: nat :| k < |labels| && labels[k] == Some(x);
      var i := WhereIs(order, k);
      assert again[i] == Some(x);
    }
    forall x | x in Numbers(again)
      ensures x in Numbers(labels)
    {
      var i: nat :| i < |again| && again[i] == Some(x);
      assert labels[order[i]] == Some(x);
    }
  }

  function WhereIs(order: seq<nat>, k: nat): (i: nat)
    requires k in order
    ensures i < |order| && order[i] == k
  {
    if order[|order| - 1] == k then |order| - 1 else WhereIs(order[..|order| - 1], k)
  }

  lemma ShuffledAcceptable(batch: seq<int>, pages: seq<Reported>, shuffled: seq<Reported>, order: seq<nat>)
    requires |batch| == |pages| == |shuffled| == |order| && Distinct(order)
    requires forall i :: 0 <= i < |order| ==> order[i] < |pages| && shuffled[i] == pages[order[i]]
    ensures Acceptable(batch, Some(pages)) <==> Acceptable(batch, Some(shuffled))
  {
    ShuffledLabels(Labels(batch, pages), Labels(batch, shuffled), order);
    OrderReachesAll(order);
    forall k: nat | k < |pages|
      ensures shuffled[WhereIs(order, k)] == pages[k]
    {
    }
  }

  /** The labels decide, not the order the model listed its pages in: whether the answer is accepted, and what each page gets. */
  lemma AnswerOrderDoesNotMatter(batch: seq<int>, pages: seq<Reported>, shuffled: seq<Reported>, order: seq<nat>)
    requires Distinct(batch) && |batch| == |pages| == |shuffled| == |order| && Distinct(order)
    requires forall i :: 0 <= i < |order| ==> order[i] < |pages| && shuffled[i] == pages[order[i]]
    ensures Place(batch, Some(pages)).Ok? <==> Place(batch, Some(shuffled)).Ok?
    ensures Place(batch, Some(pages)).Ok? ==>
              var one, other := Place(batch, Some(pages)).value, Place(batch, Some(shuffled)).value;
              |one| == |other| == |batch| && forall k :: 0 <= k < |batch| ==>
                one[k] < |pages| && other[k] < |shuffled| && shuffled[other[k]] == pages[one[k]]
  {
    PlaceIsExact(batch, Some(pages));
    PlaceIsExact(batch, Some(shuffled));
    ShuffledAcceptable(batch, pages, shuffled, order);
    if Place(batch, Some(pages)).Ok? {
      AcceptedOrdersAgree(batch, pages, shuffled, order);
    }
  }

  lemma AcceptedOrdersAgree(batch: seq<int>, pages: seq<Reported>, shuffled: seq<Reported>, order: seq<nat>)
    requires Distinct(batch) && |batch| == |pages| == |shuffled| == |order|
    requires forall i :: 0 <= i < |order| ==> order[i] < |pages| && shuffled[i] == pages[order[i]]
    requires Place(batch, Some(pages)).Ok? && Place(batch, Some(shuffled)).Ok?
    ensures var one, other := Place(batch, Some(pages)).value, Place(batch, Some(shuffled)).value;
            |one| == |other| == |batch| && forall k :: 0 <= k < |batch| ==>
              one[k] < |pages| && other[k] < |shuffled| && shuffled[other[k]] == pages[one[k]]
  {
    var labels, again := Labels(batch, pages), Labels(batch, shuffled);
    MatchedIsExact(batch, labels);
    MatchedIsExact(batch, again);
    ByNumberIsExact(labels, |labels|);
    ByNumberIsExact(again, |again|);
    assert labels[..|labels|] == labels && again[..|again|] == again;
    var found, refound := ByNumber(labels, |labels|).value, ByNumber(again, |again|).value;
    SameTable(labels, again, order, found, refound);
    SamePlaces(batch, order, found, refound);
  }

  lemma SamePlaces(batch: seq<int>, order: seq<nat>, found: map<int, nat>, refound: map<int, nat>)
    requires found.Keys == refound.Keys
    requires forall x :: x in refound ==> refound[x] < |order| && order[refound[x]] == found[x]
    ensures found.Keys == Expected(batch) ==>
              var one, other := NumbersPlaced(batch, found), NumbersPlaced(batch, refound);
              forall k :: 0 <= k < |batch| ==> other[k] < |order| && order[other[k]] == one[k]
    ensures found.Keys == Ordinals(|batch|) ==>
              var one, other := PositionsPlaced(batch, found), PositionsPlaced(batch, refound);
              forall k :: 0 <= k < |batch| ==> other[k] < |order| && order[other[k]] == one[k]
  {
    if found.Keys == Expected(batch) {
      var one, other := NumbersPlaced(batch, found), NumbersPlaced(batch, refound);
      forall k | 0 <= k < |batch|
        ensures other[k] < |order| && order[other[k]] == one[k]
      {
        var x := batch[k];
        assert x in refound && refound[x] < |order| && order[refound[x]] == found[x];
        assert other[k] == refound[x] && one[k] == found[x];
      }
    }
    if found.Keys == Ordinals(|batch|) {
      var one, other := PositionsPlaced(batch, found), PositionsPlaced(batch, refound);
      forall k | 0 <= k < |batch|
        ensures other[k] < |order| && order[other[k]] == one[k]
      {
        assert Ordinal(k) in refound && other[k] == refound[Ordinal(k)];
      }
    }
  }

  lemma SameTable(
      labels: seq<Option<int>>, again: seq<Option<int>>, order: seq<nat>, found: map<int, nat>, refound: map<int, nat>)
    requires |labels| == |again| == |order|
    requires forall i :: 0 <= i < |order| ==> order[i] < |labels| && again[i] == labels[order[i]]
    requires Indexes(found, labels) && Indexes(refound, again)
    ensures found.Keys == refound.Keys
    ensures forall x :: x in refound ==> refound[x] < |order| && order[refound[x]] == found[x]
  {
    forall x | x in refound
      ensures x in found && order[refound[x]] == found[x]
    {
      assert again[refound[x]] == labels[order[refound[x]]];
    }
    IndexedSize(found, labels);
    IndexedSize(refound, again);
    assert refound.Keys <= found.Keys;
    assert found.Keys == refound.Keys + (found.Keys - refound.Keys);
  }

  lemma {:induction false} IndexedSize(found: map<int, nat>, labels: seq<Option<int>>)
    requires Indexes(found, labels)
    ensures |found.Keys| == |labels|
    decreases |labels|
  {
    if labels == [] {
      assert forall x :: x in found ==> found[x] < |labels|;
    } else {
      var last := labels[|labels| - 1].value;
      IndexedSize(found - {last}, labels[..|labels| - 1]);
      assert found.Keys == (found - {last}).Keys + {last};
    }
  }

  // --- what gets recorded --------------------------------------------------

  datatype Outcome = Outcome(added: seq<Reading>, refusal: Option<Refusal>)

  function ReadingOf(source: string, number: int, page: Reported): Reading
    requires page.Page?
  {
    var how := match Stated(page.mark)
               case None => WithoutLabel
               case Some(n) => if n == number then AsLabelled else Relabelled(n);
    Reading(source, number, how, page.content)
  }

  ghost predicate Recordable(batch: seq<int>, pages: seq<Reported>, used: seq<nat>)
  {
    |used| == |batch| && forall k :: 0 <= k < |used| ==> used[k] < |pages| && pages[used[k]].Page?
  }

  lemma PlacedIsRecordable(batch: seq<int>, answer: Answer)
    requires Place(batch, answer).Ok?
    ensures Recordable(batch, answer.value, Place(batch, answer).value)
  {
    var labels := Labels(batch, answer.value);
    ByNumberIsExact(labels, |labels|);
    assert labels[..|labels|] == labels;
    var found := ByNumber(labels, |labels|).value;
    var used := Place(batch, answer).value;
    forall k | 0 <= k < |used|
      ensures used[k] < |labels| && labels[used[k]].Some?
    {
      var x := if found.Keys == Expected(batch) then batch[k] else Ordinal(k);
      assert x in found && used[k] == found[x];
    }
  }

  function Readings(source: string, batch: seq<int>, pages: seq<Reported>, used: seq<nat>): (r: seq<Reading>)
    requires Recordable(batch, pages, used)
    ensures |r| == |batch|
  {
    seq(|batch|, k requires 0 <= k < |batch| => ReadingOf(source, batch[k], pages[used[k]]))
  }

  function Recorded(source: string, batch: seq<int>, answer: Answer): Outcome
  {
    match Place(batch, answer)
    case Err(why) => Outcome([], Some(why))
    case Ok(used) =>
      PlacedIsRecordable(batch, answer);
      Outcome(Readings(source, batch, answer.value, used), None)
  }

  function Then(sofar: seq<Reading>, rest: Outcome): Outcome
  {
    Outcome(sofar + rest.added, rest.refusal)
  }

  lemma ThenInTurn(one: seq<Reading>, other: seq<Reading>, rest: Outcome)
    ensures Then(one, Then(other, rest)) == Then(one + other, rest)
  {
    assert one + (other + rest.added) == (one + other) + rest.added;
  }

  function OneByOne(source: string, pages: seq<int>, model: Model): Outcome
  {
    if pages == [] then Outcome([], None)
    else
      var first := Recorded(source, [pages[0]], model(source, [pages[0]], 0));
      if first.refusal.Some? then first
      else
        Then(first.added, OneByOne(source, pages[1..], model))
  }

  /** A batch, with its one retry: the same page again, or each page on its own. */
  function Extracted(source: string, batch: seq<int>, model: Model): Outcome
  {
    var first := Recorded(source, batch, model(source, batch, 0));
    if first.refusal.None? then first
    else if |batch| == 1 then Recorded(source, batch, model(source, batch, 1))
    else OneByOne(source, batch, model)
  }

  datatype Source = Source(name: string, pages: seq<int>)

  /** The pages of a file, a few at a time. */
  function Batches(pages: seq<int>): seq<seq<int>>
  {
    if |pages| <= PDF_PAGES_PER_BATCH then (if pages == [] then [] else [pages])
    else [pages[..PDF_PAGES_PER_BATCH]] + Batches(pages[PDF_PAGES_PER_BATCH..])
  }

  /** The batches in order, up to the first that fails. */
  function BatchesRead(source: string, batches: seq<seq<int>>, model: Model): Outcome
  {
    if batches == [] then Outcome([], None)
    else
      var first := Extracted(source, batches[0], model);
      if first.refusal.Some? then first
      else Then(first.added, BatchesRead(source, batches[1..], model))
  }

  function FileRead(source: string, pages: seq<int>, model: Model): Outcome
  {
    BatchesRead(source, Batches(pages), model)
  }

  function AllRead(sources: seq<Source>, model: Model): Outcome
  {
    if sources == [] then Outcome([], None)
    else
      var first := FileRead(sources[0].name, sources[0].pages, model);
      if first.refusal.Some? then first
      else
        Then(first.added, AllRead(sources[1..], model))
  }

  // --- every page exactly once ---------------------------------------------

  function Pages(readings: seq<Reading>): (r: seq<(string, int)>)
    ensures |r| == |readings|
  {
    seq(|readings|, k requires 0 <= k < |readings| => (readings[k].source, readings[k].page))
  }

  function PagesOf(source: string, pages: seq<int>): (r: seq<(string, int)>)
    ensures |r| == |pages|
  {
    seq(|pages|, k requires 0 <= k < |pages| => (source, pages[k]))
  }

  function PagesOfAll(sources: seq<Source>): seq<(string, int)>
  {
    if sources == [] then [] else PagesOf(sources[0].name, sources[0].pages) + PagesOfAll(sources[1..])
  }

  /** On success just these pages in order; on failure the first of them. */
  ghost predicate Covers(outcome: Outcome, pages: seq<(string, int)>)
  {
    && Pages(outcome.added) <= pages
    && (outcome.refusal.None? ==> Pages(outcome.added) == pages)
  }

  lemma CoversInTurn(first: Outcome, rest: Outcome, head: seq<(string, int)>, tail: seq<(string, int)>)
    requires Covers(first, head) && first.refusal.None? && Covers(rest, tail)
    ensures Covers(Then(first.added, rest), head + tail)
  {
    assert Pages(first.added + rest.added) == Pages(first.added) + Pages(rest.added);
    var k := |Pages(rest.added)|;
    assert tail[..k] == Pages(rest.added);
    assert head + tail[..k] == (head + tail)[..|head| + k];
  }

  /** A refused batch adds nothing; an accepted one adds each of its pages once, in order. */
  lemma RecordedCovers(source: string, batch: seq<int>, answer: Answer)
    ensures Covers(Recorded(source, batch, answer), PagesOf(source, batch))
    ensures Recorded(source, batch, answer).refusal.Some? ==> Recorded(source, batch, answer).added == []
  {
    if Place(batch, answer).Ok? {
      PlacedIsRecordable(batch, answer);
      assert Pages(Recorded(source, batch, answer).added) == PagesOf(source, batch);
    }
  }

  /** Every entry of an accepted answer becomes the item of the one page its label stands for. */
  lemma EveryEntryIsRecorded(source: string, batch: seq<int>, answer: Answer, i: nat)
    requires Distinct(batch) && Acceptable(batch, answer) && i < |batch|
    ensures var added := Recorded(source, batch, answer).added;
            |added| == |batch| &&
            exists k :: 0 <= k < |added| && Place(batch, answer).value[k] == i
              && added[k] == ReadingOf(source, batch[k], answer.value[i])
              && (NumberOf(batch, answer.value[i]) == Some(batch[k]) || NumberOf(batch, answer.value[i]) == Some(Ordinal(k)))
  {
    PlaceIsExact(batch, answer);
    PlacedIsRecordable(batch, answer);
    var used := Place(batch, answer).value;
    assert i in used;
    var k :| 0 <= k < |used| && used[k] == i;
    assert Recorded(source, batch, answer).added[k] == ReadingOf(source, batch[k], answer.value[used[k]]);
  }

  lemma {:induction false} OneByOneCovers(source: string, pages: seq<int>, model: Model)
    ensures Covers(OneByOne(source, pages, model), PagesOf(source, pages))
  {
    if pages != [] {
      var first := Recorded(source, [pages[0]], model(source, [pages[0]], 0));
      RecordedCovers(source, [pages[0]], model(source, [pages[0]], 0));
      assert PagesOf(source, pages) == PagesOf(source, [pages[0]]) + PagesOf(source, pages[1..]);
      if first.refusal.None? {
        OneByOneCovers(source, pages[1..], model);
        CoversInTurn(first, OneByOne(source, pages[1..], model), PagesOf(source, [pages[0]]), PagesOf(source, pages[1..]));
      }
    }
  }

  lemma ExtractedCovers(source: string, batch: seq<int>, model: Model)
    ensures Covers(Extracted(source, batch, model), PagesOf(source, batch))
  {
    RecordedCovers(source, batch, model(source, batch, 0));
    RecordedCovers(source, batch, model(source, batch, 1));
    OneByOneCovers(source, batch, model);
  }

  function Flatten(batches: seq<seq<int>>): seq<int>
  {
    if batches == [] then [] else batches[0] + Flatten(batches[1..])
  }

  /** Batching loses no page, repeats none and keeps their order; no batch is empty or too large. */
  lemma {:induction false} BatchesPartition(pages: seq<int>)
    ensures Flatten(Batches(pages)) == pages
    ensures forall b :: 0 <= b < |Batches(pages)| ==> 0 < |Batches(pages)[b]| <= PDF_PAGES_PER_BATCH
  {
    if |pages| > PDF_PAGES_PER_BATCH {
      BatchesPartition(pages[PDF_PAGES_PER_BATCH..]);
      assert Batches(pages)[1..] == Batches(pages[PDF_PAGES_PER_BATCH..]);
    } else if pages != [] {
      assert Flatten([pages]) == pages + Flatten([pages][1..]);
    }
  }

  lemma {:induction false} BatchesReadCovers(source: string, batches: seq<seq<int>>, model: Model)
    ensures Covers(BatchesRead(source, batches, model), PagesOf(source, Flatten(batches)))
  {
    if batches != [] {
      var first, tail := Extracted(source, batches[0], model), Flatten(batches[1..]);
      ExtractedCovers(source, batches[0], model);
      assert PagesOf(source, batches[0] + tail) == PagesOf(source, batches[0]) + PagesOf(source, tail);
      if first.refusal.None? {
        BatchesReadCovers(source, batches[1..], model);
        CoversInTurn(first, BatchesRead(source, batches[1..], model), PagesOf(source, batches[0]), PagesOf(source, tail));
      }
    }
  }

  /**
   Whatever the model answers: a reading that succeeds has exactly one item for
   every page of every file, in order, under the renderer's number; one that
   fails has items for the first pages only, and none twice.
   */
  lemma {:induction false} EveryPageExactlyOnce(sources: seq<Source>, model: Model)
    ensures Covers(AllRead(sources, model), PagesOfAll(sources))
  {
    if sources != [] {
      var first := FileRead(sources[0].name, sources[0].pages, model);
      BatchesReadCovers(sources[0].name, Batches(sources[0].pages), model);
      BatchesPartition(sources[0].pages);
      if first.refusal.None? {
        EveryPageExactlyOnce(sources[1..], model);
        CoversInTurn(first, AllRead(sources[1..], model), PagesOf(sources[0].name, sources[0].pages), PagesOfAll(sources[1..]));
      }
    }
  }

  ghost predicate ReadsAlone(source: string, page: int, model: Model)
  {
    Acceptable([page], model(source, [page], 0))
  }

  /** A model that reads single pages sensibly never fails the run, however it muddles batches. */
  lemma SinglePagesSuffice(source: string, pages: seq<int>, model: Model)
    requires forall k :: 0 <= k < |pages| ==> ReadsAlone(source, pages[k], model)
    ensures FileRead(source, pages, model).refusal.None?
  {
    BatchesPartition(pages);
    BatchesSucceed(source, Batches(pages), model);
  }

  lemma {:induction false} BatchesSucceed(source: string, batches: seq<seq<int>>, model: Model)
    requires forall k :: 0 <= k < |Flatten(batches)| ==> ReadsAlone(source, Flatten(batches)[k], model)
    ensures BatchesRead(source, batches, model).refusal.None?
  {
    if batches != [] {
      var batch, tail := batches[0], Flatten(batches[1..]);
      assert forall k :: 0 <= k < |batch| ==> Flatten(batches)[k] == batch[k];
      assert forall k :: 0 <= k < |tail| ==> Flatten(batches)[|batch| + k] == tail[k];
      if |batch| == 1 {
        assert batch == [batch[0]];
        PlaceIsExact([batch[0]], model(source, [batch[0]], 0));
      }
      OneByOneSucceeds(source, batch, model);
      BatchesSucceed(source, batches[1..], model);
    }
  }

  lemma {:induction false} OneByOneSucceeds(source: string, pages: seq<int>, model: Model)
    requires forall k :: 0 <= k < |pages| ==> ReadsAlone(source, pages[k], model)
    ensures OneByOne(source, pages, model).refusal.None?
  {
    if pages != [] {
      PlaceIsExact([pages[0]], model(source, [pages[0]], 0));
      OneByOneSucceeds(source, pages[1..], model);
    }
  }

  // --- the stage -----------------------------------------------------------

  /** The list grew by these readings, under identifiers not used before. */
  ghost predicate Grew(before: seq<Item<Reading>>, after: seq<Item<Reading>>, added: seq<Reading>)
  {
    && before <= after && |after| == |before| + |added|
    && (forall k :: 0 <= k < |added| ==> after[|before| + k].content == added[k])
    && FreshFrom(after, |before|)
  }

  lemma GrewInTurn(a: seq<Item<Reading>>, b: seq<Item<Reading>>, c: seq<Item<Reading>>, one: seq<Reading>, other: seq<Reading>)
    requires Grew(a, b, one) && Grew(b, c, other)
    ensures Grew(a, c, one + other)
  {
    forall j | |a| <= j < |c|
      ensures NotIn(c[..j], c[j].id)
    {
      if j < |b| {
        assert c[..j] == b[..j];
      }
    }
  }

  lemma {:induction false} FirstFaultStands(labels: seq<Option<int>>, n: nat, m: nat)
    requires n <= m <= |labels| && ByNumber(labels, n).Err?
    ensures ByNumber(labels, m) == ByNumber(labels, n)
    decreases m
  {
    if n < m {
      FirstFaultStands(labels, n, m - 1);
    }
  }

  /** The table of an answer's pages by number; the first fault found decides. */
  method IndexPages(batch: seq<int>, pages: seq<Reported>) returns (table: Result<map<int, nat>, Refusal>)
    ensures table == ByNumber(Labels(batch, pages), |pages|)
  {
    var byNumber: map<int, nat> := map[];
    ghost var labels := Labels(batch, pages);
    for i := 0 to |pages|
      invariant ByNumber(labels, i) == Ok(byNumber)
    {
      var number := NumberOf(batch, pages[i]);
      if number.None? {
        FirstFaultStands(labels, i + 1, |pages|);
        return Err(Unlabelled);
      }
      if number.value in byNumber {
        FirstFaultStands(labels, i + 1, |pages|);
        return Err(Twice(number.value));
      }
      byNumber := byNumber[number.value := i];
    }
    return Ok(byNumber);
  }

  /** One item per page of the batch, in the batch's order. */
  method RecordPages(ledger: EvidenceLedger<Reading>, source: string, batch: seq<int>, pages: seq<Reported>, used: seq<nat>)
    requires ledger.Valid() && Recordable(batch, pages, used)
    modifies ledger`counters, ledger.list
    ensures ledger.Valid()
    ensures Grew(old(ledger.list.items), ledger.list.items, Readings(source, batch, pages, used))
  {
    ghost var before := ledger.list.items;
    ghost var readings := Readings(source, batch, pages, used);
    for k := 0 to |batch|
      invariant ledger.Valid()
      invariant Grew(before, ledger.list.items, readings[..k])
    {
      ghost var sofar := ledger.list.items;
      var _ := ledger.Add(ReadingOf(source, batch[k], pages[used[k]]), "V");
      assert readings[..k + 1] == readings[..k] + [readings[k]];
      OneMore(before, sofar, ledger.list.items, readings[..k], readings[k]);
    }
    assert readings[..|batch|] == readings;
  }

  lemma OneMore(a: seq<Item<Reading>>, b: seq<Item<Reading>>, c: seq<Item<Reading>>, sofar: seq<Reading>, next: Reading)
    requires Grew(a, b, sofar)
    requires |c| == |b| + 1 && c[..|b|] == b && c[|b|].content == next && NotIn(b, c[|b|].id)
    ensures Grew(a, c, sofar + [next])
  {
    assert b <= c;
    forall j | |b| <= j < |c|
      ensures NotIn(c[..j], c[j].id)
    {
      assert c[..j] == b;
    }
    GrewInTurn(a, b, c, sofar, [next]);
  }

  /** `_record_pdf_batch`: the whole answer is validated before anything is recorded. */
  method RecordPdfBatch(ledger: EvidenceLedger<Reading>, source: string, batch: seq<int>, answer: Answer)
      returns (refusal: Option<Refusal>)
    requires ledger.Valid()
    modifies ledger`counters, ledger.list
    ensures ledger.Valid()
    ensures Grew(old(ledger.list.items), ledger.list.items, Recorded(source, batch, answer).added)
    ensures refusal == Recorded(source, batch, answer).refusal
  {
    if answer.None? || |answer.value| != |batch| {
      return Some(Omitted);
    }
    var pages := answer.value;
    var table := IndexPages(batch, pages);
    if table.Err? {
      return Some(table.error);
    }
    var used: seq<nat>;
    if table.value.Keys == Expected(batch) {
      used := NumbersPlaced(batch, table.value);
    } else if table.value.Keys == Ordinals(|batch|) {
      used := PositionsPlaced(batch, table.value);
    } else {
      return Some(Mismatch);
    }
    if LeavesOneEmpty(pages, used) {
      return Some(LeftEmpty);
    }
    PlacedIsRecordable(batch, answer);
    RecordPages(ledger, source, batch, pages, used);
    return None;
  }

  /** Each page of a refused batch, read on its own. */
  method ExtractOneByOne(ledger: EvidenceLedger<Reading>, source: string, batch: seq<int>, model: Model)
      returns (refusal: Option<Refusal>)
    requires ledger.Valid()
    modifies ledger`counters, ledger.list
    ensures ledger.Valid()
    ensures Grew(old(ledger.list.items), ledger.list.items, OneByOne(source, batch, model).added)
    ensures refusal == OneByOne(source, batch, model).refusal
  {
    ghost var before := ledger.list.items;
    ghost var recovered: seq<Reading> := [];
    assert batch[0..] == batch;
    for i := 0 to |batch|
      invariant ledger.Valid()
      invariant Grew(before, ledger.list.items, recovered)
      invariant OneByOne(source, batch, model) == Then(recovered, OneByOne(source, batch[i..], model))
    {
      ghost var sofar := ledger.list.items;
      ghost var one := Recorded(source, [batch[i]], model(source, [batch[i]], 0));
      RecordedCovers(source, [batch[i]], model(source, [batch[i]], 0));
      assert batch[i..][0] == batch[i] && batch[i..][1..] == batch[i + 1..];
      refusal := RecordPdfBatch(ledger, source, [batch[i]], model(source, [batch[i]], 0));
      GrewInTurn(before, sofar, ledger.list.items, recovered, one.added);
      if refusal.Some? {
        return;
      }
      ThenInTurn(recovered, one.added, OneByOne(source, batch[i + 1..], model));
      recovered := recovered + one.added;
    }
    return None;
  }

  /** `_extract_pdf_batch`. */
  method ExtractPdfBatch(ledger: EvidenceLedger<Reading>, source: string, batch: seq<int>, model: Model)
      returns (refusal: Option<Refusal>)
    requires ledger.Valid()
    modifies ledger`counters, ledger.list
    ensures ledger.Valid()
    ensures Grew(old(ledger.list.items), ledger.list.items, Extracted(source, batch, model).added)
    ensures refusal == Extracted(source, batch, model).refusal
  {
    refusal := RecordPdfBatch(ledger, source, batch, model(source, batch, 0));
    if refusal.Some? {
      RecordedCovers(source, batch, model(source, batch, 0));
      assert ledger.list.items == old(ledger.list.items);
      if |batch| == 1 {
        refusal := RecordPdfBatch(ledger, source, batch, model(source, batch, 1));
      } else {
        refusal := ExtractOneByOne(ledger, source, batch, model);
      }
    }
  }

  /** The batching loop over one rendered file. */
  method ReadFile(ledger: EvidenceLedger<Reading>, source: string, pages: seq<int>, model: Model)
      returns (refusal: Option<Refusal>)
    requires ledger.Valid()
    modifies ledger`counters, ledger.list
    ensures ledger.Valid()
    ensures Grew(old(ledger.list.items), ledger.list.items, FileRead(source, pages, model).added)
    ensures refusal == FileRead(source, pages, model).refusal
  {
    var batches := SplitIntoBatches(pages);
    ghost var before := ledger.list.items;
    ghost var read: seq<Reading> := [];
    assert batches[0..] == batches;
    for b := 0 to |batches|
      invariant ledger.Valid()
      invariant Grew(before, ledger.list.items, read)
      invariant BatchesRead(source, batches, model) == Then(read, BatchesRead(source, batches[b..], model))
    {
      ghost var sofar := ledger.list.items;
      ghost var one := Extracted(source, batches[b], model);
      assert batches[b..][0] == batches[b] && batches[b..][1..] == batches[b + 1..];
      refusal := ExtractPdfBatch(ledger, source, batches[b], model);
      GrewInTurn(before, sofar, ledger.list.items, read, one.added);
      if refusal.Some? {
        return;
      }
      ThenInTurn(read, one.added, BatchesRead(source, batches[b + 1..], model));
      read := read + one.added;
    }
    return None;
  }

  method SplitIntoBatches(pages: seq<int>) returns (batches: seq<seq<int>>)
    ensures batches == Batches(pages)
  {
    batches := [];
    var offset := 0;
    assert pages[0..] == pages;
    while offset < |pages|
      invariant 0 <= offset <= |pages|
      invariant batches + Batches(pages[offset..]) == Batches(pages)
    {
      var end := if offset + PDF_PAGES_PER_BATCH < |pages| then offset + PDF_PAGES_PER_BATCH else |pages|;
      BatchesFrom(pages, offset, end);
      batches := batches + [pages[offset..end]];
      offset := end;
    }
    assert pages[offset..] == [];
  }

  lemma BatchesFrom(pages: seq<int>, offset: nat, end: nat)
    requires offset < |pages|
    requires end == if offset + PDF_PAGES_PER_BATCH < |pages| then offset + PDF_PAGES_PER_BATCH else |pages|
    ensures Batches(pages[offset..]) == [pages[offset..end]] + Batches(pages[end..])
  {
    if end < |pages| {
      assert pages[offset..][..PDF_PAGES_PER_BATCH] == pages[offset..end];
      assert pages[offset..][PDF_PAGES_PER_BATCH..] == pages[end..];
    } else {
      assert pages[offset..] == pages[offset..end] && pages[end..] == [];
    }
  }
}
