/**
 Which number an evidence identifier gets: one more than the highest its prefix
 has (backend/agents/orchestrator.py).
 */
module EvidenceNumbers {
  import opened EvidenceLedgers

  /** An identifier of this prefix that carries this number. */
  predicate Carries(id: string, prefix: string, n: nat)
  {
    Letters(id) == prefix && Digits(id) != [] && Value(Digits(id)) == n
  }

  /** A counter stands at a number some identifier of its prefix carries, or at zero. */
  lemma {:induction false} CounterIsCarried<T>(items: seq<Item<T>>, prefix: string)
    requires prefix != []
    ensures Count(Scan(items), prefix) == 0 || exists i :: 0 <= i < |items| && Carries(items[i].id, prefix, Count(Scan(items), prefix))
  {
    if items != [] {
      var n := |items| - 1;
      CounterIsCarried(items[..n], prefix);
      if i :| 0 <= i < n && Carries(items[..n][i].id, prefix, Count(Scan(items[..n]), prefix)) {
        assert items[i] == items[..n][i];
      }
    }
  }

  /** A ledger opened over a list numbers its next item one above the highest of its prefix, from one where there is none. */
  lemma NextIsOneAbove<T>(items: seq<Item<T>>, prefix: string, n: nat)
    requires prefix != [] && AllLetters(prefix)
    ensures Carries(NextId(Scan(items), prefix), prefix, n + 1) <==>
              && (forall i, m: nat :: 0 <= i < |items| && Carries(items[i].id, prefix, m) ==> m <= n)
              && (n == 0 || exists i :: 0 <= i < |items| && Carries(items[i].id, prefix, n))
  {
    var top := Count(Scan(items), prefix);
    IdReadsBack(prefix, top + 1);
    ScanCovers(items);
    CounterIsCarried(items, prefix);
    assert Carries(NextId(Scan(items), prefix), prefix, top + 1);
    forall i, m: nat | 0 <= i < |items| && Carries(items[i].id, prefix, m)
      ensures m <= top
    {
      assert Within(Scan(items), items[i].id);
    }
  }

  /** What a ledger adds keeps its order and its content, each item under its own prefix. */
  lemma {:induction false} AddedInOrder<T>(counters: Counters, items: seq<Item<T>>, entries: seq<Entry<T>>, k: nat)
    requires Allocatable(entries) && k < |entries|
    ensures var after := AddAll(counters, items, entries);
            && |after| == |items| + |entries|
            && after[|items| + k].content == entries[k].content && Letters(after[|items| + k].id) == entries[k].prefix
    decreases |entries|
  {
    var e := entries[0];
    var more := items + [Item(NextId(counters, e.prefix), e.content)];
    var raised := counters[e.prefix := Count(counters, e.prefix) + 1];
    if k > 0 {
      AddedInOrder(raised, more, entries[1..], k - 1);
    } else {
      IdReadsBack(e.prefix, Count(counters, e.prefix) + 1);
      ItemsStay(raised, more, entries[1..]);
    }
  }

  lemma {:induction false} ItemsStay<T>(counters: Counters, items: seq<Item<T>>, entries: seq<Entry<T>>)
    ensures items <= AddAll(counters, items, entries)
    ensures |AddAll(counters, items, entries)| == |items| + |entries|
    decreases |entries|
  {
    if entries != [] {
      var e := entries[0];
      ItemsStay(counters[e.prefix := Count(counters, e.prefix) + 1], items + [Item(NextId(counters, e.prefix), e.content)], entries[1..]);
    }
  }

  /** One ledger numbers its items of a prefix without a gap: the k-th of entries all of one prefix is k above the counter. */
  lemma {:induction false} NumbersRunOn<T>(counters: Counters, items: seq<Item<T>>, entries: seq<Entry<T>>, prefix: string, k: nat)
    requires prefix != [] && AllLetters(prefix) && k < |entries| && forall i :: 0 <= i < |entries| ==> entries[i].prefix == prefix
    ensures |AddAll(counters, items, entries)| == |items| + |entries|
    ensures Carries(AddAll(counters, items, entries)[|items| + k].id, prefix, Count(counters, prefix) + 1 + k)
    decreases |entries|
  {
    var more := items + [Item(NextId(counters, prefix), entries[0].content)];
    var raised := counters[prefix := Count(counters, prefix) + 1];
    ItemsStay(raised, more, entries[1..]);
    if k > 0 {
      NumbersRunOn(raised, more, entries[1..], prefix, k - 1);
    } else {
      IdReadsBack(prefix, Count(counters, prefix) + 1);
    }
  }
}
