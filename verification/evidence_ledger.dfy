/**
 Evidence identifiers: a prefix and a decimal counter, never the same twice in
 one run (`EvidenceLedger`, backend/agents/orchestrator.py). The list of items
 belongs to the task; every ledger opened for it appends to that same list.
 */
module EvidenceLedgers {

  // --- decimal numerals ----------------------------------------------------

  predicate IsDigit(c: char)
  {
    '0' <= c <= '9'
  }

  predicate IsLetter(c: char)
  {
    'A' <= c <= 'Z' || 'a' <= c <= 'z'
  }

  predicate AllLetters(s: string)
  {
    forall i :: 0 <= i < |s| ==> IsLetter(s[i])
  }

  predicate AllDigits(s: string)
  {
    forall i :: 0 <= i < |s| ==> IsDigit(s[i])
  }

  function DigitOf(n: nat): (c: char)
    requires n < 10
    ensures IsDigit(c) && c as int - '0' as int == n
  {
    '0' + n as char
  }

  /** The numeral a count is printed as. */
  function Numeral(n: nat): (s: string)
    ensures s != [] && AllDigits(s)
  {
    if n < 10 then [DigitOf(n)] else Numeral(n / 10) + [DigitOf(n % 10)]
  }

  /** The number a string of digits is read as. */
  function Value(s: string): nat
    requires AllDigits(s)
  {
    if s == [] then 0 else 10 * Value(s[..|s| - 1]) + (s[|s| - 1] as int - '0' as int)
  }

  lemma {:induction false} NumeralReadsBack(n: nat)
    ensures Value(Numeral(n)) == n
  {
    if n < 10 {
      assert Value([DigitOf(n)]) == 10 * Value([DigitOf(n)][..0]) + n;
    } else {
      NumeralReadsBack(n / 10);
      var s := Numeral(n);
      assert s[..|s| - 1] == Numeral(n / 10) && s[|s| - 1] == DigitOf(n % 10);
    }
  }

  // --- reading an identifier -----------------------------------------------

  function Letters(id: string): (s: string)
    ensures AllLetters(s)
  {
    if id == [] then [] else (if IsLetter(id[0]) then [id[0]] else []) + Letters(id[1..])
  }

  function Digits(id: string): (s: string)
    ensures AllDigits(s)
  {
    if id == [] then [] else (if IsDigit(id[0]) then [id[0]] else []) + Digits(id[1..])
  }

  lemma {:induction false} LettersOfId(prefix: string, digits: string)
    requires AllLetters(prefix) && AllDigits(digits)
    ensures Letters(prefix + digits) == prefix && Digits(prefix + digits) == digits
    decreases |prefix| + |digits|
  {
    var id := prefix + digits;
    if prefix != [] {
      assert id[1..] == prefix[1..] + digits && prefix == [prefix[0]] + prefix[1..];
      LettersOfId(prefix[1..], digits);
    } else if digits != [] {
      assert id == digits && id[1..] == [] + digits[1..] && digits == [digits[0]] + digits[1..];
      LettersOfId([], digits[1..]);
    }
  }

  /** What is allocated reads back as the prefix and the number it was made of. */
  lemma IdReadsBack(prefix: string, n: nat)
    requires AllLetters(prefix)
    ensures Letters(prefix + Numeral(n)) == prefix
    ensures Digits(prefix + Numeral(n)) != [] && Value(Digits(prefix + Numeral(n))) == n
  {
    LettersOfId(prefix, Numeral(n));
    NumeralReadsBack(n);
  }

  // --- the ledger on values ------------------------------------------------

  datatype Item<T> = Item(id: string, content: T)

  type Counters = map<string, nat>

  function Count(counters: Counters, prefix: string): nat
  {
    if prefix in counters then counters[prefix] else 0
  }

  /** Raise the counter of the identifier's letters to the number it carries. */
  function Noted(counters: Counters, id: string): Counters
  {
    var prefix, digits := Letters(id), Digits(id);
    if prefix == [] || digits == [] then counters
    else counters[prefix := if Value(digits) > Count(counters, prefix) then Value(digits) else Count(counters, prefix)]
  }

  /** The counters a ledger opens with. */
  function Scan<T>(items: seq<Item<T>>): Counters
  {
    if items == [] then map[] else Noted(Scan(items[..|items| - 1]), items[|items| - 1].id)
  }

  function NextId(counters: Counters, prefix: string): string
  {
    prefix + Numeral(Count(counters, prefix) + 1)
  }

  /** An identifier does not carry a number above its letters' counter. */
  ghost predicate Within(counters: Counters, id: string)
  {
    Letters(id) != [] && Digits(id) != [] ==> Value(Digits(id)) <= Count(counters, Letters(id))
  }

  ghost predicate Covers<T>(counters: Counters, items: seq<Item<T>>)
  {
    forall i :: 0 <= i < |items| ==> Within(counters, items[i].id)
  }

  ghost predicate NotIn<T>(items: seq<Item<T>>, id: string)
  {
    forall i :: 0 <= i < |items| ==> items[i].id != id
  }

  lemma {:induction false} ScanCovers<T>(items: seq<Item<T>>)
    ensures Covers(Scan(items), items)
  {
    if items != [] {
      var rest, last := items[..|items| - 1], items[|items| - 1];
      ScanCovers(rest);
      forall i | 0 <= i < |items|
        ensures Within(Scan(items), items[i].id)
      {
        if i < |rest| {
          assert rest[i] == items[i];
        }
      }
    }
  }

  lemma NextIdIsAbove(counters: Counters, prefix: string)
    requires prefix != [] && AllLetters(prefix)
    ensures !Within(counters, NextId(counters, prefix))
  {
    IdReadsBack(prefix, Count(counters, prefix) + 1);
  }

  /** A ledger whose counters cover the list allocates an identifier that is not in it. */
  lemma NextIdIsFresh<T>(counters: Counters, items: seq<Item<T>>, prefix: string)
    requires Covers(counters, items) && prefix != [] && AllLetters(prefix)
    ensures NotIn(items, NextId(counters, prefix))
  {
    NextIdIsAbove(counters, prefix);
  }

  lemma AllocatingKeepsCovers<T>(counters: Counters, items: seq<Item<T>>, prefix: string, content: T)
    requires Covers(counters, items) && prefix != [] && AllLetters(prefix)
    ensures Covers(counters[prefix := Count(counters, prefix) + 1], items + [Item(NextId(counters, prefix), content)])
  {
    IdReadsBack(prefix, Count(counters, prefix) + 1);
    var after := items + [Item(NextId(counters, prefix), content)];
    assert forall i :: 0 <= i < |items| ==> after[i] == items[i];
  }

  // --- ledgers over one list, one after another ----------------------------

  datatype Entry<T> = Entry(prefix: string, content: T)

  ghost predicate Allocatable<T>(entries: seq<Entry<T>>)
  {
    forall i :: 0 <= i < |entries| ==> entries[i].prefix != [] && AllLetters(entries[i].prefix)
  }

  /** Everything one ledger adds, in order. */
  function AddAll<T>(counters: Counters, items: seq<Item<T>>, entries: seq<Entry<T>>): seq<Item<T>>
    decreases |entries|
  {
    if entries == [] then items
    else
      var e := entries[0];
      AddAll(counters[e.prefix := Count(counters, e.prefix) + 1],
             items + [Item(NextId(counters, e.prefix), e.content)],
             entries[1..])
  }

  /** One ledger after another, each opened over what the last one left. */
  function Sessions<T>(items: seq<Item<T>>, sessions: seq<seq<Entry<T>>>): seq<Item<T>>
    decreases |sessions|
  {
    if sessions == [] then items else Sessions(AddAll(Scan(items), items, sessions[0]), sessions[1..])
  }

  /** What is added from position n on is new: unlike anything before it. */
  ghost predicate FreshFrom<T>(items: seq<Item<T>>, n: nat)
  {
    forall j :: n <= j < |items| ==> NotIn(items[..j], items[j].id)
  }

  lemma {:induction false} AddAllIsFresh<T>(counters: Counters, items: seq<Item<T>>, entries: seq<Entry<T>>, n: nat)
    requires Covers(counters, items) && Allocatable(entries) && n <= |items| && FreshFrom(items, n)
    ensures items <= AddAll(counters, items, entries)
    ensures FreshFrom(AddAll(counters, items, entries), n)
    ensures |AddAll(counters, items, entries)| == |items| + |entries|
    decreases |entries|
  {
    if entries != [] {
      var e := entries[0];
      var more := items + [Item(NextId(counters, e.prefix), e.content)];
      NextIdIsFresh(counters, items, e.prefix);
      AllocatingKeepsCovers(counters, items, e.prefix, e.content);
      forall j | n <= j < |more|
        ensures NotIn(more[..j], more[j].id)
      {
        assert more[..j] == items[..j];
      }
      AddAllIsFresh(counters[e.prefix := Count(counters, e.prefix) + 1], more, entries[1..], n);
    }
  }

  lemma {:induction false} SessionsAreFresh<T>(items: seq<Item<T>>, sessions: seq<seq<Entry<T>>>, n: nat)
    requires n <= |items| && FreshFrom(items, n)
    requires forall s :: 0 <= s < |sessions| ==> Allocatable(sessions[s])
    ensures items <= Sessions(items, sessions) && FreshFrom(Sessions(items, sessions), n)
    decreases |sessions|
  {
    if sessions != [] {
      ScanCovers(items);
      AddAllIsFresh(Scan(items), items, sessions[0], n);
      SessionsAreFresh(AddAll(Scan(items), items, sessions[0]), sessions[1..], n);
    }
  }

  /**
   Whatever the list held to begin with, and however many ledgers are opened over
   it one after another, nothing already there is touched, no new identifier
   repeats one, and identifiers that were distinct stay so.
   */
  lemma IdentifiersAreNeverReused<T>(items: seq<Item<T>>, sessions: seq<seq<Entry<T>>>)
    requires forall s :: 0 <= s < |sessions| ==> Allocatable(sessions[s])
    ensures var after := Sessions(items, sessions);
            && items <= after
            && (forall i, j :: 0 <= i < j < |after| && |items| <= j ==> after[i].id != after[j].id)
            && ((forall i, j :: 0 <= i < j < |items| ==> items[i].id != items[j].id) ==>
                  forall i, j :: 0 <= i < j < |after| ==> after[i].id != after[j].id)
  {
    SessionsAreFresh(items, sessions, |items|);
    var after := Sessions(items, sessions);
    forall i, j | 0 <= i < j < |after| && |items| <= j
      ensures after[i].id != after[j].id
    {
      assert NotIn(after[..j], after[j].id) && after[..j][i] == after[i];
    }
    assert forall i :: 0 <= i < |items| ==> after[i] == items[i];
  }

  /** Two ledgers open at the same time do collide: each counts only what it saw and what it gave out. */
  lemma LedgersOpenTogetherCollide<T>(items: seq<Item<T>>, prefix: string, one: T, other: T)
    ensures var first := AddAll(Scan(items), items, [Entry(prefix, one)]);
            var second := AddAll(Scan(items), first, [Entry(prefix, other)]);
            && |second| == |items| + 2
            && second[|items|].id == second[|items| + 1].id
  {
    var id := NextId(Scan(items), prefix);
    assert AddAll(Scan(items), items, [Entry(prefix, one)]) == items + [Item(id, one)] by {
      assert [Entry(prefix, one)][1..] == [];
    }
    assert AddAll(Scan(items), items + [Item(id, one)], [Entry(prefix, other)]) == items + [Item(id, one)] + [Item(id, other)] by {
      assert [Entry(prefix, other)][1..] == [];
    }
  }

  // --- the objects ---------------------------------------------------------

  /** The task's list, shared by every ledger opened over it. */
  class ItemList<T> {
    var items: seq<Item<T>>

    constructor (items: seq<Item<T>>)
      ensures this.items == items
    {
      this.items := items;
    }
  }

  class EvidenceLedger<T> {
    const list: ItemList<T>
    var counters: Counters

    ghost predicate Valid()
      reads this, list
    {
      Covers(counters, list.items)
    }

    constructor (existing: ItemList<T>)
      ensures list == existing && counters == Scan(existing.items) && Valid()
    {
      list := existing;
      counters := map[];
      new;
      var i := 0;
      while i < |list.items|
        invariant 0 <= i <= |list.items|
        invariant counters == Scan(list.items[..i])
        invariant list.items == old(existing.items)
      {
        var prefix, digits := Letters(list.items[i].id), Digits(list.items[i].id);
        assert list.items[..i + 1][..i] == list.items[..i];
        if prefix != [] && digits != [] {
          var seen := Count(counters, prefix);
          counters := counters[prefix := if Value(digits) > seen then Value(digits) else seen];
        }
        i := i + 1;
      }
      assert list.items[..i] == list.items;
      ScanCovers(list.items);
    }

    /** Append one item under a freshly allocated identifier. */
    method Add(content: T, prefix: string) returns (id: string)
      requires Valid() && prefix != [] && AllLetters(prefix)
      modifies this`counters, list
      ensures Valid()
      ensures NotIn(old(list.items), id) && id == NextId(old(counters), prefix)
      ensures list.items == old(list.items) + [Item(id, content)]
      ensures counters == old(counters)[prefix := Count(old(counters), prefix) + 1]
    {
      NextIdIsFresh(counters, list.items, prefix);
      AllocatingKeepsCovers(counters, list.items, prefix, content);
      id := NextId(counters, prefix);
      counters := counters[prefix := Count(counters, prefix) + 1];
      list.items := list.items + [Item(id, content)];
    }
  }
}
