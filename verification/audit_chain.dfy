/**
 The hash-chained audit log: what `record` appends, what `verify_chain` accepts,
 and what an accepted head hash commits to (backend/core/audit.py).

 The digest is any function of the predecessor's hash and the event body. Where
 a result needs it, it is assumed collision-free and never to yield the genesis
 value.
 */
module AuditChain {
  import opened Wrappers

  type Digest = string

  const GENESIS: Digest := "0000000000000000000000000000000000000000000000000000000000000000"

  /** Everything in an event but its own hash; any field may be absent from a line of the file. */
  datatype Body = Body(sequence: Option<int>, prevHash: Option<Digest>, detail: string)

  datatype Record = Record(body: Body, hash: Option<Digest>)

  type Hasher = (Digest, Body) -> Digest

  ghost predicate CollisionFree(digest: Hasher)
  {
    && (forall p, b, q, c :: digest(p, b) == digest(q, c) ==> p == q && b == c)
    && (forall p, b :: digest(p, b) != GENESIS)
  }

  datatype ChainStatus = ChainStatus(valid: bool, events: nat, brokenAt: Option<int>, headHash: Option<Digest>)

  // --- the specification ---------------------------------------------------

  /** The hash the next record must name as its predecessor's. */
  function Tip(log: seq<Record>): Digest
  {
    if log == [] || log[|log| - 1].hash == None then GENESIS else log[|log| - 1].hash.value
  }

  /** `_tail`: the last sequence number and hash, with the defaults for an empty log or absent fields. */
  function TailOf(log: seq<Record>): (int, Digest)
  {
    (if log == [] || log[|log| - 1].body.sequence == None then 0 else log[|log| - 1].body.sequence.value, Tip(log))
  }

  predicate Links(digest: Hasher, prev: Digest, r: Record)
  {
    r.body.prevHash == Some(prev) && r.hash == Some(digest(prev, r.body))
  }

  /** One unbroken chain from genesis. */
  ghost predicate Chained(digest: Hasher, log: seq<Record>)
  {
    log == [] ||
    (var n := |log| - 1; Chained(digest, log[..n]) && Links(digest, Tip(log[..n]), log[n]))
  }

  ghost predicate Numbered(log: seq<Record>)
  {
    forall i :: 0 <= i < |log| ==> log[i].body.sequence == Some(i + 1)
  }

  /** The record a writer builds from the tail it read. */
  function NextRecord(digest: Hasher, tail: (int, Digest), detail: string): Record
  {
    var body := Body(Some(tail.0 + 1), Some(tail.1), detail);
    Record(body, Some(digest(tail.1, body)))
  }

  function HeadHash(log: seq<Record>): Option<Digest>
  {
    if log == [] then None else Some(Tip(log))
  }

  // --- reading and writing -------------------------------------------------

  /**
   Accepts exactly the unbroken chains. On rejection, the records before the
   reported one are the longest valid prefix, and the head hash is theirs.
   */
  method VerifyChain(digest: Hasher, log: seq<Record>) returns (status: ChainStatus)
    ensures status.valid <==> Chained(digest, log)
    ensures status.valid ==> status == ChainStatus(true, |log|, None, HeadHash(log))
    ensures !status.valid ==>
              && 1 <= status.events <= |log|
              && (forall n | 0 <= n <= |log| :: Chained(digest, log[..n]) <==> n < status.events)
              && status.headHash == HeadHash(log[..status.events - 1])
              && var bad := log[status.events - 1].body.sequence;
                 status.brokenAt == Some(if bad == None then status.events else bad.value)
  {
    var prevHash := GENESIS;
    var headHash: Option<Digest> := None;
    var count := 0;
    while count < |log|
      invariant 0 <= count <= |log|
      invariant prevHash == Tip(log[..count]) && headHash == HeadHash(log[..count])
      invariant Chained(digest, log[..count])
    {
      var record := log[count];
      assert log[..count + 1][..count] == log[..count];
      count := count + 1;
      if record.body.prevHash != Some(prevHash) || record.hash != Some(digest(prevHash, record.body)) {
        assert !Chained(digest, log[..count]);
        FirstBreak(digest, log, count);
        var reported := if record.body.sequence == None then count else record.body.sequence.value;
        return ChainStatus(false, count, Some(reported), headHash);
      }
      prevHash := record.hash.value;
      headHash := Some(prevHash);
    }
    assert log[..|log|] == log;
    status := ChainStatus(true, count, None, headHash);
  }

  lemma {:induction false} PrefixIsChained(digest: Hasher, log: seq<Record>, n: nat)
    requires Chained(digest, log) && n <= |log|
    ensures Chained(digest, log[..n])
    decreases |log|
  {
    if n == |log| {
      assert log[..n] == log;
    } else {
      PrefixIsChained(digest, log[..|log| - 1], n);
      assert log[..|log| - 1][..n] == log[..n];
    }
  }

  /** Prefixes of a chain are chains, and a broken prefix is never mended by what follows. */
  lemma FirstBreak(digest: Hasher, log: seq<Record>, count: nat)
    requires 1 <= count <= |log|
    requires Chained(digest, log[..count - 1]) && !Chained(digest, log[..count])
    ensures forall n | 0 <= n <= |log| :: Chained(digest, log[..n]) <==> n < count
  {
    forall n | 0 <= n <= |log|
      ensures Chained(digest, log[..n]) <==> n < count
    {
      if n < count {
        PrefixIsChained(digest, log[..count - 1], n);
        assert log[..count - 1][..n] == log[..n];
      } else if Chained(digest, log[..n]) {
        assert log[..n][..count] == log[..count];
        PrefixIsChained(digest, log[..n], count);
      }
    }
  }

  /** An append extends the chain exactly when the tail it was built from is still the tail. */
  lemma AppendKeepsChainIff(digest: Hasher, log: seq<Record>, tail: (int, Digest), detail: string)
    requires Chained(digest, log)
    ensures Chained(digest, log + [NextRecord(digest, tail, detail)]) <==> tail.1 == Tip(log)
  {
    assert (log + [NextRecord(digest, tail, detail)])[..|log|] == log;
  }

  class AuditLog {
    const digest: Hasher
    var enabled: bool
    var records: seq<Record>

    constructor (digest: Hasher, enabled: bool)
      ensures this.digest == digest && this.enabled == enabled && records == []
    {
      this.digest := digest;
      this.enabled := enabled;
      records := [];
    }

    /** Appends one event, numbered and linked after the last; nothing when auditing is off. */
    method Append(detail: string) returns (event: Option<Record>)
      modifies this`records
      ensures !enabled ==> event == None && records == old(records)
      ensures enabled ==>
                && event == Some(NextRecord(digest, TailOf(old(records)), detail))
                && records == old(records) + [event.value]
                && event.value.body.detail == detail && event.value.body.prevHash == Some(Tip(old(records)))
                && event.value.hash == Some(digest(Tip(old(records)), event.value.body))
      ensures Chained(digest, old(records)) ==> Chained(digest, records)
      ensures Numbered(old(records)) ==> Numbered(records)
    {
      if !enabled {
        return None;
      }
      var tail := TailOf(records);
      var record := NextRecord(digest, tail, detail);
      if Chained(digest, records) {
        AppendKeepsChainIff(digest, records, tail, detail);
      }
      records := records + [record];
      event := Some(record);
    }
  }

  // --- what a head hash commits to -----------------------------------------

  /** Two accepted logs with the same head hash are the same log. */
  lemma {:induction false} HeadCommitsToLog(digest: Hasher, a: seq<Record>, b: seq<Record>)
    requires CollisionFree(digest)
    requires Chained(digest, a) && Chained(digest, b)
    requires HeadHash(a) == HeadHash(b)
    ensures a == b
    decreases |a|
  {
    if a != [] && b != [] {
      var m, n := |a| - 1, |b| - 1;
      TipIsGenesisOnlyWhenEmpty(digest, a[..m]);
      TipIsGenesisOnlyWhenEmpty(digest, b[..n]);
      HeadCommitsToLog(digest, a[..m], b[..n]);
      assert a == a[..m] + [a[m]] && b == b[..n] + [b[n]];
    }
  }

  lemma TipIsGenesisOnlyWhenEmpty(digest: Hasher, log: seq<Record>)
    requires CollisionFree(digest) && Chained(digest, log)
    ensures Tip(log) == GENESIS <==> log == []
  {
  }

  /** Any rewriting of an accepted log that keeps its head hash is rejected. */
  lemma RewritingIsDetected(digest: Hasher, log: seq<Record>, rewritten: seq<Record>)
    requires CollisionFree(digest) && Chained(digest, log)
    requires rewritten != log && HeadHash(rewritten) == HeadHash(log)
    ensures !Chained(digest, rewritten)
  {
    if Chained(digest, rewritten) {
      HeadCommitsToLog(digest, log, rewritten);
    }
  }

  /** Without the head hash to compare, truncation passes: every proper prefix is accepted, under another head. */
  lemma TruncationNeedsTheHead(digest: Hasher, log: seq<Record>, n: nat)
    requires CollisionFree(digest) && Chained(digest, log) && n < |log|
    ensures Chained(digest, log[..n]) && HeadHash(log[..n]) != HeadHash(log)
  {
    PrefixIsChained(digest, log, n);
    if HeadHash(log[..n]) == HeadHash(log) {
      HeadCommitsToLog(digest, log[..n], log);
    }
  }

  /** The verifier does not read sequence numbers: a chain that starts at any number is accepted. */
  lemma NumbersAreNotVerified(digest: Hasher, start: int, detail: string)
    ensures Chained(digest, [NextRecord(digest, (start, GENESIS), detail)])
  {
    AppendKeepsChainIff(digest, [], (start, GENESIS), detail);
    assert [] + [NextRecord(digest, (start, GENESIS), detail)] == [NextRecord(digest, (start, GENESIS), detail)];
  }
}
