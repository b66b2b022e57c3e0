/**
 What each record of the audit log holds and that none is lost, whoever writes
 (backend/core/audit.py).
 */
module AuditRecords {
  import opened Wrappers
  import opened AuditChain
  import opened AuditWriters

  /** The tail of a log is its last record's number and hash; an empty log, or a record without one, counts as zero and genesis. */
  lemma TailIs(log: seq<Record>)
    ensures log == [] ==> TailOf(log) == (0, GENESIS)
    ensures log != [] ==>
              var last := log[|log| - 1];
              && TailOf(log).0 == (match last.body.sequence case Some(n) => n case None => 0)
              && TailOf(log).1 == (match last.hash case Some(h) => h case None => GENESIS)
  {
  }

  /** A record holds its event, the next number and the hash before it, and its own hash is over all three. */
  lemma RecordHolds(digest: Hasher, tail: (int, Digest), detail: string)
    ensures var r := NextRecord(digest, tail, detail);
            && r.body.detail == detail && r.body.sequence == Some(tail.0 + 1) && r.body.prevHash == Some(tail.1)
            && r.hash == Some(digest(tail.1, r.body))
  {
  }

  // --- one writer ----------------------------------------------------------

  /** A writer moves by its own statements alone, and the lock is taken only free and freed only by the writer that wrote. */
  lemma WriterIsMovedBy(digest: Hasher, s: State, step: Step, p: nat)
    requires p < |s.phases|
    ensures var now := Next(digest, true, s, step);
            && |now.phases| == |s.phases|
            && now.phases[p] ==
                 (match s.phases[p]
                  case Outside => if step == Lock(p) && s.lock == None then Inside else Outside
                  case Inside => if step == ReadTail(p) then Read(TailOf(s.log)) else Inside
                  case Read(tail) => if step.Write? && step.p == p then Written else Read(tail)
                  case Written => if step == Unlock(p) then Outside else Written)
            && (s.phases[p].Outside? && step == Lock(p) && s.lock == None ==> now.lock == Some(p))
            && (s.phases[p].Written? && step == Unlock(p) ==> now.lock == None)
            && (now.lock != s.lock ==> (step.Lock? && s.lock == None) || step.Unlock?)
  {
  }

  /** At most one writer is past the lock. */
  lemma OneWriterInside(digest: Hasher, writers: nat, steps: seq<Step>, p: nat, q: nat)
    requires p < writers && q < writers
    ensures var s := Run(digest, true, Init(writers), steps);
            |s.phases| == writers && (!s.phases[p].Outside? && !s.phases[q].Outside? ==> p == q)
  {
    RunKeepsInv(digest, Init(writers), steps);
    PhasesStay(digest, Init(writers), steps);
  }

  lemma {:induction false} PhasesStay(digest: Hasher, s: State, steps: seq<Step>)
    ensures |Run(digest, true, s, steps).phases| == |s.phases|
    decreases |steps|
  {
    if steps != [] {
      PhasesStay(digest, Next(digest, true, s, steps[0]), steps[1..]);
    }
  }

  lemma RunOne(digest: Hasher, s: State, step: Step, rest: seq<Step>)
    ensures Run(digest, true, s, [step] + rest) == Run(digest, true, Next(digest, true, s, step), rest)
  {
    assert ([step] + rest)[1..] == rest;
  }

  /** A writer that finds the lock free appends its event after the last one and leaves the lock free. */
  lemma WritesWhenFree(digest: Hasher, s: State, p: nat, detail: string)
    requires p < |s.phases| && s.phases[p].Outside? && s.lock == None
    ensures var after := Run(digest, true, s, [Lock(p), ReadTail(p), Write(p, detail), Unlock(p)]);
            after == s.(log := s.log + [NextRecord(digest, TailOf(s.log), detail)])
  {
    assert [Lock(p), ReadTail(p), Write(p, detail), Unlock(p)] == [Lock(p)] + ([ReadTail(p)] + ([Write(p, detail)] + ([Unlock(p)] + [])));
    var one := s.(lock := Some(p), phases := s.phases[p := Inside]);
    var two := one.(phases := one.phases[p := Read(TailOf(s.log))]);
    var three := two.(log := s.log + [NextRecord(digest, TailOf(s.log), detail)], phases := two.phases[p := Written]);
    RunOne(digest, s, Lock(p), [ReadTail(p)] + ([Write(p, detail)] + ([Unlock(p)] + [])));
    RunOne(digest, one, ReadTail(p), [Write(p, detail)] + ([Unlock(p)] + []));
    RunOne(digest, two, Write(p, detail), [Unlock(p)] + []);
    RunOne(digest, three, Unlock(p), []);
    assert three.phases[p := Outside] == s.phases;
  }

  /** The head is the hash of the last record, and there is none only where there is no record. */
  lemma HeadIs(log: seq<Record>)
    ensures HeadHash(log) == None <==> log == []
    ensures log != [] && log[|log| - 1].hash.Some? ==> HeadHash(log) == log[|log| - 1].hash
  {
  }

  // --- any number ----------------------------------------------------------

  function Details(log: seq<Record>): seq<string>
  {
    seq(|log|, i requires 0 <= i < |log| => log[i].body.detail)
  }

  /** The events written along a run: those of the writers that had read a tail, in order. */
  function Events(digest: Hasher, s: State, steps: seq<Step>): seq<string>
    decreases |steps|
  {
    if steps == [] then []
    else (if steps[0].Write? && steps[0].p < |s.phases| && s.phases[steps[0].p].Read? then [steps[0].detail] else [])
         + Events(digest, Next(digest, true, s, steps[0]), steps[1..])
  }

  lemma DetailsMove(digest: Hasher, s: State, step: Step)
    ensures Details(Next(digest, true, s, step).log) ==
            Details(s.log) + if step.Write? && step.p < |s.phases| && s.phases[step.p].Read? then [step.detail] else []
  {
  }

  /** The log holds every event written, once, in the order they were written, whatever the interleaving. */
  lemma {:induction false} NoEventIsLost(digest: Hasher, s: State, steps: seq<Step>)
    ensures Details(Run(digest, true, s, steps).log) == Details(s.log) + Events(digest, s, steps)
    decreases |steps|
  {
    if steps != [] {
      DetailsMove(digest, s, steps[0]);
      NoEventIsLost(digest, Next(digest, true, s, steps[0]), steps[1..]);
    }
  }
}
