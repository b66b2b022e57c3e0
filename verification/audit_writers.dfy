/**
 Many processes appending to one audit file, interleaved statement by statement:
 take the lock, read the tail, append, release (backend/core/audit.py).
 */
module AuditWriters {
  import opened Wrappers
  import opened AuditChain

  datatype Phase = Outside | Inside | Read(tail: (int, Digest)) | Written

  datatype State = State(log: seq<Record>, lock: Option<nat>, phases: seq<Phase>)

  datatype Step = Lock(p: nat) | ReadTail(p: nat) | Write(p: nat, detail: string) | Unlock(p: nat)

  function Init(writers: nat): State
  {
    State([], None, seq(writers, _ => Outside))
  }

  /** One statement of one process; a statement that cannot run now changes nothing. */
  function Next(digest: Hasher, exclusive: bool, s: State, step: Step): State
  {
    if step.p >= |s.phases| then s
    else
      var phase := s.phases[step.p];
      match step
      case Lock(p) =>
        if phase.Outside? && (exclusive ==> s.lock == None)
        then s.(lock := Some(p), phases := s.phases[p := Inside]) else s
      case ReadTail(p) =>
        if phase.Inside? then s.(phases := s.phases[p := Read(TailOf(s.log))]) else s
      case Write(p, detail) =>
        if phase.Read?
        then s.(log := s.log + [NextRecord(digest, phase.tail, detail)], phases := s.phases[p := Written]) else s
      case Unlock(p) =>
        if phase.Written? then s.(lock := None, phases := s.phases[p := Outside]) else s
  }

  function Run(digest: Hasher, exclusive: bool, s: State, steps: seq<Step>): State
    decreases |steps|
  {
    if steps == [] then s else Run(digest, exclusive, Next(digest, exclusive, s, steps[0]), steps[1..])
  }

  ghost predicate Inv(digest: Hasher, s: State)
  {
    && (forall p :: 0 <= p < |s.phases| ==> (s.lock == Some(p) <==> !s.phases[p].Outside?))
    && (forall p :: 0 <= p < |s.phases| && s.phases[p].Read? ==> s.phases[p].tail == TailOf(s.log))
    && Chained(digest, s.log)
    && Numbered(s.log)
  }

  lemma StepKeepsInv(digest: Hasher, s: State, step: Step)
    requires Inv(digest, s)
    ensures Inv(digest, Next(digest, true, s, step))
    ensures s.log <= Next(digest, true, s, step).log
  {
    if step.p < |s.phases| {
      match step
      case Lock(p) =>
      case ReadTail(p) =>
      case Write(p, detail) =>
        if s.phases[p].Read? {
          AppendKeepsChainIff(digest, s.log, s.phases[p].tail, detail);
        }
      case Unlock(p) =>
    }
  }

  lemma {:induction false} RunKeepsInv(digest: Hasher, s: State, steps: seq<Step>)
    requires Inv(digest, s)
    ensures Inv(digest, Run(digest, true, s, steps))
    ensures s.log <= Run(digest, true, s, steps).log
    decreases |steps|
  {
    if steps != [] {
      StepKeepsInv(digest, s, steps[0]);
      RunKeepsInv(digest, Next(digest, true, s, steps[0]), steps[1..]);
    }
  }

  /** Under the lock every reachable log is one chain numbered 1..n, whatever the interleaving. */
  lemma EveryRunIsOneChain(digest: Hasher, writers: nat, steps: seq<Step>)
    ensures var log := Run(digest, true, Init(writers), steps).log;
            Chained(digest, log) && Numbered(log)
  {
    RunKeepsInv(digest, Init(writers), steps);
  }

  lemma {:induction false} RunInTwoParts(digest: Hasher, exclusive: bool, s: State, a: seq<Step>, b: seq<Step>)
    ensures Run(digest, exclusive, s, a + b) == Run(digest, exclusive, Run(digest, exclusive, s, a), b)
    decreases |a|
  {
    if a == [] {
      assert a + b == b;
    } else {
      assert (a + b)[1..] == a[1..] + b;
      RunInTwoParts(digest, exclusive, Next(digest, exclusive, s, a[0]), a[1..], b);
    }
  }

  /** What is written stays: any continuation of a run only appends to the log it has. */
  lemma RunsOnlyAppend(digest: Hasher, writers: nat, steps: seq<Step>, more: seq<Step>)
    ensures Run(digest, true, Init(writers), steps).log <= Run(digest, true, Init(writers), steps + more).log
  {
    RunKeepsInv(digest, Init(writers), steps);
    RunKeepsInv(digest, Run(digest, true, Init(writers), steps), more);
    RunInTwoParts(digest, true, Init(writers), steps, more);
  }

  /** The verifier accepts every such log, and reports its full length and head. */
  method VerifyAfterRun(digest: Hasher, writers: nat, steps: seq<Step>) returns (status: ChainStatus)
    ensures var log := Run(digest, true, Init(writers), steps).log;
            status == ChainStatus(true, |log|, None, HeadHash(log))
  {
    EveryRunIsOneChain(digest, writers, steps);
    status := VerifyChain(digest, Run(digest, true, Init(writers), steps).log);
  }

  /**
   Without the lock, two writers that both read before either writes leave two
   records with one number and one predecessor, and the verifier rejects them.
   */
  lemma UnlockedWritersFork(digest: Hasher, first: string, second: string)
    requires CollisionFree(digest)
    ensures var log := Run(digest, false, Init(2), BothReadThenWrite(first, second)).log;
            && |log| == 2
            && log[0].body.sequence == log[1].body.sequence
            && log[0].body.prevHash == log[1].body.prevHash
            && !Chained(digest, log)
  {
    BothWriteOneTail(digest, first, second);
    var a := NextRecord(digest, (0, GENESIS), first);
    NumbersAreNotVerified(digest, 0, first);
    AppendKeepsChainIff(digest, [a], (0, GENESIS), second);
    TipIsGenesisOnlyWhenEmpty(digest, [a]);
  }

  function BothReadThenWrite(first: string, second: string): seq<Step>
  {
    [Lock(0)] + ([Lock(1)] + ([ReadTail(0)] + ([ReadTail(1)] + ([Write(0, first)] + ([Write(1, second)] + [])))))
  }

  lemma BothWriteOneTail(digest: Hasher, first: string, second: string)
    ensures Run(digest, false, Init(2), BothReadThenWrite(first, second)).log ==
            [NextRecord(digest, (0, GENESIS), first)] + [NextRecord(digest, (0, GENESIS), second)]
  {
    var tail := (0, GENESIS);
    var a, b := NextRecord(digest, tail, first), NextRecord(digest, tail, second);
    var s1 := State([], Some(0), [Inside, Outside]);
    var s2 := State([], Some(1), [Inside, Inside]);
    var s3 := State([], Some(1), [Read(tail), Inside]);
    var s4 := State([], Some(1), [Read(tail), Read(tail)]);
    var s5 := State([a], Some(1), [Written, Read(tail)]);
    var s6 := State([a] + [b], Some(1), [Written, Written]);
    RunCons(digest, Init(2), Lock(0), s1, [Lock(1)] + ([ReadTail(0)] + ([ReadTail(1)] + ([Write(0, first)] + ([Write(1, second)] + [])))));
    RunCons(digest, s1, Lock(1), s2, [ReadTail(0)] + ([ReadTail(1)] + ([Write(0, first)] + ([Write(1, second)] + []))));
    RunCons(digest, s2, ReadTail(0), s3, [ReadTail(1)] + ([Write(0, first)] + ([Write(1, second)] + [])));
    RunCons(digest, s3, ReadTail(1), s4, [Write(0, first)] + ([Write(1, second)] + []));
    RunCons(digest, s4, Write(0, first), s5, [Write(1, second)] + []);
    RunCons(digest, s5, Write(1, second), s6, []);
  }

  lemma RunCons(digest: Hasher, s: State, step: Step, t: State, rest: seq<Step>)
    requires Next(digest, false, s, step) == t
    ensures Run(digest, false, s, [step] + rest) == Run(digest, false, t, rest)
  {
    assert ([step] + rest)[1..] == rest;
  }
}
