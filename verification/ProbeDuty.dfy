/** The probe neglects none of its duties: its rounds make for a fair schedule, so every libttsim call ends with it
    as the peer. */
module ProbeDuty {
  import opened Link
  import opened HostMemory
  import opened Device
  import opened System
  import opened Timing
  import opened Progress
  import opened Returning
  import opened Fairness
  import P = Probe

  /** Where the probe moves its clock is as far as duty asks. */
  lemma NextStopAdvances(sys: Sys, stepPs: nat, cap: bool, st: St)
    requires sys.sync && stepPs > 0 && st.h.port.now <= Deadline(sys.host, st.h.port)
    ensures Does(sys, st, Peer(HAdvance(P.NextStop(sys, stepPs, cap, st.h.port))), Advance)
  {
  }

  /** Every full round does every duty of the host: it begins with sending what is owed, polls, and ends with moving
      the clock as far as duty asks, having found nothing due. */
  lemma RoundDoesEveryDuty(sys: Sys, stepPs: nat, cap: bool, l: P.Local, l': P.Local) returns (m: P.Local, n: nat)
    requires sys.sync && stepPs > 0 && P.Round(sys, stepPs, cap, l, l')
    ensures Does(sys, l.st, Peer(HSend), SendSync)
    ensures n > 0 && P.Polls(sys, n, l.(st := HostStep(sys, l.st, HSend)), m)
    ensures Does(sys, P.Arrived(l).st, Peer(HPoll), PollRing)
    ensures !Due(true, m.st.h.port, m.st.d2h)
    ensures var t := P.NextStop(sys, stepPs, cap, m.st.h.port);
            && l' == m.(st := HostStep(sys, m.st, HAdvance(t)))
            && (m.st.h.port.now <= Deadline(sys.host, m.st.h.port) ==> Does(sys, m.st, Peer(HAdvance(t)), Advance))
  {
    hide P.Polls, HostStep, Deadline, P.NextStop;
    m :| P.Opens(sys, l, m) && P.Dry(sys, m.st) &&
         l' == m.(st := HostStep(sys, m.st, HAdvance(P.NextStop(sys, stepPs, cap, m.st.h.port))));
    n :| n > 0 && P.Polls(sys, n, l.(st := HostStep(sys, l.st, HSend)), m);
    if m.st.h.port.now <= Deadline(sys.host, m.st.h.port) {
      NextStopAdvances(sys, stepPs, cap, m.st);
    }
  }

  /** Step `k` of a schedule, not before step `n`, is one that the probe's rounds are made of. */
  ghost predicate ProbeStep(sys: Sys, mem: seq<Byte>, labels: seq<Label>, sched: nat -> Label, stepPs: nat, n: nat,
                            d: Duty, k: nat)
    requires sys.psPerClock > 0 && sys.maxChunk > 0
  {
    n <= k &&
    match d
    case RunDevice => sched(k).Adapter?
    case SendSync => sched(k) == Peer(HSend)
    case PollRing => sched(k) == Peer(HPoll)
    case Advance =>
      exists cap: bool ::
        sched(k) == Peer(HAdvance(P.NextStop(sys, stepPs, cap, Run(sys, mem, After(labels, sched, k)).h.port)))
  }

  ghost predicate ProbeAgain(sys: Sys, mem: seq<Byte>, labels: seq<Label>, sched: nat -> Label, stepPs: nat, n: nat,
                             d: Duty)
    requires sys.psPerClock > 0 && sys.maxChunk > 0
  {
    exists k: nat :: ProbeStep(sys, mem, labels, sched, stepPs, n, d, k)
  }

  /** A schedule of the adapter and the pumping probe: the adapter and each part of a round come again and again. */
  ghost predicate WithProbe(sys: Sys, mem: seq<Byte>, labels: seq<Label>, sched: nat -> Label, stepPs: nat)
    requires sys.psPerClock > 0 && sys.maxChunk > 0
  {
    && (forall n: nat :: Cooperative(sched(n)))
    && forall n: nat, d: Duty :: ProbeAgain(sys, mem, labels, sched, stepPs, n, d)
  }

  lemma ProbeStepDoes(sys: Sys, mem: seq<Byte>, labels: seq<Label>, sched: nat -> Label, stepPs: nat, n: nat, d: Duty,
                      k: nat)
    requires Valid(sys) && sys.sync && stepPs > 0 && ProbeStep(sys, mem, labels, sched, stepPs, n, d, k)
    ensures Falls(sys, mem, labels, sched, n, d, k)
  {
    if d.Advance? {
      var st := Run(sys, mem, After(labels, sched, k));
      RunKeeps(sys, mem, After(labels, sched, k));
      NowByDeadline(sys, st);
      hide Run, After, Inv, Does, Deadline, P.NextStop;
      var cap: bool :| sched(k) == Peer(HAdvance(P.NextStop(sys, stepPs, cap, st.h.port)));
      NextStopAdvances(sys, stepPs, cap, st);
    }
  }

  /** The probe is a fair host. */
  lemma {:induction false} ProbeIsFair(sys: Sys, mem: seq<Byte>, labels: seq<Label>, sched: nat -> Label, stepPs: nat)
    requires Valid(sys) && sys.sync && stepPs > 0 && WithProbe(sys, mem, labels, sched, stepPs)
    ensures Fair(sys, mem, labels, sched)
  {
    hide Run, After, Falls, ProbeStep;
    forall n: nat, d: Duty ensures Recurs(sys, mem, labels, sched, n, d) {
      assert ProbeAgain(sys, mem, labels, sched, stepPs, n, d);
      var k: nat :| ProbeStep(sys, mem, labels, sched, stepPs, n, d, k);
      ProbeStepDoes(sys, mem, labels, sched, stepPs, n, d, k);
    }
  }

  /** With the probe as its peer, every libttsim call ends. */
  lemma {:induction false} ProbeEndsEveryCall(sys: Sys, mem: seq<Byte>, labels: seq<Label>, sched: nat -> Label,
                                              stepPs: nat) returns (end: nat)
    requires Valid(sys) && sys.sync && KeepMoving(sys.dev, sys.host) && stepPs > 0
    requires WithProbe(sys, mem, labels, sched, stepPs)
    requires var st := Run(sys, mem, labels); !st.a.pc.Idle? && Undisturbed(st.a, st.h2d)
    ensures Completed(sys, mem, Run(sys, mem, labels), Run(sys, mem, After(labels, sched, end)))
  {
    hide Run, After, WithProbe, Fair, Undisturbed, KeepMoving, Completed;
    ProbeIsFair(sys, mem, labels, sched, stepPs);
    end := EveryFairScheduleEndsTheCall(sys, mem, labels, sched);
  }
}
