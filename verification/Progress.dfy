/** Time progress: whether the two parties can ever wait for each other for good. */
module Progress {
  import opened Link
  import opened HostMemory
  import opened Bars
  import opened Device
  import opened System
  import opened Timing
  import opened Arithmetic

  /** A side that owes no sync, has polled dry and may not move its clock. */
  ghost predicate Blocked<B>(w: Wire, p: Port, q: seq<Msg<B>>) {
    && !SyncOwed(true, w, p)
    && !Due(true, p, q)
    && Peeked(p, q) == p
    && Deadline(w, p) <= p.now
  }

  ghost predicate BothBlocked(sys: Sys, st: St) {
    Blocked(sys.dev, st.a.port, st.h2d) && Blocked(sys.host, st.h.port, st.d2h)
  }

  /** The adapter owes a sync by the time the greeting is due, and not both sides are silent for too long. */
  predicate KeepMoving(dev: Wire, host: Wire) {
    dev.interval <= host.latency && dev.interval + host.interval <= dev.latency + host.latency + 1
  }

  /** Time progress: no reachable state has both sides blocked, wherever the adapter's control is. */
  lemma {:induction false} NeverBothBlocked(sys: Sys, mem: seq<Byte>, labels: seq<Label>)
    requires Valid(sys) && sys.sync && KeepMoving(sys.dev, sys.host)
    ensures !BothBlocked(sys, Run(sys, mem, labels))
  {
    RunKeeps(sys, mem, labels);
    HostGreeted(sys, mem, labels);
  }

  lemma {:induction false} HostGreeted(sys: Sys, mem: seq<Byte>, labels: seq<Label>)
    requires Valid(sys)
    ensures Run(sys, mem, labels).h.port.stamps != []
  {
    if labels == [] {
    } else {
      HostGreeted(sys, mem, labels[..|labels| - 1]);
    }
  }

  // ---------------------------------------------------------------------------
  // A device that does no DMA, left alone

  const QUIET_LIB := Lib((log, entry, told) => Finish([]), (log, entry) => 0)

  /** Any clock period will do. */
  function Quiet(dev: Wire, host: Wire, ps: nat): Sys {
    Sys(true, dev, host, 0, ps, 1, 1, WORMHOLE, 0, QUIET_LIB)
  }

  /** The adapter is in its main loop, or in a clock batch it has just begun. */
  predicate Between(a: Dev) {
    a.pc.Idle? || (a.pc.InCall? && a.pc.job.Batch? && a.pc.job.n > 0 && a.pc.job.at == a.port.now && a.pc.told == [])
  }

  /** The adapter only clocks and waits: it never has a request to serve and sends only syncs, one at every
      multiple of its interval. */
  ghost predicate Waiting(sys: Sys, st: St)
    requires sys.dev.interval > 0
  {
    && sys.lib == QUIET_LIB
    && Between(st.a) && st.a.mmioQ == []
    && !st.a.flags.exiting && !st.a.flags.stopped && !st.a.flags.fault
    && st.a.port.lastOut % sys.dev.interval == 0
    && (st.a.pc.InCall? || !st.a.pc.phase.Syncing? ==> !SyncOwed(true, sys.dev, st.a.port))
    && (forall i :: 0 <= i < |st.h2d| ==> st.h2d[i].body.DevCtrl?)
    && (forall i :: 0 <= i < |st.d2h| ==>
          st.d2h[i].body.DSync? && st.d2h[i].stamp >= sys.dev.interval + sys.dev.latency)
  }

  /** All that the host has sent has been seen, and no sync is owed. */
  ghost predicate CaughtUp(sys: Sys, st: St) {
    && st.a.pc.Idle? && st.h2d == []
    && st.a.port.now == st.h.port.lastOut + sys.host.latency && !SyncOwed(true, sys.dev, st.a.port)
  }

  /** How far the adapter still is from having caught up, at one point in time. */
  function Rank(sys: Sys, st: St): nat
    requires Between(st.a)
  {
    if st.a.pc.InCall? then 0
    else match st.a.pc.phase
      case Syncing => if SyncOwed(true, sys.dev, st.a.port) then 4 else 3
      case Polling => 2
      case Acting => if st.h2d != [] && st.a.port.inTs <= st.a.port.now then 5 else 1
  }

  function TimeLeft(sys: Sys, st: St): int {
    st.h.port.lastOut + sys.host.latency - st.a.port.now
  }

  /** One more step of waiting: time, the ring or the phase moves on. */
  ghost predicate Closer(sys: Sys, st: St, st': St)
    requires sys.dev.interval > 0 && Between(st.a)
  {
    && Waiting(sys, st') && st'.h == st.h && TimeLeft(sys, st') <= TimeLeft(sys, st)
    && (TimeLeft(sys, st') == TimeLeft(sys, st) ==>
          |st'.h2d| < |st.h2d| || (|st'.h2d| == |st.h2d| && Rank(sys, st') < Rank(sys, st)))
  }

  lemma SyncingStep(sys: Sys, st: St)
    requires Valid(sys) && sys.sync && Inv(sys, st) && Waiting(sys, st)
    requires st.a.pc.Idle? && st.a.pc.phase.Syncing?
    ensures Closer(sys, st, Step(sys, st, Adapter(0)))
  {
    hide CallStep, PumpAct, BeginMmio, BeginClocks, PollOnce;
    NextMultiple(st.a.port.lastOut, sys.dev.interval);
  }

  lemma PollingStep(sys: Sys, st: St)
    requires Valid(sys) && sys.sync && Waiting(sys, st) && st.a.pc.Idle? && st.a.pc.phase.Polling?
    ensures Closer(sys, st, Step(sys, st, Adapter(0)))
  {
    hide CallStep, PumpAct, BeginMmio, BeginClocks;
  }

  lemma ActingStep(sys: Sys, st: St)
    requires Valid(sys) && sys.sync
    requires Inv(sys, st) && st.h.port.stamps != [] && Waiting(sys, st) && !CaughtUp(sys, st)
    requires st.a.pc.Idle? && st.a.pc.phase.Acting?
    ensures Closer(sys, st, Step(sys, st, Adapter(0)))
  {
    hide CallStep, PumpAct, BeginMmio, PhaseStep;
  }

  /** A batch of at least one step takes time, and ends at once. */
  lemma BatchStep(sys: Sys, st: St)
    requires Valid(sys) && sys.sync && Waiting(sys, st) && st.a.pc.InCall?
    ensures Closer(sys, st, Step(sys, st, Adapter(0)))
  {
    hide PumpAct, BeginMmio, BeginClocks, PhaseStep, Continue;
    assert st.a.pc.job.n * sys.psPerClock > 0;
  }

  lemma WaitingStep(sys: Sys, st: St)
    requires Valid(sys) && sys.sync
    requires Inv(sys, st) && st.h.port.stamps != [] && Waiting(sys, st) && !CaughtUp(sys, st)
    ensures Closer(sys, st, Step(sys, st, Adapter(0)))
  {
    hide Inv, Closer, Step;
    if st.a.pc.InCall? {
      BatchStep(sys, st);
    } else {
      match st.a.pc.phase
      case Syncing => SyncingStep(sys, st);
      case Polling => PollingStep(sys, st);
      case Acting => ActingStep(sys, st);
    }
  }

  lemma NextMultiple(x: nat, d: nat)
    requires d > 0
    ensures (x + d) % d == x % d
  {
    assert x + d == (x / d + 1) * d + x % d;
    DivisionIsUnique(x + d, d, x / d + 1, x % d);
  }

  lemma TimeIsLeft(sys: Sys, st: St)
    requires sys.sync && Inv(sys, st) && st.h.port.stamps != []
    ensures TimeLeft(sys, st) >= 0
  {
  }

  /** Left alone, the adapter catches up with the host. */
  lemma {:induction false} CatchUp(sys: Sys, mem: seq<Byte>, labels: seq<Label>) returns (labels': seq<Label>)
    requires Valid(sys) && sys.sync && Waiting(sys, Run(sys, mem, labels))
    ensures var st, st' := Run(sys, mem, labels), Run(sys, mem, labels');
            Waiting(sys, st') && CaughtUp(sys, st') && st'.h == st.h
    decreases TimeLeft(sys, Run(sys, mem, labels)), |Run(sys, mem, labels).h2d|, Rank(sys, Run(sys, mem, labels))
  {
    var st := Run(sys, mem, labels);
    RunKeeps(sys, mem, labels);
    HostGreeted(sys, mem, labels);
    TimeIsLeft(sys, st);
    hide Inv, Step, Run, Waiting, CaughtUp, Rank;
    if CaughtUp(sys, st) {
      labels' := labels;
    } else {
      WaitingStep(sys, st);
      RunExtend(sys, mem, labels, Adapter(0));
      labels' := CatchUp(sys, mem, labels + [Adapter(0)]);
    }
  }

  // ---------------------------------------------------------------------------
  // The host

  /** The host moves its clock by one and sends, again and again, until time `y`. */
  lemma {:induction false} Creep(sys: Sys, mem: seq<Byte>, labels: seq<Label>, y: nat) returns (labels': seq<Label>)
    requires Valid(sys) && sys.sync && Waiting(sys, Run(sys, mem, labels))
    requires var p := Run(sys, mem, labels).h.port; p.now == p.lastOut <= y <= p.inTs
    ensures var st, st' := Run(sys, mem, labels), Run(sys, mem, labels');
            && Waiting(sys, st') && st'.a == st.a && st'.d2h == st.d2h
            && st'.h.port.now == st'.h.port.lastOut == y
    decreases y - Run(sys, mem, labels).h.port.now
  {
    var st := Run(sys, mem, labels);
    if st.h.port.now == y {
      labels' := labels;
    } else {
      var t := st.h.port.now + 1;
      RunExtend(sys, mem, labels, Peer(HAdvance(t)));
      RunExtend(sys, mem, labels + [Peer(HAdvance(t))], Peer(HCtrl(0)));
      var labels2 := labels + [Peer(HAdvance(t))] + [Peer(HCtrl(0))];
      var st2 := Run(sys, mem, labels2);
      hide Run, AStep;
      assert st2.h.port.now == st2.h.port.lastOut == t && st2.h.port.inTs == st.h.port.inTs;
      assert st2.a == st.a && st2.d2h == st.d2h && Waiting(sys, st2);
      labels' := Creep(sys, mem, labels2, y);
    }
  }

  /** The host polls and waits, without owing a sync, until it has seen all that the adapter has sent. */
  lemma {:induction false} HostCatchUp(sys: Sys, mem: seq<Byte>, labels: seq<Label>) returns (labels': seq<Label>)
    requires Valid(sys) && sys.sync && Waiting(sys, Run(sys, mem, labels))
    requires var st := Run(sys, mem, labels);
             && st.a.port.stamps != []
             && st.a.port.lastOut + sys.dev.latency < st.h.port.lastOut + sys.host.interval
    ensures var st, st' := Run(sys, mem, labels), Run(sys, mem, labels');
            && st'.a == st.a && st'.h2d == st.h2d && st'.h.port.lastOut == st.h.port.lastOut
            && st'.d2h == [] && st'.h.port.now == st'.h.port.inTs == st.a.port.lastOut + sys.dev.latency
    decreases
      Run(sys, mem, labels).a.port.lastOut + sys.dev.latency - Run(sys, mem, labels).h.port.now,
      |Run(sys, mem, labels).d2h|,
      Run(sys, mem, labels).a.port.lastOut + sys.dev.latency - Run(sys, mem, labels).h.port.inTs
  {
    var st := Run(sys, mem, labels);
    RunKeeps(sys, mem, labels);
    var end := st.a.port.lastOut + sys.dev.latency;
    if st.d2h == [] && st.h.port.now == end {
      labels' := labels;
    } else {
      var move := if st.h.port.now < st.h.port.inTs then HAdvance(st.h.port.inTs) else HPoll;
      RunExtend(sys, mem, labels, Peer(move));
      HostWaits(sys, st);
      hide Run, Step, Inv, Waiting;
      labels' := HostCatchUp(sys, mem, labels + [Peer(move)]);
    }
  }

  lemma HostWaits(sys: Sys, st: St)
    requires Valid(sys) && sys.sync && Inv(sys, st) && Waiting(sys, st) && st.a.port.stamps != []
    requires st.a.port.lastOut + sys.dev.latency < st.h.port.lastOut + sys.host.interval
    requires st.d2h != [] || st.h.port.now < st.a.port.lastOut + sys.dev.latency
    ensures var end := st.a.port.lastOut + sys.dev.latency;
            var move := if st.h.port.now < st.h.port.inTs then HAdvance(st.h.port.inTs) else HPoll;
            var st' := Step(sys, st, Peer(move));
            && Waiting(sys, st') && st'.a == st.a && st'.h2d == st.h2d && st'.h.port.lastOut == st.h.port.lastOut
            && st.h.port.now <= st'.h.port.now <= end
            && (st'.h.port.now == st.h.port.now ==>
                  || |st'.d2h| < |st.d2h|
                  || (|st'.d2h| == |st.d2h| && st.h.port.inTs < st'.h.port.inTs <= end))
  {
    hide AStep;
  }

  // ---------------------------------------------------------------------------
  // How they get stuck

  lemma QuietIsValid(dev: Wire, host: Wire, ps: nat)
    requires dev.interval > 0 && host.interval > 0 && ps > 0
    ensures Valid(Quiet(dev, host, ps))
  {
  }

  /** Where the adapter stands once it has caught up: its last sync went out at the last multiple of its interval. */
  lemma LastSync(sys: Sys, st: St)
    requires Valid(sys) && sys.sync && Inv(sys, st) && Waiting(sys, st) && CaughtUp(sys, st)
    ensures st.a.port.lastOut == st.a.port.now - st.a.port.now % sys.dev.interval
  {
    assert st.a.port.lastOut % sys.dev.interval == 0;
    hide Ordered, Paced;
    assert st.a.port.lastOut <= st.a.port.now < st.a.port.lastOut + sys.dev.interval;
    hide Inv, Waiting, CaughtUp;
    MultipleBelow(st.a.port.lastOut, st.a.port.now, sys.dev.interval);
  }

  lemma MultipleBelow(m: nat, n: nat, d: nat)
    requires d > 0 && m % d == 0 && m <= n < m + d
    ensures m == n - n % d
  {
    var q := m / d;
    assert m == q * d;
    DivisionIsUnique(n, d, q, n - m);
  }

  /** What the host, when it has only greeted, can have got from an adapter that waits. */
  lemma OnlyGreeted(sys: Sys, st: St)
    requires Valid(sys) && sys.sync && Inv(sys, st) && Waiting(sys, st) && st.h.port.inTs == 0
    ensures st.d2h == [] <==> st.a.port.lastOut == 0
  {
    if st.d2h != [] {
      assert st.d2h[|st.d2h| - 1].stamp >= sys.dev.interval + sys.dev.latency;
    }
  }

  /** If the greeting falls due before the adapter owes its first sync, the adapter never says anything. */
  lemma {:induction false} LateFirstSyncBlocks(dev: Wire, host: Wire, ps: nat, mem: seq<Byte>)
    returns (labels: seq<Label>)
    requires host.latency < dev.interval && host.interval > 0 && ps > 0
    ensures BothBlocked(Quiet(dev, host, ps), Run(Quiet(dev, host, ps), mem, labels))
  {
    var sys := Quiet(dev, host, ps);
    QuietIsValid(dev, host, ps);
    assert Waiting(sys, Run(sys, mem, []));
    labels := CatchUp(sys, mem, []);
    var st := Run(sys, mem, labels);
    RunKeeps(sys, mem, labels);
    hide Run, BatchFits;
    LastSync(sys, st);
    SmallRemainder(st.a.port.now, dev.interval);
    OnlyGreeted(sys, st);
  }

  lemma SmallRemainder(n: nat, d: nat)
    ensures n < d ==> n % d == n
  {
  }

  /** The time at which the host had better send once more, and does, and then no more: the adapter's next sync
      is as far from what the host then sent as it can be. */
  function WorstMoment(dev: Wire, host: Wire): nat
    requires dev.interval > 0
  {
    dev.interval - 1 - host.latency % dev.interval
  }

  lemma WorstRemainder(dev: Wire, host: Wire)
    requires dev.interval > 0
    ensures (WorstMoment(dev, host) + host.latency) % dev.interval == dev.interval - 1
  {
    var d, l := dev.interval, host.latency;
    assert WorstMoment(dev, host) + l == (l / d) * d + (d - 1);
    DivisionIsUnique(WorstMoment(dev, host) + l, d, l / d, d - 1);
  }

  /** The host learns of the adapter's first sync and creeps up to the worst moment. */
  lemma ToWorstMoment(dev: Wire, host: Wire, ps: nat, mem: seq<Byte>) returns (labels: seq<Label>)
    requires 0 < dev.interval <= host.latency && host.interval > 0 && ps > 0
    ensures var st := Run(Quiet(dev, host, ps), mem, labels);
            Waiting(Quiet(dev, host, ps), st) && st.h.port.lastOut == st.h.port.now == WorstMoment(dev, host)
  {
    var sys := Quiet(dev, host, ps);
    QuietIsValid(dev, host, ps);
    assert Waiting(sys, Run(sys, mem, []));
    labels := CatchUp(sys, mem, []);
    var st := Run(sys, mem, labels);
    assert st.h == Init(sys, mem).h;
    RunKeeps(sys, mem, labels);
    LastSync(sys, st);
    Remains(st.a.port.now, dev.interval);
    OnlyGreeted(sys, st);
    RunExtend(sys, mem, labels, Peer(HPoll));
    labels := labels + [Peer(HPoll)];
    hide Run, Inv, AStep;
    labels := Creep(sys, mem, labels, WorstMoment(dev, host));
  }

  lemma Remains(n: nat, d: nat)
    requires d > 0
    ensures n >= d ==> n - n % d > 0
  {
  }

  lemma SentSomething(sys: Sys, st: St)
    requires sys.sync && Inv(sys, st) && st.a.port.lastOut > 0
    ensures st.a.port.stamps != []
  {
  }

  lemma Stuck(sys: Sys, st: St)
    requires sys.sync && Inv(sys, st) && st.h.port.stamps != [] && CaughtUp(sys, st)
    requires st.d2h == [] && st.h.port.now == st.h.port.inTs < st.h.port.lastOut + sys.host.interval
    ensures BothBlocked(sys, st)
  {
  }

  /** If both sides may be silent for longer than messages are under way, each can come to wait for the other. */
  lemma {:induction false} LongSilenceBlocks(dev: Wire, host: Wire, ps: nat, mem: seq<Byte>)
    returns (labels: seq<Label>)
    requires 0 < dev.interval <= host.latency && ps > 0
    requires dev.interval + host.interval > dev.latency + host.latency + 1
    ensures BothBlocked(Quiet(dev, host, ps), Run(Quiet(dev, host, ps), mem, labels))
  {
    hide Run, Inv, Waiting, BothBlocked, HostSay, Valid, WorstMoment;
    var sys := Quiet(dev, host, ps);
    QuietIsValid(dev, host, ps);
    labels := ToWorstMoment(dev, host, ps, mem);
    labels := CatchUp(sys, mem, labels);
    var st := Run(sys, mem, labels);
    RunKeeps(sys, mem, labels);
    LastSync(sys, st);
    WorstRemainder(dev, host);
    assert st.a.port.lastOut == WorstMoment(dev, host) + host.latency - (dev.interval - 1) > 0;
    SentSomething(sys, st);
    labels := HostCatchUp(sys, mem, labels);
    RunKeeps(sys, mem, labels);
    HostGreeted(sys, mem, labels);
    Stuck(sys, Run(sys, mem, labels));
  }

  /** No run of any device with this clock period and any host over these wires ever has both sides blocked. */
  ghost predicate NeverStuck(dev: Wire, host: Wire, ps: nat)
    requires ps > 0
  {
    forall sys: Sys, mem: seq<Byte>, labels: seq<Label> |
      Valid(sys) && sys.sync && sys.dev == dev && sys.host == host && sys.psPerClock == ps ::
      !BothBlocked(sys, Run(sys, mem, labels))
  }

  /** Exactly when the protocol cannot get stuck, in terms of the four link parameters and whatever the clock
      period. With one latency for both directions, sync intervals of at most the latency are enough. */
  lemma {:induction false} NeverStuckIff(dev: Wire, host: Wire, ps: nat)
    requires dev.interval > 0 && host.interval > 0 && ps > 0
    ensures NeverStuck(dev, host, ps) <==> KeepMoving(dev, host)
    ensures dev.latency == host.latency && dev.interval <= dev.latency && host.interval <= host.latency ==>
              KeepMoving(dev, host)
  {
    hide Run, BothBlocked;
    if KeepMoving(dev, host) {
      forall sys: Sys, mem: seq<Byte>, labels: seq<Label> |
        Valid(sys) && sys.sync && sys.dev == dev && sys.host == host && sys.psPerClock == ps
        ensures !BothBlocked(sys, Run(sys, mem, labels))
      {
        NeverBothBlocked(sys, mem, labels);
      }
    } else {
      QuietIsValid(dev, host, ps);
      var labels;
      if host.latency < dev.interval {
        labels := LateFirstSyncBlocks(dev, host, ps, []);
      } else {
        labels := LongSilenceBlocks(dev, host, ps, []);
      }
      assert BothBlocked(Quiet(dev, host, ps), Run(Quiet(dev, host, ps), [], labels));
    }
  }
}
