/** When clock steps are run, how many at a time, and how far a waiting pump moves time: in either mode. */
module Clocking {
  import opened Link
  import opened HostMemory
  import opened Device
  import opened System
  import opened Timing
  import opened WindowCrossing

  // ---------------------------------------------------------------------------
  // When a batch is begun, and how long it is

  /** The ceiling on one call. */
  const CEILING := 1_048_576

  /** A batch of `n` steps is as long as it may be: unsynchronized, as long as configured; synchronized, as long as
      fits before both the next message and the next owed sync; in either case at most the ceiling. */
  predicate AsLongAsAllowed(sys: Sys, p: Port, n: nat) {
    var end, next := p.now + n * sys.psPerClock, p.now + (n + 1) * sys.psPerClock;
    && 0 < n <= CEILING
    && if sys.sync then
         && end <= p.inTs && end <= p.lastOut + sys.dev.interval
         && (n == CEILING || next > p.inTs || next > p.lastOut + sys.dev.interval)
       else
         n <= sys.batch && (n == CEILING || n == sys.batch)
  }

  lemma LongestBatch(sys: Sys, p: Port)
    requires sys.psPerClock > 0
    ensures var w := Deadline(sys.dev, p) - p.now;
            sys.sync && w >= sys.psPerClock ==> AsLongAsAllowed(sys, p, Capped(w / sys.psPerClock))
    ensures !sys.sync && sys.batch > 0 ==> AsLongAsAllowed(sys, p, Capped(sys.batch))
  {
    var w, ps := Deadline(sys.dev, p) - p.now, sys.psPerClock;
    if sys.sync && w >= ps {
      var q := w / ps;
      assert w == q * ps + w % ps;
      assert (q + 1) * ps == q * ps + ps;
      BatchInWindow(w, ps);
      assert q >= 1;
    }
  }

  lemma NoStepFits(w: int, ps: nat)
    requires ps > 0
    ensures 0 <= w < ps ==> w / ps == 0
    ensures w >= ps ==> w / ps > 0
  {
  }

  /** In the acting phase with nothing queued, the adapter begins a batch exactly if it is unsynchronized or a clock
      step fits; the batch is as long as allowed. Otherwise it jumps to the limit or, standing at it, notes that it
      waits for its peer; a batch ends such a wait. */
  lemma BatchIsBegun(sys: Sys, s: Side, pick: nat)
    requires Valid(sys) && !s.a.flags.stopped && !s.a.flags.fault && s.a.pc == Idle(Acting) && s.a.mmioQ == []
    ensures var a, a' := s.a, AStep(sys, s, pick).a;
            var limit := Earlier(a.port.inTs, a.port.lastOut + sys.dev.interval);
            var fits := !sys.sync || a.port.now + sys.psPerClock <= limit;
            if fits then
              exists n :: a'.hist.events == a.hist.events + [Tick(n)] && AsLongAsAllowed(sys, a.port, n) &&
                          a'.pc == InCall(Batch(n, a.port.now), []) &&
                          a'.port == a.port && a'.flags == a.flags.(waiting := false)
            else
              && a'.hist.events == a.hist.events && a'.pc == Idle(Syncing)
              && a'.port.now == Later(a.port.now, limit)
              && a'.flags == if limit <= a.port.now then a.flags.(waiting := true) else a.flags
  {
    LongestBatch(sys, s.a.port);
    NoStepFits(Deadline(sys.dev, s.a.port) - s.a.port.now, sys.psPerClock);
    hide AsLongAsAllowed, Capped, PhaseStep, PumpAct, BeginMmio, CallStep;
  }

  /** In no other place is a clock batch begun: only once everything visible has been polled and everything queued
      has been served. */
  lemma BatchesOnlyThere(sys: Sys, s: Side, pick: nat)
    requires sys.psPerClock > 0 && sys.maxChunk > 0
    ensures var evs, evs' := s.a.hist.events, AStep(sys, s, pick).a.hist.events;
            && (evs' == evs || (|evs'| == |evs| + 1 && evs'[..|evs|] == evs && s.a.pc == Idle(Acting)))
            && (evs' != evs && evs'[|evs|].Tick? ==> s.a.mmioQ == [] && !s.a.flags.stopped && !s.a.flags.fault)
  {
    hide Deadline, ChunkRequest, RepliesTo, Translate, Peeked, Filled, PumpTarget, Capped;
    match s.a.pc
    case InCall(job, told) =>
      hide Continue, Return;
      CallKeepsEvents(sys, s, job, told, pick);
    case Idle(_) =>
    case Pump(_, _, _, _, _, _, _) =>
  }

  lemma CallKeepsEvents(sys: Sys, s: Side, job: Job, told: seq<seq<Byte>>, pick: nat)
    requires sys.maxChunk > 0
    ensures CallStep(sys, s, job, told, pick).a.hist.events == s.a.hist.events
  {
    hide ChunkRequest, RepliesTo, EntryOf;
  }

  /** Every batch that was ever begun was at most the ceiling; in an unsynchronized run it was exactly as long as
      configured, or the ceiling if that is less. */
  lemma {:induction false} EveryBatchIsWhole(sys: Sys, mem: seq<Byte>, labels: seq<Label>)
    requires Valid(sys)
    ensures forall ev :: ev in Run(sys, mem, labels).a.hist.events && ev.Tick? ==>
              0 < ev.n <= CEILING && (!sys.sync ==> ev.n == Earlier(sys.batch, CEILING))
  {
    hide Run, AStep, HostStep, Valid;
    if labels == [] {
      NoEvents(sys, mem);
    } else {
      var before, l := labels[..|labels| - 1], labels[|labels| - 1];
      EveryBatchIsWhole(sys, mem, before);
      assert labels == before + [l];
      EventsOf(sys, mem, before, l);
    }
  }

  lemma NoEvents(sys: Sys, mem: seq<Byte>)
    requires Valid(sys)
    ensures Run(sys, mem, []).a.hist.events == []
  {
  }

  lemma EventsOf(sys: Sys, mem: seq<Byte>, labels: seq<Label>, l: Label)
    requires Valid(sys)
    ensures var evs, evs' := Run(sys, mem, labels).a.hist.events, Run(sys, mem, labels + [l]).a.hist.events;
            evs' == evs ||
            (|evs'| == |evs| + 1 && evs'[..|evs|] == evs &&
             (evs'[|evs|].Tick? ==> 0 < evs'[|evs|].n <= CEILING &&
                                    (!sys.sync ==> evs'[|evs|].n == Earlier(sys.batch, CEILING))))
  {
    RunExtend(sys, mem, labels, l);
    var st := Run(sys, mem, labels);
    hide Run, AStep, HostStep;
    match l
    case Blind =>
    case Peer(move) => HostLeavesAdapter(sys, st, move);
    case Adapter(pick) =>
      var s := Side(st.a, st.h2d, st.d2h);
      BatchesOnlyThere(sys, s, pick);
      if s.a.pc == Idle(Acting) && s.a.mmioQ == [] && !s.a.flags.stopped && !s.a.flags.fault {
        BatchIsBegun(sys, s, pick);
      }
  }

  /** Unsynchronized, `k` calls without DMA. */
  function Repeat(sys: Sys, a: Dev, k: nat): Dev
    requires sys.psPerClock > 0
  {
    if k == 0 then a else RunOnce(sys, Repeat(sys, a, k - 1))
  }

  /** Unsynchronized calls run the configured number of steps each, or the ceiling, and take their time. */
  lemma {:induction false} UnsynchronizedCalls(sys: Sys, a: Dev, k: nat)
    requires !sys.sync && sys.psPerClock > 0
    ensures var n := Earlier(sys.batch, CEILING);
            && Repeat(sys, a, k).stats.clocks == a.stats.clocks + k * n
            && Repeat(sys, a, k).port.now == a.port.now + k * n * sys.psPerClock
  {
    hide RunOnce, Earlier;
    var n := Earlier(sys.batch, CEILING);
    if k > 0 {
      UnsynchronizedCalls(sys, a, k - 1);
      OneUnsynchronizedCall(sys, Repeat(sys, a, k - 1));
      OneMoreTime(k, n, sys.psPerClock);
    }
  }

  lemma OneMoreTime(k: nat, n: nat, ps: nat)
    requires k > 0
    ensures k * n == (k - 1) * n + n
    ensures k * n * ps == (k - 1) * n * ps + n * ps
  {
    assert k * n == (k - 1) * n + n;
    Distributes((k - 1) * n, n, ps);
  }

  lemma Distributes(a: nat, b: nat, c: nat)
    ensures (a + b) * c == a * c + b * c
  {
  }

  lemma OneUnsynchronizedCall(sys: Sys, a: Dev)
    requires !sys.sync && sys.psPerClock > 0
    ensures var n := Earlier(sys.batch, CEILING);
            && RunOnce(sys, a).stats.clocks == a.stats.clocks + n
            && RunOnce(sys, a).port.now == a.port.now + n * sys.psPerClock
  {
  }

  // ---------------------------------------------------------------------------
  // How far a waiting pump moves time

  /** A pump that has polled dry with its slot open moves time: unsynchronized, by a whole batch; synchronized, to
      the first of the next message, the next owed sync and the end of such a batch, or not at all if one of the
      former two has come. */
  lemma PumpMovesTime(sys: Sys, s: Side, pick: nat)
    requires Valid(sys) && !s.a.flags.stopped && !s.a.flags.fault && !s.a.flags.exiting
    requires s.a.pc.Pump? && s.a.pc.phase.Acting? && !s.a.slot.done
    ensures var now, t := s.a.port.now, AStep(sys, s, pick).a.port.now;
            var inTs, sync, cap := s.a.port.inTs, s.a.port.lastOut + sys.dev.interval, now + sys.batch * sys.psPerClock;
            && now <= t <= cap
            && (!sys.sync ==> t == cap)
            && (sys.sync && t > now ==> t <= inTs && t <= sync && t in {inTs, sync, cap})
            && (sys.sync && t == now ==> inTs <= now || sync <= now)
  {
    hide CallStep, BeginMmio, BeginClocks, Continue;
    assert sys.batch * sys.psPerClock > 0;
  }
}
