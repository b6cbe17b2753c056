/** Where every picosecond of device time comes from. */
module Ledger {
  import opened Link
  import opened HostMemory
  import opened Device
  import opened System
  import opened Timing
  import opened DmaSafety
  import opened Service

  /** The clock steps a sequence of events asks for. */
  function Ticks(evs: seq<Event>): nat {
    if evs == [] then 0
    else Ticks(evs[..|evs| - 1]) + if evs[|evs| - 1].Tick? then evs[|evs| - 1].n else 0
  }

  /** Device time is clock steps, jumps and time in DMA pumps, less what DMA hid inside clock batches. */
  ghost predicate Balanced(sys: Sys, a: Dev) {
    && a.port.now + a.hist.hidden ==
       sys.start + a.stats.clocks * sys.psPerClock + a.hist.jumped + a.hist.pumped
    && a.hist.hidden <= a.stats.clocks * sys.psPerClock
    && (if a.pc.Idle? then a.hist.hidden <= a.hist.pumped
        else a.pc.job.at <= a.port.now && a.hist.hidden + (a.port.now - a.pc.job.at) <= a.hist.pumped)
  }

  /** Clock steps counted are the clock steps of the batches that are over. */
  ghost predicate Counts(a: Dev) {
    && a.stats.clocks == Ticks(Finished(a))
    && (!a.pc.Idle? ==> a.hist.events != [] && a.hist.events[|a.hist.events| - 1] == EventOf(a.pc.job))
  }

  /** In a synchronized run DMA pumps take one round trip per completed sub-operation. */
  ghost predicate PumpedByRoundTrips(sys: Sys, a: Dev) {
    sys.sync ==>
      a.hist.pumped == (a.stats.dmaReads + a.stats.dmaWrites) * RoundTrip(sys) +
                       if a.pc.Pump? && !a.slot.done && a.slot.sentAt <= a.port.now
                       then a.port.now - a.slot.sentAt else 0
  }

  ghost predicate LedgerInv(sys: Sys, a: Dev) {
    Balanced(sys, a) && Counts(a) && PumpedByRoundTrips(sys, a) &&
    (a.pc.Pump? ==> a.slot.sentAt <= a.port.now)
  }

  lemma TicksAppend(evs: seq<Event>, ev: Event)
    ensures Ticks(evs + [ev]) == Ticks(evs) + if ev.Tick? then ev.n else 0
    ensures (evs + [ev])[..|evs|] == evs
  {
    assert (evs + [ev])[..|evs|] == evs;
  }

  /** Two adapters that differ only in what the ledger does not look at. */
  ghost predicate SameBooks(a: Dev, b: Dev) {
    && a.port.now == b.port.now && a.pc == b.pc && a.slot == b.slot
    && a.stats.clocks == b.stats.clocks && a.stats.dmaReads == b.stats.dmaReads
    && a.stats.dmaWrites == b.stats.dmaWrites
    && a.hist.events == b.hist.events && a.hist.jumped == b.hist.jumped
    && a.hist.pumped == b.hist.pumped && a.hist.hidden == b.hist.hidden
  }

  lemma AnswerKeepsBooks(sys: Sys, s: Side, r: Req, data: seq<Byte>)
    ensures SameBooks(s.a, Answer(sys, s, r, data).a)
  {
  }

  lemma BeginMmioKeepsLedger(sys: Sys, s: Side)
    requires LedgerInv(sys, s.a) && s.a.pc.Idle? && s.a.mmioQ != []
    ensures LedgerInv(sys, BeginMmio(sys, s).a)
  {
    hide Translate, Ticks, Answer, RoundTrip;
    TicksAppend(s.a.hist.events, Serve(s.a.mmioQ[0]));
    AnswerKeepsBooks(sys, s.(a := Popped(s.a)), s.a.mmioQ[0], []);
  }

  lemma BeginClocksKeepsLedger(sys: Sys, a: Dev)
    requires sys.psPerClock > 0 && LedgerInv(sys, a) && a.pc.Idle?
    ensures LedgerInv(sys, BeginClocks(sys, a))
  {
    hide Deadline, Ticks, RoundTrip;
    forall n { TicksAppend(a.hist.events, Tick(n)); }
  }

  /** A batch of `n` steps adds its length to the clock account and what DMA hid in it to `hidden`. */
  lemma EndBatchBalances(sys: Sys, a: Dev)
    requires LedgerInv(sys, a) && a.pc.InCall? && a.pc.job.Batch?
    ensures LedgerInv(sys, EndBatch(sys, a, a.pc.job.n, a.pc.job.at))
  {
    hide Ticks, RoundTrip;
    var evs, n := a.hist.events, a.pc.job.n;
    assert evs == evs[..|evs| - 1] + [Tick(n)];
    TicksAppend(evs[..|evs| - 1], Tick(n));
    assert (a.stats.clocks + n) * sys.psPerClock == a.stats.clocks * sys.psPerClock + n * sys.psPerClock;
  }

  lemma EndMmioBalances(sys: Sys, a: Dev)
    requires LedgerInv(sys, a) && a.pc.InCall? && a.pc.job.Mmio?
    ensures LedgerInv(sys, a.(pc := Idle(Acting)))
  {
    hide Ticks, RoundTrip;
    var evs := a.hist.events;
    assert evs == evs[..|evs| - 1] + [EventOf(a.pc.job)];
    TicksAppend(evs[..|evs| - 1], EventOf(a.pc.job));
  }

  lemma ContinueKeepsLedger(sys: Sys, s: Side, pc: Pc, pick: nat)
    requires sys.maxChunk > 0 && pc.Pump? && pc.off <= XferSize(pc.x)
    requires LedgerInv(sys, s.a) && !s.a.pc.Idle? && s.a.pc.job == pc.job && (s.a.pc.Pump? ==> s.a.slot.done)
    ensures LedgerInv(sys, Continue(sys, s, pc, pick).a)
  {
    hide Ticks, RoundTrip, ChunkRequest;
  }

  lemma CallKeepsLedger(sys: Sys, s: Side, pick: nat)
    requires sys.maxChunk > 0 && LedgerInv(sys, s.a) && s.a.pc.InCall?
    ensures LedgerInv(sys, CallStep(sys, s, s.a.pc.job, s.a.pc.told, pick).a)
  {
    hide Ticks, RoundTrip, Continue, Answer, EndBatch;
    var InCall(job, told) := s.a.pc;
    match EntryOf(sys, EventOf(job))
    case None =>
    case Some(e) =>
      match sys.lib.act(s.a.hist.log, e, told)
      case Finish(data) =>
        var a := Logged(s.a, Record(e, told, data));
        if job.Mmio? {
          EndMmioBalances(sys, a);
          AnswerKeepsBooks(sys, s.(a := a.(pc := Idle(Acting))), job.req, data);
        } else {
          EndBatchBalances(sys, a);
        }
      case DmaRd(addr, len) => ContinueKeepsLedger(sys, s, Begin(s.a, job, told, RdX(addr, len, [])), pick);
      case DmaWr(addr, data) => ContinueKeepsLedger(sys, s, Begin(s.a, job, told, WrX(addr, data)), pick);
  }

  /** A completion moves one round trip from the wait in progress to the account of finished ones. */
  lemma CompletionBalances(sys: Sys, a: Dev, a': Dev)
    requires LedgerInv(sys, a) && a.pc.Pump? && !a.slot.done && a'.slot.done
    requires sys.sync ==> a.port.now == a.slot.sentAt + RoundTrip(sys)
    requires a' == a.(slot := a'.slot, stats := a'.stats) && a'.slot.sentAt == a.slot.sentAt
    requires a'.stats.clocks == a.stats.clocks
    requires a'.stats.dmaReads + a'.stats.dmaWrites == a.stats.dmaReads + a.stats.dmaWrites + 1
    ensures LedgerInv(sys, a')
  {
    hide Ticks;
    var k := a.stats.dmaReads + a.stats.dmaWrites;
    assert (k + 1) * RoundTrip(sys) == k * RoundTrip(sys) + RoundTrip(sys);
    hide RoundTrip;
  }

  /** A completion is consumed one round trip after its request was sent. */
  lemma CompletionIsDue(sys: Sys, s: Side, mem: seq<Byte>)
    requires sys.maxChunk > 0 && SideDma(sys, s, mem) && s.rx != [] && IsCompletion(s.rx[0].body)
    ensures s.a.pc.Pump? && !s.a.slot.done
    ensures sys.sync ==> s.rx[0].stamp == s.a.slot.sentAt + RoundTrip(sys)
    ensures var a := Consume(s.a, s.rx[0].body);
            && a == s.a.(slot := a.slot, stats := a.stats) && a.slot.sentAt == s.a.slot.sentAt && a.slot.done
            && a.stats.clocks == s.a.stats.clocks
            && a.stats.dmaReads + a.stats.dmaWrites == s.a.stats.dmaReads + s.a.stats.dmaWrites + 1
  {
    assert Completions(s.rx) == [s.rx[0]] + Completions(s.rx[1..]);
    assert Completions(s.rx) == [s.rx[0]];
    hide Requests, Completions, ServeRead, RoundTrip, ChunkRequest;
  }

  lemma OthersKeepBooks(a: Dev, body: H2D)
    requires !IsCompletion(body)
    ensures SameBooks(a, Consume(a, body))
  {
  }

  lemma SameBooksSameLedger(sys: Sys, a: Dev, b: Dev)
    requires LedgerInv(sys, a) && SameBooks(a, b)
    ensures LedgerInv(sys, b)
  {
    hide Ticks, RoundTrip;
  }

  lemma PollKeepsLedger(sys: Sys, s: Side, mem: seq<Byte>, ph: Port)
    requires sys.maxChunk > 0 && LedgerInv(sys, s.a) && SideDma(sys, s, mem) && SideInv(sys, s, ph)
    ensures LedgerInv(sys, PollOnce(sys, s).0.a)
    ensures PollOnce(sys, s).0.a.pc == s.a.pc
  {
    var a := s.a.(port := Peeked(s.a.port, s.rx));
    SameBooksSameLedger(sys, s.a, a);
    if Due(sys.sync, s.a.port, s.rx) {
      assert sys.sync ==> s.rx[0].stamp == s.a.port.now;
      hide LedgerInv, Dma, SideInv, Consume;
      var body := s.rx[0].body;
      if Oversized(body) {
        SameBooksSameLedger(sys, a, Halted(a));
      } else if IsCompletion(body) {
        CompletionIsDue(sys, s.(a := a), mem);
        CompletionBalances(sys, a, Consume(a, body));
      } else {
        OthersKeepBooks(a, body);
        SameBooksSameLedger(sys, a, Consume(a, body));
        ConsumeLeavesPort(a, body);
      }
    }
  }

  /** Turning to the next phase of a loop. */
  lemma TurnKeepsLedger(sys: Sys, a: Dev, phase: Phase)
    requires LedgerInv(sys, a) && !a.pc.InCall?
    ensures LedgerInv(sys, a.(pc := a.pc.(phase := phase)))
  {
    hide Ticks, RoundTrip;
  }

  lemma PhaseKeepsLedger(sys: Sys, s: Side, mem: seq<Byte>, ph: Port)
    requires sys.maxChunk > 0 && LedgerInv(sys, s.a) && SideDma(sys, s, mem) && SideInv(sys, s, ph)
    requires !s.a.pc.InCall?
    ensures LedgerInv(sys, PhaseStep(sys, s).a)
  {
    hide LedgerInv, SideDma, SideInv, PollOnce, SyncOwed;
    SameBooksSameLedger(sys, s.a, Say(sys, s, DSync).a);
    TurnKeepsLedger(sys, s.a, Polling);
    PollKeepsLedger(sys, s, mem, ph);
    TurnKeepsLedger(sys, PollOnce(sys, s).0.a, Acting);
  }

  lemma AStepKeepsLedger(sys: Sys, s: Side, mem: seq<Byte>, ph: Port, pick: nat)
    requires sys.psPerClock > 0 && sys.maxChunk > 0
    requires LedgerInv(sys, s.a) && SideDma(sys, s, mem) && SideInv(sys, s, ph)
    ensures LedgerInv(sys, AStep(sys, s, pick).a)
  {
    hide Ticks, RoundTrip, Requests, Completions, Dma, SideInv, PhaseStep, CallStep, BeginMmio, BeginClocks,
      Continue, PumpTarget;
    match s.a.pc
    case InCall(job, told) => CallKeepsLedger(sys, s, pick);
    case Idle(phase) =>
      if !phase.Acting? {
        PhaseKeepsLedger(sys, s, mem, ph);
      } else if s.a.mmioQ != [] {
        BeginMmioKeepsLedger(sys, s);
      } else {
        BeginClocksKeepsLedger(sys, s.a);
      }
    case Pump(_, _, _, _, _, _, phase) =>
      if !phase.Acting? {
        PhaseKeepsLedger(sys, s, mem, ph);
      } else if s.a.slot.done {
        ContinueKeepsLedger(sys, s, NextChunk(s.a), pick);
      }
  }

  lemma {:induction false} RunKeepsLedger(sys: Sys, mem: seq<Byte>, labels: seq<Label>)
    requires Valid(sys)
    ensures LedgerInv(sys, Run(sys, mem, labels).a)
  {
    if labels == [] {
    } else {
      hide LedgerInv, AStep, HostStep;
      var before := labels[..|labels| - 1];
      RunKeepsLedger(sys, mem, before);
      RunKeeps(sys, mem, before);
      RunKeepsDma(sys, mem, before);
      var st := Run(sys, mem, before);
      match labels[|labels| - 1]
      case Adapter(pick) =>
        hide SideInv, SideDma;
        AStepKeepsLedger(sys, Side(st.a, st.h2d, st.d2h), st.h.mem, st.h.port, pick);
      case Blind => BlindKeepsLedger(sys, st.a);
      case Peer(move) => HostLeavesAdapter(sys, st, move);
    }
  }

  lemma BlindKeepsLedger(sys: Sys, a: Dev)
    requires LedgerInv(sys, a)
    ensures LedgerInv(sys, PollBlind(a))
  {
    hide LedgerInv;
    if PollBlind(a) != a {
      TurnKeepsLedger(sys, a, Acting);
    }
  }

  /** The time ledger. Along every run device time elapsed is exactly the clock steps of the finished batches,
      plus the jumps to deadlines closer than one step, plus the time spent in DMA pumps, less the part of the
      latter that clock batches had room for; so the device never runs more clock steps than time allows. In
      a synchronized run the pumps' share is one round trip for every completed sub-operation. */
  lemma {:induction false} EveryPicosecondAccounted(sys: Sys, mem: seq<Byte>, labels: seq<Label>)
    requires Valid(sys)
    ensures var a := Run(sys, mem, labels).a;
            && a.stats.clocks == Ticks(Finished(a))
            && a.port.now + a.hist.hidden ==
               sys.start + a.stats.clocks * sys.psPerClock + a.hist.jumped + a.hist.pumped
            && a.hist.hidden <= Earlier(a.stats.clocks * sys.psPerClock, a.hist.pumped)
            && sys.start + a.stats.clocks * sys.psPerClock <= a.port.now
            && (sys.sync && !a.pc.Pump? ==>
                  a.hist.pumped == (a.stats.dmaReads + a.stats.dmaWrites) * RoundTrip(sys))
  {
    hide Run, Ticks, Finished;
    RunKeepsLedger(sys, mem, labels);
    var a := Run(sys, mem, labels).a;
    assert PumpedByRoundTrips(sys, a);
    hide PumpedByRoundTrips, RoundTrip;
  }
}
