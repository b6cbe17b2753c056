/** Calls into libttsim get on: in a synchronized run, wherever the adapter is inside a call, each of its steps that
    is not a wait takes the call closer to its end, by a measure over both sides, their clocks and the rings. */
module Returning {
  import opened Link
  import opened HostMemory
  import opened Device
  import opened System
  import opened Timing
  import opened DmaSafety
  import opened Transparency
  import opened Progress

  /** The steps that keep the simulation going; the host asks for nothing new. */
  predicate Cooperative(l: Label) {
    l.Adapter? || (l.Peer? && (l.move.HSend? || l.move.HPoll? || l.move.HAdvance?))
  }

  /** The host has not ended the simulation and has sent nothing that would. */
  ghost predicate Undisturbed(a: Dev, h2d: seq<Msg<H2D>>) {
    && !a.flags.stopped && !a.flags.exiting
    && forall i :: 0 <= i < |h2d| ==> !h2d[i].body.Terminate? && !Oversized(h2d[i].body)
  }

  function One(b: bool): nat {
    if b then 1 else 0
  }

  /** What is left to do at one point in time. */
  function Work(sys: Sys, st: St): nat {
    5 * (One(SyncOwed(true, sys.dev, st.a.port)) + One(SyncOwed(true, sys.host, st.h.port)) + |Requests(st.d2h)|) +
    2 * |st.d2h| + 2 * |st.h2d| + One(Peeked(st.h.port, st.d2h) != st.h.port)
  }

  predicate InFlight(a: Dev) {
    a.pc.Pump? && !a.slot.done
  }

  /** How far the pump still has to go round before it acts on what it knows, or takes over its completion. */
  function PumpRank(sys: Sys, st: St): nat
    requires st.a.pc.Pump?
  {
    match st.a.pc.phase
    case Syncing => 2
    case Polling => if InFlight(st.a) && SyncOwed(true, sys.dev, st.a.port) then 5 else 1
    case Acting =>
      if InFlight(st.a) && (SyncOwed(true, sys.dev, st.a.port) || Due(true, st.a.port, st.h2d) ||
                            Peeked(st.a.port, st.h2d) != st.a.port)
      then 4 else 0
  }

  /** Simulated time, of both sides together, until the sub-operation under way must be done; once it is, the
      time until the host must wait for the adapter. */
  function TimeAhead(sys: Sys, st: St): int {
    (if InFlight(st.a) then 2 * (st.a.slot.sentAt + RoundTrip(sys)) - st.a.port.now else st.a.port.now) +
    sys.dev.latency - st.h.port.now
  }

  ghost predicate Less(sys: Sys, st: St, st': St)
    requires st.a.pc.Pump? && st'.a.pc.Pump?
  {
    || TimeAhead(sys, st') < TimeAhead(sys, st)
    || (TimeAhead(sys, st') == TimeAhead(sys, st) &&
        (Work(sys, st') < Work(sys, st) ||
         (Work(sys, st') == Work(sys, st) && PumpRank(sys, st') < PumpRank(sys, st))))
  }

  /** The clocks cannot pass the moment at which the completion is due. */
  lemma TimeIsAhead(sys: Sys, st: St)
    requires sys.sync && sys.maxChunk > 0 && Inv(sys, st) && DmaInv(sys, st)
    requires st.a.pc.Pump?
    ensures TimeAhead(sys, st) >= 0
  {
    if !InFlight(st.a) {
    } else if Requests(st.d2h) == [] {
      AmongCompletions(st.h2d);
    } else {
      AmongRequests(st.d2h);
    }
    hide Requests, Completions, ChunkRequest, BatchFits;
  }

  lemma {:induction false} AmongRequests(q: seq<Msg<D2H>>)
    requires Requests(q) != []
    ensures exists i :: 0 <= i < |q| && q[i] == Requests(q)[0]
  {
    if !IsRequest(q[0].body) {
      AmongRequests(q[1..]);
      var i :| 0 <= i < |q[1..]| && q[1..][i] == Requests(q[1..])[0];
      assert q[i + 1] == Requests(q)[0];
    } else {
      assert q[0] == Requests(q)[0];
    }
  }

  lemma {:induction false} AmongCompletions(q: seq<Msg<H2D>>)
    requires Completions(q) != []
    ensures exists i :: 0 <= i < |q| && q[i] == Completions(q)[0]
  {
    if !IsCompletion(q[0].body) {
      AmongCompletions(q[1..]);
      var i :| 0 <= i < |q[1..]| && q[1..][i] == Completions(q[1..])[0];
      assert q[i + 1] == Completions(q)[0];
    } else {
      assert q[0] == Completions(q)[0];
    }
  }

  // ---------------------------------------------------------------------------
  // One step towards the completion

  /** The pump goes on waiting, or its sub-operation is done. */
  ghost predicate PumpMoved(sys: Sys, st: St, st': St)
    requires st.a.pc.Pump?
  {
    && st'.a.pc.Pump? && st'.a.pc == st.a.pc.(phase := st'.a.pc.phase)
    && st'.a.slot == st.a.slot.(done := st'.a.slot.done, buf := st'.a.slot.buf)
    && st'.h == st.h && st'.a.hist.events == st.a.hist.events && st'.a.hist.log == st.a.hist.log
    && Undisturbed(st'.a, st'.h2d)
    && SmallStep(sys, st, st')
  }

  /** A sub-operation gets done, or something is closer to its end. */
  ghost predicate SmallStep(sys: Sys, st: St, st': St)
    requires st.a.pc.Pump? && st'.a.pc.Pump?
  {
    if InFlight(st.a) then st'.a.slot.done || Less(sys, st, st') else st'.a.slot.done && Less(sys, st, st')
  }

  lemma PumpSyncs(sys: Sys, st: St, pick: nat)
    requires Valid(sys) && sys.sync && Inv(sys, st) && !st.a.flags.fault && Undisturbed(st.a, st.h2d)
    requires st.a.pc.Pump? && st.a.pc.phase.Syncing?
    ensures PumpMoved(sys, st, Step(sys, st, Adapter(pick)))
  {
    hide CallStep, PumpAct, BeginMmio, BeginClocks, PollOnce, RoundTrip, Oversized;
    RequestsAppend(st.d2h, Stamped(sys.dev, st.a.port, DSync));
    assert Requests(st.d2h) + [] == Requests(st.d2h);
    hide Requests, Inv;
  }

  lemma PumpPolls(sys: Sys, st: St, pick: nat)
    requires Valid(sys) && sys.sync && !st.a.flags.fault && Undisturbed(st.a, st.h2d)
    requires !Step(sys, st, Adapter(pick)).a.flags.fault
    requires st.a.pc.Pump? && st.a.pc.phase.Polling?
    ensures PumpMoved(sys, st, Step(sys, st, Adapter(pick)))
  {
    hide CallStep, PumpAct, BeginMmio, BeginClocks, RoundTrip, Requests, Oversized;
  }

  lemma PumpWaits(sys: Sys, st: St, pick: nat)
    requires Valid(sys) && sys.sync && Inv(sys, st) && !st.a.flags.fault && Undisturbed(st.a, st.h2d)
    requires st.a.pc.Pump? && !st.a.slot.done && st.a.pc.phase.Acting?
    requires !Blocked(sys.dev, st.a.port, st.h2d)
    ensures PumpMoved(sys, st, Step(sys, st, Adapter(pick)))
  {
    hide CallStep, BeginMmio, BeginClocks, PhaseStep, RoundTrip, Requests, Oversized, Continue;
    assert sys.batch * sys.psPerClock > 0;
  }

  lemma AdapterMoves(sys: Sys, st: St, pick: nat)
    requires Valid(sys) && sys.sync && Inv(sys, st) && DmaInv(sys, st) && Undisturbed(st.a, st.h2d)
    requires st.a.pc.Pump? && if st.a.slot.done then !st.a.pc.phase.Acting? else !Blocked(sys.dev, st.a.port, st.h2d)
    ensures PumpMoved(sys, st, Step(sys, st, Adapter(pick)))
  {
    StepKeepsDma(sys, st, Adapter(pick));
    hide Inv, Step, PumpMoved, Dma, Blocked, Undisturbed, Requests, Completions;
    match st.a.pc.phase
    case Syncing => PumpSyncs(sys, st, pick);
    case Polling => PumpPolls(sys, st, pick);
    case Acting => PumpWaits(sys, st, pick);
  }

  // ---------------------------------------------------------------------------
  // The transfer under way is the one that libttsim asked for

  function AskedFor(x: Xfer): Action {
    if x.RdX? then DmaRd(x.addr, x.size) else DmaWr(x.addr, x.data)
  }

  ghost predicate Asked(sys: Sys, a: Dev) {
    a.pc.Pump? ==>
      && EntryOf(sys, EventOf(a.pc.job)).Some?
      && sys.lib.act(a.hist.log, EntryOf(sys, EventOf(a.pc.job)).value, a.pc.told) == AskedFor(a.pc.x)
  }

  lemma PhaseLeavesCall(sys: Sys, s: Side)
    requires !s.a.pc.InCall?
    ensures var s' := PhaseStep(sys, s);
            s'.a.pc == s.a.pc.(phase := s'.a.pc.phase) && s'.a.hist.log == s.a.hist.log
  {
    hide Filled, Peeked, SyncOwed;
  }

  lemma ContinueLeavesCall(sys: Sys, s: Side, pc: Pc, pick: nat)
    requires sys.maxChunk > 0 && pc.Pump? && pc.off <= XferSize(pc.x)
    ensures var a := Continue(sys, s, pc, pick).a;
            (if pc.off == XferSize(pc.x) then a.pc.InCall? else a.pc == pc) && a.hist == s.a.hist
  {
    hide ChunkRequest;
  }

  lemma AStepKeepsAsked(sys: Sys, s: Side, pick: nat)
    requires sys.psPerClock > 0 && sys.maxChunk > 0 && Asked(sys, s.a)
    ensures Asked(sys, AStep(sys, s, pick).a)
  {
    hide PhaseStep, Continue, BeginClocks, Answer, EntryOf, PumpTarget, EndBatch;
    match s.a.pc
    case InCall(job, told) =>
      if EntryOf(sys, EventOf(job)).Some? {
        match sys.lib.act(s.a.hist.log, EntryOf(sys, EventOf(job)).value, told)
        case Finish(_) => ReturnsIdle(sys, s, job, told);
        case DmaRd(addr, len) => ContinueLeavesCall(sys, s, Begin(s.a, job, told, RdX(addr, len, [])), pick);
        case DmaWr(addr, data) => ContinueLeavesCall(sys, s, Begin(s.a, job, told, WrX(addr, data)), pick);
      }
    case Idle(phase) =>
      if !phase.Acting? {
        PhaseLeavesCall(sys, s);
      } else {
        IdleActsOutsidePumps(sys, s);
      }
    case Pump(_, _, _, _, _, _, phase) =>
      if !phase.Acting? {
        PhaseLeavesCall(sys, s);
      } else if s.a.slot.done {
        ContinueLeavesCall(sys, s, NextChunk(s.a), pick);
      }
  }

  lemma ReturnsIdle(sys: Sys, s: Side, job: Job, told: seq<seq<Byte>>)
    ensures forall rec :: Return(sys, s, job, rec).a.pc.Idle?
  {
    hide RepliesTo;
  }

  lemma IdleActsOutsidePumps(sys: Sys, s: Side)
    requires sys.psPerClock > 0 && s.a.pc.Idle?
    ensures s.a.mmioQ != [] ==> !BeginMmio(sys, s).a.pc.Pump?
    ensures !BeginClocks(sys, s.a).pc.Pump?
  {
    hide RepliesTo, Translate, Deadline;
  }

  lemma {:induction false} RunKeepsAsked(sys: Sys, mem: seq<Byte>, labels: seq<Label>)
    requires Valid(sys)
    ensures Asked(sys, Run(sys, mem, labels).a)
  {
    hide AStep, HostStep, EntryOf;
    if labels == [] {
    } else {
      RunKeepsAsked(sys, mem, labels[..|labels| - 1]);
      var st := Run(sys, mem, labels[..|labels| - 1]);
      match labels[|labels| - 1]
      case Adapter(pick) => AStepKeepsAsked(sys, Side(st.a, st.h2d, st.d2h), pick);
      case Blind =>
      case Peer(move) => HostLeavesAdapter(sys, st, move);
    }
  }

  // ---------------------------------------------------------------------------
  // The call gets on

  function CallsLeft(sys: Sys, a: Dev): nat
    requires !a.pc.Idle?
  {
    match EntryOf(sys, EventOf(a.pc.job))
    case None => 0
    case Some(e) =>
      if |a.pc.told| < sys.lib.budget(a.hist.log, e) then sys.lib.budget(a.hist.log, e) - |a.pc.told| else 0
  }

  function BytesLeft(a: Dev): nat {
    if a.pc.Pump? && a.pc.off <= XferSize(a.pc.x) then XferSize(a.pc.x) - a.pc.off else 0
  }

  /** A transfer more is done, or more bytes are moved, or the sub-operation under way is closer to its end. */
  ghost predicate Nearer(sys: Sys, st: St, st': St)
    requires !st.a.pc.Idle? && !st'.a.pc.Idle?
  {
    || CallsLeft(sys, st'.a) < CallsLeft(sys, st.a)
    || (CallsLeft(sys, st'.a) == CallsLeft(sys, st.a) &&
        (|| (st.a.pc.InCall? && st'.a.pc.Pump?)
         || (st.a.pc.Pump? && st'.a.pc.Pump? &&
             (|| BytesLeft(st'.a) < BytesLeft(st.a)
              || (BytesLeft(st'.a) == BytesLeft(st.a) && SmallStep(sys, st, st'))))))
  }

  /** The call goes on towards its end, or has returned. */
  ghost predicate CallMoved(sys: Sys, st: St, st': St)
    requires !st.a.pc.Idle?
  {
    && st'.a.hist.events == st.a.hist.events && st'.h.issued == st.h.issued
    && Undisturbed(st'.a, st'.h2d)
    && (st'.a.pc.Idle? || Nearer(sys, st, st'))
  }

  lemma InCallMoves(sys: Sys, st: St, pick: nat)
    requires Valid(sys) && !st.a.flags.fault && Undisturbed(st.a, st.h2d)
    requires st.a.pc.InCall? && EntryOf(sys, EventOf(st.a.pc.job)).Some?
    ensures CallMoved(sys, st, Step(sys, st, Adapter(pick)))
  {
    hide EntryOf, Continue, Return, Less, Oversized;
    var s := Side(st.a, st.h2d, st.d2h);
    var InCall(job, told) := st.a.pc;
    var e := EntryOf(sys, EventOf(job)).value;
    assert AStep(sys, s, pick) == CallStep(sys, s, job, told, pick);
    hide AStep;
    match sys.lib.act(st.a.hist.log, e, told)
    case Finish(data) =>
      ReturnsIdle(sys, s, job, told);
      ReturnFrame(sys, s, job, Record(e, told, data));
    case DmaRd(addr, len) =>
      ContinueLeavesCall(sys, s, Begin(st.a, job, told, RdX(addr, len, [])), pick);
      ContinueFrame(sys, s, Begin(st.a, job, told, RdX(addr, len, [])), pick);
    case DmaWr(addr, data) =>
      ContinueLeavesCall(sys, s, Begin(st.a, job, told, WrX(addr, data)), pick);
      ContinueFrame(sys, s, Begin(st.a, job, told, WrX(addr, data)), pick);
  }

  lemma ReturnFrame(sys: Sys, s: Side, job: Job, rec: Record)
    ensures var s' := Return(sys, s, job, rec);
            s'.rx == s.rx && s'.a.hist.events == s.a.hist.events && s'.a.flags == s.a.flags
  {
    hide RepliesTo;
  }

  lemma ContinueFrame(sys: Sys, s: Side, pc: Pc, pick: nat)
    requires sys.maxChunk > 0 && pc.Pump? && pc.off <= XferSize(pc.x)
    ensures var s' := Continue(sys, s, pc, pick);
            && s'.rx == s.rx && s'.a.flags == s.a.flags
            && (pc.off == XferSize(pc.x) ==> |s'.a.pc.told| == |pc.told| + 1 && s'.a.pc.job == pc.job)
  {
    hide ChunkRequest;
  }

  /** The completion is there: the pump takes it over and goes on. */
  lemma DoneActs(sys: Sys, st: St, pick: nat)
    requires Valid(sys) && !st.a.flags.fault && Undisturbed(st.a, st.h2d) && Asked(sys, st.a)
    requires st.a.pc.Pump? && st.a.slot.done && st.a.pc.phase.Acting? && OnTrack(sys, st.a.pc, st.a.slot)
    ensures CallMoved(sys, st, Step(sys, st, Adapter(pick)))
  {
    var s, pc := Side(st.a, st.h2d, st.d2h), NextChunk(st.a);
    hide CallStep, BeginMmio, BeginClocks, PhaseStep, Continue, Less, Oversized, EntryOf, RoundTrip;
    assert AStep(sys, s, pick) == Continue(sys, s, pc, pick);
    hide AStep;
    ContinueLeavesCall(sys, s, pc, pick);
    ContinueFrame(sys, s, pc, pick);
  }

  lemma PumpMovedIsCallMoved(sys: Sys, st: St, st': St)
    requires st.a.pc.Pump? && PumpMoved(sys, st, st')
    ensures CallMoved(sys, st, st')
  {
    hide Less, Undisturbed;
  }

  /** Any step of the adapter inside a call takes the call on, unless it is the adapter's turn to wait. */
  lemma AdapterCallMoves(sys: Sys, mem: seq<Byte>, labels: seq<Label>, pick: nat)
    requires Valid(sys) && sys.sync
    requires var st := Run(sys, mem, labels);
             !st.a.pc.Idle? && Undisturbed(st.a, st.h2d) && (InFlight(st.a) ==> !Blocked(sys.dev, st.a.port, st.h2d))
    ensures CallMoved(sys, Run(sys, mem, labels), Step(sys, Run(sys, mem, labels), Adapter(pick)))
  {
    var st := Run(sys, mem, labels);
    RunKeeps(sys, mem, labels);
    RunKeepsDma(sys, mem, labels);
    RunKeepsAsked(sys, mem, labels);
    RunKeepsT(sys, mem, labels);
    hide Inv, Step, Run, Blocked, Less, Undisturbed, EntryOf, SeqRun, Outcome, Requests, Completions, Dma, Located,
      PumpMoved, CallMoved;
    if st.a.pc.InCall? {
      InCallMoves(sys, st, pick);
    } else if st.a.slot.done && st.a.pc.phase.Acting? {
      DmaMeansOnTrack(sys, st);
      DoneActs(sys, st, pick);
    } else {
      AdapterMoves(sys, st, pick);
      PumpMovedIsCallMoved(sys, st, Step(sys, st, Adapter(pick)));
    }
  }

  lemma DmaMeansOnTrack(sys: Sys, st: St)
    requires sys.maxChunk > 0 && DmaInv(sys, st) && st.a.pc.Pump?
    ensures OnTrack(sys, st.a.pc, st.a.slot)
  {
  }

  // The measures by which `Nearer` counts

  function Stage(a: Dev): nat {
    if a.pc.InCall? then 1 else 0
  }

  function Wait(sys: Sys, st: St): nat {
    if !st.a.pc.Pump? || TimeAhead(sys, st) < 0 then 0 else TimeAhead(sys, st)
  }

  function Chores(sys: Sys, st: St): nat {
    if st.a.pc.Pump? then Work(sys, st) else 0
  }

  function Turns(sys: Sys, st: St): nat {
    if st.a.pc.Pump? then PumpRank(sys, st) else 0
  }

  lemma NearerCounts(sys: Sys, st: St, st': St)
    requires !st.a.pc.Idle? && !st'.a.pc.Idle? && Nearer(sys, st, st')
    requires st.a.pc.Pump? ==> TimeAhead(sys, st) >= 0
    requires st'.a.pc.Pump? ==> TimeAhead(sys, st') >= 0
    ensures
      (CallsLeft(sys, st.a), Stage(st.a), BytesLeft(st.a), One(InFlight(st.a)), Wait(sys, st), Chores(sys, st),
      Turns(sys, st)
      decreases to
      CallsLeft(sys, st'.a), Stage(st'.a), BytesLeft(st'.a), One(InFlight(st'.a)), Wait(sys, st'), Chores(sys, st'),
      Turns(sys, st'))
  {
    hide CallsLeft, BytesLeft, TimeAhead, Work, PumpRank;
  }

  lemma MovedMeans(sys: Sys, st: St, st': St)
    requires !st.a.pc.Idle? && CallMoved(sys, st, st')
    ensures st'.a.hist.events == st.a.hist.events && st'.h.issued == st.h.issued
    ensures Undisturbed(st'.a, st'.h2d) && (!st'.a.pc.Idle? ==> Nearer(sys, st, st'))
  {
  }

  lemma WaitIsTime(sys: Sys, mem: seq<Byte>, labels: seq<Label>)
    requires Valid(sys) && sys.sync
    ensures Run(sys, mem, labels).a.pc.Pump? ==> TimeAhead(sys, Run(sys, mem, labels)) >= 0
  {
    RunKeeps(sys, mem, labels);
    RunKeepsDma(sys, mem, labels);
    hide Run, Inv, DmaInv, TimeAhead;
    if Run(sys, mem, labels).a.pc.Pump? {
      TimeIsAhead(sys, Run(sys, mem, labels));
    }
  }

  /** How far cooperation has to take a call to be called done. */
  ghost predicate Completed(sys: Sys, mem: seq<Byte>, st: St, st': St)
    requires Valid(sys)
  {
    && st'.a.pc.Idle? && st'.a.hist.events == st.a.hist.events && st'.h.issued == st.h.issued
    && SeqRun(sys, mem, st.a.hist.events) == SeqState(st'.a.hist.log, st'.h.mem, st'.a.hist.replies)
  }
}
