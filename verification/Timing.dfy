/** Conservative time over whole runs: causality and ring discipline. */
module Timing {
  import opened Link
  import opened HostMemory
  import opened Device
  import opened System

  // ---------------------------------------------------------------------------
  // One direction of a synchronized link

  /** The stamps sent so far never decrease and are at most one sync interval apart. */
  ghost predicate Paced(stamps: seq<nat>, w: Wire) {
    && (stamps != [] ==> w.latency <= stamps[0] <= w.latency + w.interval)
    && (forall i :: 0 < i < |stamps| ==> stamps[i - 1] <= stamps[i] <= stamps[i - 1] + w.interval)
  }

  ghost predicate Ordered<B>(q: seq<Msg<B>>, low: nat) {
    && (forall i :: 0 <= i < |q| ==> low <= q[i].stamp)
    && (forall i, j :: 0 <= i < j < |q| ==> q[i].stamp <= q[j].stamp)
  }

  /** `tx` sends to `rx` through `q`: the newest stamp is in the queue or already known to `rx`, and neither
      side runs past what it may. */
  ghost predicate Flow<B>(w: Wire, tx: Port, q: seq<Msg<B>>, rx: Port) {
    && Paced(tx.stamps, w)
    && Ordered(q, rx.inTs)
    && tx.lastOut <= tx.now <= tx.lastOut + w.interval
    && rx.now <= rx.inTs
    && if tx.stamps == [] then q == [] && rx.inTs == 0 && tx.lastOut == 0
       else
         && tx.stamps[|tx.stamps| - 1] == tx.lastOut + w.latency
         && (if q == [] then rx.inTs else q[|q| - 1].stamp) == tx.lastOut + w.latency
  }

  /** What both directions of the link obey. */
  ghost predicate TimeInv(sys: Sys, pa: Port, ph: Port, d2h: seq<Msg<D2H>>, h2d: seq<Msg<H2D>>) {
    sys.sync ==> Flow(sys.dev, pa, d2h, ph) && Flow(sys.host, ph, h2d, pa)
  }

  lemma SendKeeps(sys: Sys, pa: Port, ph: Port, d2h: seq<Msg<D2H>>, h2d: seq<Msg<H2D>>)
    requires TimeInv(sys, pa, ph, d2h, h2d)
    ensures forall body :: TimeInv(sys, AfterSend(sys.dev, pa), ph, d2h + [Stamped(sys.dev, pa, body)], h2d)
    ensures forall body :: TimeInv(sys, pa, AfterSend(sys.host, ph), d2h, h2d + [Stamped(sys.host, ph, body)])
  {
  }

  lemma PollKeeps(sys: Sys, pa: Port, ph: Port, d2h: seq<Msg<D2H>>, h2d: seq<Msg<H2D>>)
    requires TimeInv(sys, pa, ph, d2h, h2d)
    ensures TimeInv(sys, Peeked(pa, h2d), ph, d2h, h2d)
    ensures TimeInv(sys, pa, Peeked(ph, d2h), d2h, h2d)
    ensures h2d != [] ==> TimeInv(sys, Peeked(pa, h2d), ph, d2h, h2d[1..])
    ensures d2h != [] ==> TimeInv(sys, pa, Peeked(ph, d2h), d2h[1..], h2d)
  {
  }

  lemma AdvanceKeeps(sys: Sys, pa: Port, ph: Port, d2h: seq<Msg<D2H>>, h2d: seq<Msg<H2D>>, t: nat)
    requires TimeInv(sys, pa, ph, d2h, h2d)
    ensures pa.now <= t && (sys.sync ==> t <= Deadline(sys.dev, pa)) ==> TimeInv(sys, pa.(now := t), ph, d2h, h2d)
    ensures ph.now <= t && (sys.sync ==> t <= Deadline(sys.host, ph)) ==> TimeInv(sys, pa, ph.(now := t), d2h, h2d)
  {
  }

  /** Nothing the adapter or the host does on its port brings its deadline forward. */
  lemma DeadlineGrows(sys: Sys, pa: Port, ph: Port, d2h: seq<Msg<D2H>>, h2d: seq<Msg<H2D>>)
    requires sys.sync && TimeInv(sys, pa, ph, d2h, h2d)
    ensures pa.now <= Deadline(sys.dev, pa)
    ensures Deadline(sys.dev, pa) <= Deadline(sys.dev, AfterSend(sys.dev, pa))
    ensures Deadline(sys.dev, pa) <= Deadline(sys.dev, Peeked(pa, h2d))
  {
  }

  // ---------------------------------------------------------------------------
  // The adapter keeps it

  ghost predicate JobFits(sys: Sys, p: Port, job: Job) {
    job.Batch? ==> job.at + job.n * sys.psPerClock <= Deadline(sys.dev, p)
  }

  /** While a batch is being clocked, its end lies before everything the adapter has to attend to. */
  ghost predicate BatchFits(sys: Sys, p: Port, pc: Pc) {
    match pc
    case Idle(_) => true
    case InCall(job, _) => JobFits(sys, p, job)
    case Pump(job, _, _, _, _, _, _) => JobFits(sys, p, job)
  }

  ghost predicate SideInv(sys: Sys, s: Side, ph: Port) {
    TimeInv(sys, s.a.port, ph, s.tx, s.rx) && (sys.sync ==> BatchFits(sys, s.a.port, s.a.pc))
  }

  lemma SayKeeps(sys: Sys, s: Side, ph: Port, body: D2H)
    requires SideInv(sys, s, ph)
    ensures SideInv(sys, Say(sys, s, body), ph)
  {
    if sys.sync { DeadlineGrows(sys, s.a.port, ph, s.tx, s.rx); }
    SendKeeps(sys, s.a.port, ph, s.tx, s.rx);
    hide TimeInv, Deadline;
  }

  lemma AnswerKeeps(sys: Sys, s: Side, ph: Port, r: Req, data: seq<Byte>)
    requires SideInv(sys, s, ph)
    ensures SideInv(sys, Answer(sys, s, r, data), ph)
  {
    hide TimeInv, Deadline;
    var rs := RepliesTo(r, data);
    if rs != [] {
      SayKeeps(sys, s.(a := s.a.(hist := s.a.hist.(replies := s.a.hist.replies + rs))), ph, DReply(rs[0]));
    }
  }

  lemma PollOnceKeeps(sys: Sys, s: Side, ph: Port)
    requires SideInv(sys, s, ph)
    ensures SideInv(sys, PollOnce(sys, s).0, ph)
    ensures PollOnce(sys, s).0.a.pc == s.a.pc
  {
    if sys.sync { DeadlineGrows(sys, s.a.port, ph, s.tx, s.rx); }
    PollKeeps(sys, s.a.port, ph, s.tx, s.rx);
    hide TimeInv, Deadline, Peeked, Consume, Oversized;
    if Due(sys.sync, s.a.port, s.rx) {
      ConsumeLeavesPort(s.a.(port := Peeked(s.a.port, s.rx)), s.rx[0].body);
    }
  }

  lemma ConsumeLeavesPort(a: Dev, body: H2D)
    ensures Consume(a, body).port == a.port && Consume(a, body).pc == a.pc
  {
    hide Filled;
  }

  lemma PhaseKeeps(sys: Sys, s: Side, ph: Port)
    requires SideInv(sys, s, ph) && !s.a.pc.InCall?
    ensures SideInv(sys, PhaseStep(sys, s), ph)
  {
    hide TimeInv, Deadline, PollOnce, Say;
    SayKeeps(sys, s, ph, DSync);
    PollOnceKeeps(sys, s, ph);
  }

  lemma BeginClocksKeeps(sys: Sys, s: Side, ph: Port)
    requires Valid(sys) && SideInv(sys, s, ph) && s.a.pc.Idle?
    ensures SideInv(sys, s.(a := BeginClocks(sys, s.a)), ph)
  {
    hide TimeInv, Deadline;
    var deadline := Deadline(sys.dev, s.a.port);
    if sys.sync && deadline > s.a.port.now {
      AdvanceKeeps(sys, s.a.port, ph, s.tx, s.rx, deadline);
      var w := deadline - s.a.port.now;
      BatchInWindow(w, sys.psPerClock);
    }
  }

  lemma BatchInWindow(w: nat, ps: nat)
    requires ps > 0
    ensures Capped(w / ps) * ps <= w
  {
    assert (w / ps) * ps <= w;
    if Capped(w / ps) < w / ps {
      assert Capped(w / ps) * ps <= (w / ps) * ps;
    }
  }

  lemma ContinueKeeps(sys: Sys, s: Side, ph: Port, pc: Pc, pick: nat)
    requires Valid(sys) && SideInv(sys, s, ph) && pc.Pump? && pc.off <= XferSize(pc.x)
    requires sys.sync ==> JobFits(sys, s.a.port, pc.job)
    ensures SideInv(sys, Continue(sys, s, pc, pick), ph)
  {
    hide TimeInv, Deadline, ChunkRequest, Say;
    if pc.off < XferSize(pc.x) {
      var slot := Slot(pick, ChunkLen(sys.maxChunk, XferSize(pc.x), pc.off), false, [], s.a.port.now);
      SayKeeps(sys, s.(a := s.a.(slot := slot, pc := pc)), ph, ChunkRequest(sys, pc.x, pc.off, pick));
    }
  }

  lemma ReturnKeeps(sys: Sys, s: Side, ph: Port, job: Job, rec: Record)
    requires Valid(sys) && SideInv(sys, s, ph)
    requires sys.sync ==> JobFits(sys, s.a.port, job)
    ensures SideInv(sys, Return(sys, s, job, rec), ph)
  {
    if sys.sync { DeadlineGrows(sys, s.a.port, ph, s.tx, s.rx); }
    hide TimeInv, Deadline, Answer;
    match job
    case Mmio(r, _) => AnswerKeeps(sys, s.(a := Logged(s.a, rec).(pc := Idle(Acting))), ph, r, rec.data);
    case Batch(n, at) =>
      AdvanceKeeps(sys, s.a.port, ph, s.tx, s.rx, Later(s.a.port.now, at + n * sys.psPerClock));
  }

  lemma CallKeeps(sys: Sys, s: Side, ph: Port, job: Job, told: seq<seq<Byte>>, pick: nat)
    requires Valid(sys) && SideInv(sys, s, ph)
    requires sys.sync ==> JobFits(sys, s.a.port, job)
    ensures SideInv(sys, CallStep(sys, s, job, told, pick), ph)
  {
    hide TimeInv, Deadline, Continue, Return, JobFits, BatchFits;
    match EntryOf(sys, EventOf(job))
    case None =>
    case Some(e) =>
      match sys.lib.act(s.a.hist.log, e, told)
      case Finish(data) => ReturnKeeps(sys, s, ph, job, Record(e, told, data));
      case DmaRd(addr, len) => ContinueKeeps(sys, s, ph, Begin(s.a, job, told, RdX(addr, len, [])), pick);
      case DmaWr(addr, data) => ContinueKeeps(sys, s, ph, Begin(s.a, job, told, WrX(addr, data)), pick);
  }

  lemma PumpActKeeps(sys: Sys, s: Side, ph: Port, pick: nat)
    requires Valid(sys) && SideInv(sys, s, ph) && s.a.pc.Pump?
    ensures SideInv(sys, PumpAct(sys, s, pick), ph)
  {
    if sys.sync { DeadlineGrows(sys, s.a.port, ph, s.tx, s.rx); }
    AdvanceKeeps(sys, s.a.port, ph, s.tx, s.rx, PumpTarget(sys, s.a.port));
    hide TimeInv, Continue;
    if s.a.slot.done {
      ContinueKeeps(sys, s, ph, NextChunk(s.a), pick);
    }
  }

  lemma AStepKeeps(sys: Sys, s: Side, ph: Port, pick: nat)
    requires Valid(sys) && SideInv(sys, s, ph)
    ensures SideInv(sys, AStep(sys, s, pick), ph)
  {
    hide TimeInv, Deadline, PhaseStep, CallStep, PumpAct, BeginClocks, Answer;
    match s.a.pc
    case InCall(job, told) => CallKeeps(sys, s, ph, job, told, pick);
    case Idle(phase) =>
      if phase.Acting? {
        if s.a.mmioQ == [] {
          BeginClocksKeeps(sys, s, ph);
        } else {
          AnswerKeeps(sys, s.(a := Popped(s.a)), ph, s.a.mmioQ[0], []);
        }
      } else {
        PhaseKeeps(sys, s, ph);
      }
    case Pump(_, _, _, _, _, _, phase) =>
      if phase.Acting? {
        PumpActKeeps(sys, s, ph, pick);
      } else {
        PhaseKeeps(sys, s, ph);
      }
  }

  // ---------------------------------------------------------------------------
  // The host keeps it, and so does every run

  ghost predicate Inv(sys: Sys, st: St) {
    SideInv(sys, Side(st.a, st.h2d, st.d2h), st.h.port)
  }

  lemma HostSayKeeps(sys: Sys, st: St, body: H2D)
    requires Inv(sys, st)
    ensures Inv(sys, HostSay(sys, st, body))
  {
    SendKeeps(sys, st.a.port, st.h.port, st.d2h, st.h2d);
    hide TimeInv, BatchFits;
  }

  lemma HostPollKeeps(sys: Sys, st: St)
    requires Inv(sys, st)
    ensures Inv(sys, HostPoll(sys, st))
  {
    PollKeeps(sys, st.a.port, st.h.port, st.d2h, st.h2d);
    hide TimeInv, BatchFits, Peeked, HostSay;
    var st' := st.(h := st.h.(port := Peeked(st.h.port, st.d2h)));
    if Due(sys.sync, st.h.port, st.d2h) {
      var s := st'.(d2h := st.d2h[1..]);
      match st.d2h[0].body
      case DSync =>
      case DReply(reply) =>
      case DRead(slot, addr, len) => HostSayKeeps(sys, s, ReadComp(slot, ServeRead(s.h.mem, addr, len)));
      case DWrite(slot, addr, data) =>
        HostSayKeeps(sys, s.(h := s.h.(mem := ServeWrite(s.h.mem, addr, data))), WriteComp(slot));
    }
  }

  lemma BlindFits(sys: Sys, a: Dev)
    ensures PollBlind(a).port == a.port
    ensures BatchFits(sys, a.port, PollBlind(a).pc) == BatchFits(sys, a.port, a.pc)
  {
  }

  lemma StepKeeps(sys: Sys, st: St, l: Label)
    requires Valid(sys) && Inv(sys, st)
    ensures Inv(sys, Step(sys, st, l))
  {
    hide TimeInv, BatchFits, AStep, HostSay, HostPoll;
    match l
    case Adapter(pick) => AStepKeeps(sys, Side(st.a, st.h2d, st.d2h), st.h.port, pick);
    case Blind => BlindFits(sys, st.a);
    case Peer(HSend) => HostSayKeeps(sys, st, HSync);
    case Peer(HPoll) => HostPollKeeps(sys, st);
    case Peer(HIssue(r)) => HostSayKeeps(sys, st, MmioReq(r));
    case Peer(HAdvance(t)) => AdvanceKeeps(sys, st.a.port, st.h.port, st.d2h, st.h2d, t);
    case Peer(HCtrl(flags)) => HostSayKeeps(sys, st, DevCtrl(flags));
    case Peer(HTerminate) => HostSayKeeps(sys, st, Terminate);
  }

  lemma {:induction false} RunKeeps(sys: Sys, mem: seq<Byte>, labels: seq<Label>)
    requires Valid(sys)
    ensures Inv(sys, Run(sys, mem, labels))
  {
    if labels == [] {
    } else {
      RunKeeps(sys, mem, labels[..|labels| - 1]);
      StepKeeps(sys, Run(sys, mem, labels[..|labels| - 1]), labels[|labels| - 1]);
    }
  }

  /** Causality. In a synchronized run neither clock ever passes its next message or its next owed sync; a
      message that a poll hands over is handed over at exactly its stamped time; and the clocks are never
      further apart than the latency towards the one that is ahead. */
  lemma {:induction false} Causality(sys: Sys, mem: seq<Byte>, labels: seq<Label>)
    requires Valid(sys) && sys.sync
    ensures var st := Run(sys, mem, labels);
            && st.a.port.now <= Deadline(sys.dev, st.a.port)
            && st.h.port.now <= Deadline(sys.host, st.h.port)
            && (Due(true, st.a.port, st.h2d) ==> st.h2d[0].stamp == st.a.port.now)
            && (Due(true, st.h.port, st.d2h) ==> st.d2h[0].stamp == st.h.port.now)
            && st.a.port.now <= st.h.port.now + sys.host.latency
            && st.h.port.now <= st.a.port.now + sys.dev.latency
  {
    RunKeeps(sys, mem, labels);
  }

  // ---------------------------------------------------------------------------
  // Ring discipline, synchronized or not

  /** One step of a side: it sends at most one message, at its time, and time does not run backwards. */
  ghost predicate Grows(w: Wire, p: Port, p': Port) {
    p.now <= p'.now && (p'.stamps == p.stamps || p'.stamps == p.stamps + [p.now + w.latency])
  }

  /** The stamps sent so far never decrease, and the next one will not be earlier either. */
  ghost predicate Ascending(w: Wire, p: Port) {
    && (forall i :: 0 < i < |p.stamps| ==> p.stamps[i - 1] <= p.stamps[i])
    && (p.stamps != [] ==> p.stamps[|p.stamps| - 1] <= p.now + w.latency)
  }

  lemma AnswerGrows(sys: Sys, s: Side, r: Req, data: seq<Byte>)
    ensures Grows(sys.dev, s.a.port, Answer(sys, s, r, data).a.port)
  {
    hide RepliesTo;
  }

  lemma ContinueGrows(sys: Sys, s: Side, pc: Pc, pick: nat)
    requires sys.maxChunk > 0 && pc.Pump? && pc.off <= XferSize(pc.x)
    ensures Grows(sys.dev, s.a.port, Continue(sys, s, pc, pick).a.port)
  {
    hide ChunkRequest;
  }

  lemma CallGrows(sys: Sys, s: Side, job: Job, told: seq<seq<Byte>>, pick: nat)
    requires sys.maxChunk > 0
    ensures Grows(sys.dev, s.a.port, CallStep(sys, s, job, told, pick).a.port)
  {
    hide Continue, Answer;
    match EntryOf(sys, EventOf(job))
    case None =>
    case Some(e) =>
      match sys.lib.act(s.a.hist.log, e, told)
      case Finish(data) =>
        if job.Mmio? {
          AnswerGrows(sys, s.(a := Logged(s.a, Record(e, told, data)).(pc := Idle(Acting))), job.req, data);
        }
      case DmaRd(addr, len) => ContinueGrows(sys, s, Begin(s.a, job, told, RdX(addr, len, [])), pick);
      case DmaWr(addr, data) => ContinueGrows(sys, s, Begin(s.a, job, told, WrX(addr, data)), pick);
  }

  lemma PhaseGrows(sys: Sys, s: Side)
    requires !s.a.pc.InCall?
    ensures Grows(sys.dev, s.a.port, PhaseStep(sys, s).a.port)
  {
    hide Consume;
    if Due(sys.sync, s.a.port, s.rx) {
      ConsumeLeavesPort(s.a.(port := Peeked(s.a.port, s.rx)), s.rx[0].body);
    }
  }

  lemma AStepGrows(sys: Sys, s: Side, pick: nat)
    requires sys.psPerClock > 0 && sys.maxChunk > 0
    ensures Grows(sys.dev, s.a.port, AStep(sys, s, pick).a.port)
  {
    hide PhaseStep, CallStep, Continue, Answer, Deadline;
    match s.a.pc
    case InCall(job, told) => CallGrows(sys, s, job, told, pick);
    case Idle(phase) =>
      if !phase.Acting? {
        PhaseGrows(sys, s);
      } else if s.a.mmioQ != [] {
        AnswerGrows(sys, s.(a := Popped(s.a)), s.a.mmioQ[0], []);
      }
    case Pump(_, _, _, _, _, _, phase) =>
      if !phase.Acting? {
        PhaseGrows(sys, s);
      } else if s.a.slot.done {
        ContinueGrows(sys, s, NextChunk(s.a), pick);
      }
  }

  lemma HostGrows(sys: Sys, st: St, move: HostMove)
    ensures Grows(sys.host, st.h.port, HostStep(sys, st, move).h.port)
  {
    hide ServeRead, ServeWrite, Deadline;
  }

  /** Outgoing stamps never decrease, on either side and along any run. */
  lemma {:induction false} StampsAscend(sys: Sys, mem: seq<Byte>, labels: seq<Label>)
    requires Valid(sys)
    ensures var st := Run(sys, mem, labels); Ascending(sys.dev, st.a.port) && Ascending(sys.host, st.h.port)
  {
    hide AStep, HostStep;
    if labels == [] {
    } else {
      var before, l := labels[..|labels| - 1], labels[|labels| - 1];
      StampsAscend(sys, mem, before);
      var st := Run(sys, mem, before);
      match l
      case Adapter(pick) => AStepGrows(sys, Side(st.a, st.h2d, st.d2h), pick);
      case Blind => BlindFits(sys, st.a);
      case Peer(move) =>
        HostGrows(sys, st, move);
        HostLeavesAdapter(sys, st, move);
    }
  }

  /** Ring discipline. Along any run each side's stamps never decrease, whatever was sent from inside nested DMA
      callbacks; in a synchronized run consecutive ones are at most one sync interval apart. */
  lemma {:induction false} StampsArePaced(sys: Sys, mem: seq<Byte>, labels: seq<Label>)
    requires Valid(sys)
    ensures var st := Run(sys, mem, labels);
            && Ascending(sys.dev, st.a.port) && Ascending(sys.host, st.h.port)
            && (sys.sync ==> Paced(st.a.port.stamps, sys.dev) && Paced(st.h.port.stamps, sys.host))
  {
    StampsAscend(sys, mem, labels);
    RunKeeps(sys, mem, labels);
    hide Run;
  }
}
