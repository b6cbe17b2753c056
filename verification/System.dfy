/** The adapter and its peer as a step system: two processes, two timestamped channels, any interleaving.
    `hist` in `Dev`, and `issued` and `got` in `Host`, only record what has happened. */
module System {
  import opened Link
  import opened HostMemory
  import opened Device

  /** Device to host. The slot of a DMA request is the address of a stack slot in the original. */
  datatype D2H = DSync | DRead(slot: nat, addr: nat, len: nat) | DWrite(slot: nat, addr: nat, data: seq<Byte>)
               | DReply(reply: Reply)

  /** Host to device. */
  datatype H2D = HSync | MmioReq(req: Req) | ReadComp(slot: nat, data: seq<Byte>) | WriteComp(slot: nat)
               | DevCtrl(flags: nat) | Terminate | OtherMsg

  /** Every pumping loop goes round: send owed syncs, poll dry, then act. */
  datatype Phase = Syncing | Polling | Acting

  /** The libttsim call in progress and the time at which it was entered. */
  datatype Job = Mmio(req: Req, at: nat) | Batch(n: nat, at: nat)

  datatype Xfer = RdX(addr: nat, size: nat, acc: seq<Byte>) | WrX(addr: nat, data: seq<Byte>)

  /** Where the adapter's control is. `Idle` is the main loop; in `InCall` libttsim computes; in `Pump` it
      waits in a DMA callback for sub-operation `idx`, at byte `off`, of a transfer begun at `began`. */
  datatype Pc = Idle(phase: Phase)
              | InCall(job: Job, told: seq<seq<Byte>>)
              | Pump(job: Job, told: seq<seq<Byte>>, x: Xfer, off: nat, idx: nat, began: nat, phase: Phase)

  /** The sub-operation in flight. */
  datatype Slot = Slot(id: nat, len: nat, done: bool, buf: seq<Byte>, sentAt: nat)

  datatype Stats = Stats(mmioReads: nat, mmioWrites: nat, posted: nat, dmaReads: nat, dmaWrites: nat,
                         clocks: nat)

  /** `fault` marks a completion that would write through a dead or foreign slot. */
  datatype Flags = Flags(exiting: bool, stopped: bool, fault: bool, waiting: bool, devctrl: nat)

  /** What has happened so far: events begun, calls returned, replies sent, requests taken off the ring;
      time jumped over, time spent in DMA pumps, and how much of that lay inside clock batches. */
  datatype Hist = Hist(events: seq<Event>, log: seq<Record>, replies: seq<Reply>, arrived: seq<Req>,
                       jumped: nat, pumped: nat, hidden: nat)

  datatype Dev = Dev(port: Port, pc: Pc, slot: Slot, mmioQ: seq<Req>, flags: Flags, stats: Stats, hist: Hist)

  /** The adapter together with the ends of the two rings it works on. */
  datatype Side = Side(a: Dev, rx: seq<Msg<H2D>>, tx: seq<Msg<D2H>>)

  datatype Host = Host(port: Port, mem: seq<Byte>, issued: seq<Req>, got: seq<Reply>)

  datatype St = St(a: Dev, h: Host, d2h: seq<Msg<D2H>>, h2d: seq<Msg<H2D>>)

  // ---------------------------------------------------------------------------
  // The adapter

  function XferSize(x: Xfer): nat {
    if x.RdX? then x.size else |x.data|
  }

  function EventOf(job: Job): Event {
    if job.Mmio? then Serve(job.req) else Tick(job.n)
  }

  function Say(sys: Sys, s: Side, body: D2H): Side {
    Side(s.a.(port := AfterSend(sys.dev, s.a.port)), s.rx, s.tx + [Stamped(sys.dev, s.a.port, body)])
  }

  function At(s: Side, pc: Pc): Side {
    s.(a := s.a.(pc := pc))
  }

  function Noted(a: Dev, ev: Event): Dev {
    a.(hist := a.hist.(events := a.hist.events + [ev]))
  }

  /** Answer a request, unless it was a posted write. */
  function Answer(sys: Sys, s: Side, r: Req, data: seq<Byte>): Side {
    var rs := RepliesTo(r, data);
    if rs == [] then s
    else Say(sys, s.(a := s.a.(hist := s.a.hist.(replies := s.a.hist.replies + rs))), DReply(rs[0]))
  }

  /** The slot that a completion with this id and kind, carrying `n` bytes, fills; None if there is none. */
  function Filled(a: Dev, id: nat, data: Option<seq<Byte>>): Option<Slot> {
    if a.pc.Pump? && a.slot.id == id && !a.slot.done &&
       (if data.Some? then a.pc.x.RdX? && |data.value| == a.slot.len else a.pc.x.WrX?)
    then Some(a.slot.(done := true, buf := if data.Some? then data.value else []))
    else None
  }

  /** PollPcie: what one message does to the adapter. No case enters libttsim. */
  function Consume(a: Dev, body: H2D): Dev {
    match body
    case HSync => a
    case OtherMsg => a
    case DevCtrl(flags) => a.(flags := a.flags.(devctrl := flags))
    case Terminate => a.(flags := a.flags.(exiting := true))
    case MmioReq(r) => a.(mmioQ := a.mmioQ + [r], hist := a.hist.(arrived := a.hist.arrived + [r]))
    case ReadComp(id, data) =>
      (match Filled(a, id, Some(data))
       case None => a.(flags := a.flags.(fault := true))
       case Some(slot) => a.(slot := slot, stats := a.stats.(dmaReads := a.stats.dmaReads + 1)))
    case WriteComp(id) =>
      (match Filled(a, id, None)
       case None => a.(flags := a.flags.(fault := true))
       case Some(slot) => a.(slot := slot, stats := a.stats.(dmaWrites := a.stats.dmaWrites + 1)))
  }

  /** A write too long for the request buffer ends the process before its ring slot is released. */
  predicate Oversized(body: H2D) {
    body.MmioReq? && !body.req.isRead && body.req.len > MAX_MMIO_LEN
  }

  function Halted(a: Dev): Dev {
    a.(flags := a.flags.(stopped := true))
  }

  /** One poll of the incoming ring; the flag tells whether a message was found. */
  function PollOnce(sys: Sys, s: Side): (Side, bool) {
    var a := s.a.(port := Peeked(s.a.port, s.rx));
    if !Due(sys.sync, s.a.port, s.rx) then (s.(a := a), false)
    else if Oversized(s.rx[0].body) then (s.(a := Halted(a)), true)
    else (Side(Consume(a, s.rx[0].body), s.rx[1..], s.tx), true)
  }

  function Counted(st: Stats, r: Req): Stats {
    if r.isRead then st.(mmioReads := st.mmioReads + 1)
    else st.(mmioWrites := st.mmioWrites + 1, posted := if r.posted then st.posted + 1 else st.posted)
  }

  function Popped(a: Dev): Dev
    requires a.mmioQ != []
  {
    Noted(a, Serve(a.mmioQ[0])).(mmioQ := a.mmioQ[1..], stats := Counted(a.stats, a.mmioQ[0]))
  }

  /** DrainDeferredMmio, one request: it is popped and counted; if it translates, libttsim is entered,
      otherwise it is answered with zeros at once. */
  function BeginMmio(sys: Sys, s: Side): Side
    requires s.a.mmioQ != []
  {
    var r := s.a.mmioQ[0];
    if Translate(sys, r).None? then Answer(sys, s.(a := Popped(s.a)), r, [])
    else s.(a := Popped(s.a).(pc := InCall(Mmio(r, s.a.port.now), [])))
  }

  /** The number of clock steps one call may ask for. */
  function Capped(n: nat): nat {
    if n > MAX_CLOCKS_PER_CALL then MAX_CLOCKS_PER_CALL else n
  }

  function StartBatch(a: Dev, n: nat): Dev {
    Noted(a, Tick(n)).(flags := a.flags.(waiting := false), pc := InCall(Batch(n, a.port.now), []))
  }

  function JumpTo(a: Dev, t: nat): Dev
    requires a.port.now <= t
  {
    a.(port := a.port.(now := t), hist := a.hist.(jumped := a.hist.jumped + (t - a.port.now)),
       pc := Idle(Syncing))
  }

  /** RunClocks up to the point where libttsim is entered. */
  function BeginClocks(sys: Sys, a: Dev): Dev
    requires sys.psPerClock > 0
  {
    var deadline := Deadline(sys.dev, a.port);
    if !sys.sync then StartBatch(a, Capped(sys.batch))
    else if deadline <= a.port.now then a.(flags := a.flags.(waiting := true), pc := Idle(Syncing))
    else
      var n := (deadline - a.port.now) / sys.psPerClock;
      if n == 0 then JumpTo(a, deadline) else StartBatch(a, Capped(n))
  }

  function ChunkRequest(sys: Sys, x: Xfer, off: nat, pick: nat): D2H
    requires sys.maxChunk > 0 && off <= XferSize(x)
  {
    var n := ChunkLen(sys.maxChunk, XferSize(x), off);
    if x.RdX? then DRead(pick, Addr(x.addr, off), n) else DWrite(pick, Addr(x.addr, off), x.data[off..off + n])
  }

  /** The transfer is at `off`: send its next sub-operation, in stack slot `pick`, and start to wait; or hand
      its result back to libttsim. */
  function Continue(sys: Sys, s: Side, pc: Pc, pick: nat): Side
    requires sys.maxChunk > 0 && pc.Pump? && pc.off <= XferSize(pc.x)
  {
    var size := XferSize(pc.x);
    if pc.off == size then At(s, InCall(pc.job, pc.told + [if pc.x.RdX? then pc.x.acc else []]))
    else
      var slot := Slot(pick, ChunkLen(sys.maxChunk, size, pc.off), false, [], s.a.port.now);
      Say(sys, s.(a := s.a.(slot := slot, pc := pc)), ChunkRequest(sys, pc.x, pc.off, pick))
  }

  function Begin(a: Dev, job: Job, told: seq<seq<Byte>>, x: Xfer): Pc {
    Pump(job, told, x, 0, 0, a.port.now, Syncing)
  }

  /** The clock batch is over: time moves to its end, unless DMA has taken it further. */
  function EndBatch(sys: Sys, a: Dev, n: nat, at: nat): Dev {
    var target := at + n * sys.psPerClock;
    var spent := if a.port.now < at then 0 else a.port.now - at;
    a.(stats := a.stats.(clocks := a.stats.clocks + n),
       port := a.port.(now := Later(a.port.now, target)),
       hist := a.hist.(hidden := a.hist.hidden + Earlier(spent, n * sys.psPerClock)),
       pc := Idle(Syncing))
  }

  function Logged(a: Dev, rec: Record): Dev {
    a.(hist := a.hist.(log := a.hist.log + [rec]))
  }

  /** The call has returned: an MMIO request is answered, a clock batch accounted for. */
  function Return(sys: Sys, s: Side, job: Job, rec: Record): Side {
    var a := Logged(s.a, rec);
    match job
    case Mmio(r, _) => Answer(sys, s.(a := a.(pc := Idle(Acting))), r, rec.data)
    case Batch(n, at) => s.(a := EndBatch(sys, a, n, at))
  }

  /** libttsim computes: it returns or calls back for DMA. */
  function CallStep(sys: Sys, s: Side, job: Job, told: seq<seq<Byte>>, pick: nat): Side
    requires sys.maxChunk > 0
  {
    match EntryOf(sys, EventOf(job))
    case None => s
    case Some(e) =>
      match sys.lib.act(s.a.hist.log, e, told)
      case Finish(data) => Return(sys, s, job, Record(e, told, data))
      case DmaRd(addr, len) => Continue(sys, s, Begin(s.a, job, told, RdX(addr, len, [])), pick)
      case DmaWr(addr, data) => Continue(sys, s, Begin(s.a, job, told, WrX(addr, data)), pick)
  }

  /** How far DmaPumpUntil moves time when there is nothing left to poll. */
  function PumpTarget(sys: Sys, p: Port): (t: nat)
    ensures t >= p.now
  {
    var cap := p.now + sys.batch * sys.psPerClock;
    Later(p.now, if sys.sync then Earlier(Deadline(sys.dev, p), cap) else cap)
  }

  /** Where the transfer stands once the finished sub-operation has been taken over. */
  function NextChunk(a: Dev): (pc: Pc)
    requires a.pc.Pump?
    ensures pc.Pump? && pc.off <= XferSize(pc.x)
  {
    var x := if a.pc.x.RdX? then a.pc.x.(acc := a.pc.x.acc + a.slot.buf) else a.pc.x;
    a.pc.(x := x, off := Earlier(a.pc.off + a.slot.len, XferSize(x)), idx := a.pc.idx + 1, phase := Syncing)
  }

  function PumpAdvance(sys: Sys, a: Dev): Dev
    requires a.pc.Pump?
  {
    var t := PumpTarget(sys, a.port);
    a.(port := a.port.(now := t), hist := a.hist.(pumped := a.hist.pumped + (t - a.port.now)),
       pc := a.pc.(phase := Syncing))
  }

  /** DmaPumpUntil has polled dry: leave it if the slot is done, else stop or let time advance. */
  function PumpAct(sys: Sys, s: Side, pick: nat): Side
    requires s.a.pc.Pump? && sys.maxChunk > 0
  {
    if s.a.slot.done then Continue(sys, s, NextChunk(s.a), pick)
    else if s.a.flags.exiting then s.(a := Halted(s.a))
    else s.(a := PumpAdvance(sys, s.a))
  }

  /** The part of the loop that the main loop and the DMA pump share. */
  function PhaseStep(sys: Sys, s: Side): Side
    requires !s.a.pc.InCall?
  {
    if s.a.pc.phase.Syncing? then
      if SyncOwed(sys.sync, sys.dev, s.a.port) then Say(sys, s, DSync)
      else At(s, s.a.pc.(phase := Polling))
    else
      var (s', got) := PollOnce(sys, s);
      if got then s' else At(s', s'.a.pc.(phase := Acting))
  }

  /** One step of the adapter; `pick` is the address of a new stack slot, should the step need one. */
  function AStep(sys: Sys, s: Side, pick: nat): Side
    requires sys.psPerClock > 0 && sys.maxChunk > 0
  {
    if s.a.flags.stopped || s.a.flags.fault then s
    else match s.a.pc
      case InCall(job, told) => CallStep(sys, s, job, told, pick)
      case Idle(phase) =>
        if phase.Acting? then
          if s.a.mmioQ != [] then BeginMmio(sys, s) else s.(a := BeginClocks(sys, s.a))
        else if phase.Syncing? && s.a.flags.exiting then s.(a := Halted(s.a))
        else PhaseStep(sys, s)
      case Pump(_, _, _, _, _, _, phase) =>
        if phase.Acting? then PumpAct(sys, s, pick) else PhaseStep(sys, s)
  }

  // ---------------------------------------------------------------------------
  // The host

  /** What the host may ask for: a write carries as many bytes as it says, a read fits the read buffer. */
  predicate WellFormed(r: Req) {
    if r.isRead then !r.posted && r.len <= MAX_MMIO_LEN else |r.data| == r.len
  }

  datatype HostMove = HSend | HPoll | HIssue(req: Req) | HAdvance(t: nat) | HCtrl(flags: nat) | HTerminate

  function HostSay(sys: Sys, st: St, body: H2D): St {
    st.(h := st.h.(port := AfterSend(sys.host, st.h.port)), h2d := st.h2d + [Stamped(sys.host, st.h.port, body)])
  }

  /** Poll: DMA is served out of memory and answered at once; MMIO completions are collected. */
  function HostConsume(sys: Sys, st: St, body: D2H): St {
    match body
    case DSync => st
    case DReply(reply) => st.(h := st.h.(got := st.h.got + [reply]))
    case DRead(slot, addr, len) => HostSay(sys, st, ReadComp(slot, ServeRead(st.h.mem, addr, len)))
    case DWrite(slot, addr, data) =>
      HostSay(sys, st.(h := st.h.(mem := ServeWrite(st.h.mem, addr, data))), WriteComp(slot))
  }

  function HostPoll(sys: Sys, st: St): St {
    var st' := st.(h := st.h.(port := Peeked(st.h.port, st.d2h)));
    if !Due(sys.sync, st.h.port, st.d2h) then st'
    else HostConsume(sys, st'.(d2h := st.d2h[1..]), st.d2h[0].body)
  }

  /** How far the host may move its clock: anywhere if unsynchronized, else up to its deadline. */
  predicate MayAdvance(sys: Sys, p: Port, t: nat) {
    p.now <= t && (sys.sync ==> t <= Deadline(sys.host, p))
  }

  function HostStep(sys: Sys, st: St, move: HostMove): St {
    match move
    case HSend => if SyncOwed(sys.sync, sys.host, st.h.port) then HostSay(sys, st, HSync) else st
    case HPoll => HostPoll(sys, st)
    case HIssue(r) =>
      if !WellFormed(r) then st
      else
        var st' := HostSay(sys, st, MmioReq(r));
        st'.(h := st'.h.(issued := st'.h.issued + [r]))
    case HAdvance(t) => if MayAdvance(sys, st.h.port, t) then st.(h := st.h.(port := st.h.port.(now := t))) else st
    case HCtrl(flags) => HostSay(sys, st, DevCtrl(flags))
    case HTerminate => HostSay(sys, st, Terminate)
  }

  // ---------------------------------------------------------------------------
  // The whole system

  /** The adapter polls a ring on which nothing is visible to it yet; the host has no need for such a step,
      since one of its polls that finds nothing changes nothing. */
  function PollBlind(a: Dev): Dev {
    if a.flags.stopped || a.flags.fault || a.pc.InCall? || !a.pc.phase.Polling? then a
    else a.(pc := a.pc.(phase := Acting))
  }

  datatype Label = Adapter(pick: nat) | Blind | Peer(move: HostMove)

  function Step(sys: Sys, st: St, l: Label): St
    requires sys.psPerClock > 0 && sys.maxChunk > 0
  {
    match l
    case Adapter(pick) =>
      var s := AStep(sys, Side(st.a, st.h2d, st.d2h), pick);
      St(s.a, st.h, s.tx, s.rx)
    case Blind => st.(a := PollBlind(st.a))
    case Peer(move) => HostStep(sys, st, move)
  }

  const NO_SLOT := Slot(0, 0, true, [], 0)

  /** The link has been established and the host has sent its greeting, as Connect does. */
  function Init(sys: Sys, mem: seq<Byte>): St {
    var idle := Port(0, 0, 0, []);
    var a := Dev(idle.(now := sys.start), Idle(Syncing), NO_SLOT, [], Flags(false, false, false, false, 0),
                 Stats(0, 0, 0, 0, 0, 0), Hist([], [], [], [], 0, 0, 0));
    HostSay(sys, St(a, Host(idle, mem, [], []), [], []), DevCtrl(0))
  }

  function Run(sys: Sys, mem: seq<Byte>, labels: seq<Label>): St
    requires sys.psPerClock > 0 && sys.maxChunk > 0
  {
    if labels == [] then Init(sys, mem)
    else Step(sys, Run(sys, mem, labels[..|labels| - 1]), labels[|labels| - 1])
  }

  lemma RunExtend(sys: Sys, mem: seq<Byte>, labels: seq<Label>, l: Label)
    requires sys.psPerClock > 0 && sys.maxChunk > 0
    ensures Run(sys, mem, labels + [l]) == Step(sys, Run(sys, mem, labels), l)
  {
    assert (labels + [l])[..|labels|] == labels;
  }

  lemma HostLeavesAdapter(sys: Sys, st: St, move: HostMove)
    ensures HostStep(sys, st, move).a == st.a
  {
  }
}
