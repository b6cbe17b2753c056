/** The nested pump over whole runs: at most one DMA sub-operation is in flight, it belongs to the innermost
    callback, every completion that arrives matches it, and in a synchronized run it takes exactly one round
    trip of the link. */
module DmaSafety {
  import opened Link
  import opened HostMemory
  import opened Device
  import opened System
  import opened Timing
  import opened Arithmetic

  predicate IsRequest(body: D2H) { body.DRead? || body.DWrite? }

  predicate IsCompletion(body: H2D) { body.ReadComp? || body.WriteComp? }

  function Requests(q: seq<Msg<D2H>>): seq<Msg<D2H>> {
    if q == [] then [] else (if IsRequest(q[0].body) then [q[0]] else []) + Requests(q[1..])
  }

  function Completions(q: seq<Msg<H2D>>): seq<Msg<H2D>> {
    if q == [] then [] else (if IsCompletion(q[0].body) then [q[0]] else []) + Completions(q[1..])
  }

  lemma {:induction false} RequestsAppend(q: seq<Msg<D2H>>, m: Msg<D2H>)
    ensures Requests(q + [m]) == Requests(q) + if IsRequest(m.body) then [m] else []
  {
    if q == [] {
      assert q + [m] == [m] && [m][1..] == [];
    } else {
      RequestsAppend(q[1..], m);
      assert (q + [m])[0] == q[0] && (q + [m])[1..] == q[1..] + [m];
      assert Requests(q + [m]) == (if IsRequest(q[0].body) then [q[0]] else []) + Requests(q[1..] + [m]);
    }
  }

  lemma {:induction false} CompletionsAppend(q: seq<Msg<H2D>>, m: Msg<H2D>)
    ensures Completions(q + [m]) == Completions(q) + if IsCompletion(m.body) then [m] else []
  {
    if q == [] {
      assert q + [m] == [m] && [m][1..] == [];
    } else {
      CompletionsAppend(q[1..], m);
      assert (q + [m])[0] == q[0] && (q + [m])[1..] == q[1..] + [m];
      assert Completions(q + [m]) == (if IsCompletion(q[0].body) then [q[0]] else []) + Completions(q[1..] + [m]);
    }
  }

  function RoundTrip(sys: Sys): nat {
    sys.dev.latency + sys.host.latency
  }

  /** What the host answers to the sub-operation at `off` of `x`. */
  function Answered(sys: Sys, x: Xfer, off: nat, slot: Slot, mem: seq<Byte>): H2D {
    if x.RdX? then ReadComp(slot.id, ServeRead(mem, Addr(x.addr, off), slot.len)) else WriteComp(slot.id)
  }

  /** Progress of a transfer whose sub-operation `idx` is waited for. */
  ghost predicate OnTrack(sys: Sys, pc: Pc, slot: Slot)
    requires sys.maxChunk > 0 && pc.Pump?
  {
    && pc.off < XferSize(pc.x)
    && pc.off == pc.idx * sys.maxChunk
    && (pc.x.RdX? ==> |pc.x.acc| == pc.off)
    && slot.len == ChunkLen(sys.maxChunk, XferSize(pc.x), pc.off)
    && (sys.sync ==> slot.sentAt == pc.began + pc.idx * RoundTrip(sys))
  }

  /** The sub-operation waited for is in exactly one place: requested, answered or done. */
  ghost predicate Located(sys: Sys, pc: Pc, slot: Slot, now: nat, reqs: seq<Msg<D2H>>, comps: seq<Msg<H2D>>,
                          mem: seq<Byte>)
    requires sys.maxChunk > 0 && pc.Pump? && OnTrack(sys, pc, slot)
  {
    if slot.done then
      && reqs == [] && comps == []
      && (sys.sync ==> now == slot.sentAt + RoundTrip(sys))
      && slot.buf == (if pc.x.RdX? then ServeRead(mem, Addr(pc.x.addr, pc.off), slot.len) else [])
    else if reqs == [] then
      && |comps| == 1
      && comps[0].body == Answered(sys, pc.x, pc.off, slot, mem)
      && (sys.sync ==> comps[0].stamp == slot.sentAt + RoundTrip(sys))
    else
      && comps == [] && reqs == [Msg(slot.sentAt + sys.dev.latency, ChunkRequest(sys, pc.x, pc.off, slot.id))]
  }

  /** All there is to say about DMA in a reachable state. */
  ghost predicate Dma(sys: Sys, pc: Pc, slot: Slot, now: nat, reqs: seq<Msg<D2H>>, comps: seq<Msg<H2D>>,
                      mem: seq<Byte>)
    requires sys.maxChunk > 0
  {
    if pc.Pump? then OnTrack(sys, pc, slot) && Located(sys, pc, slot, now, reqs, comps, mem)
    else reqs == [] && comps == []
  }

  ghost predicate SideDma(sys: Sys, s: Side, mem: seq<Byte>)
    requires sys.maxChunk > 0
  {
    !s.a.flags.fault &&
    Dma(sys, s.a.pc, s.a.slot, s.a.port.now, Requests(s.tx), Completions(s.rx), mem)
  }

  ghost predicate DmaInv(sys: Sys, st: St)
    requires sys.maxChunk > 0
  {
    SideDma(sys, Side(st.a, st.h2d, st.d2h), st.h.mem)
  }

  // ---------------------------------------------------------------------------
  // The adapter keeps it

  lemma SayKeepsDma(sys: Sys, s: Side, mem: seq<Byte>, body: D2H)
    requires sys.maxChunk > 0 && SideDma(sys, s, mem) && !IsRequest(body)
    ensures SideDma(sys, Say(sys, s, body), mem)
  {
    hide Dma;
    RequestsAppend(s.tx, Stamped(sys.dev, s.a.port, body));
    assert Requests(s.tx) + [] == Requests(s.tx);
  }

  lemma AnswerKeepsDma(sys: Sys, s: Side, mem: seq<Byte>, r: Req, data: seq<Byte>)
    requires sys.maxChunk > 0 && SideDma(sys, s, mem)
    ensures SideDma(sys, Answer(sys, s, r, data), mem)
  {
    hide Dma;
    var rs := RepliesTo(r, data);
    if rs != [] {
      SayKeepsDma(sys, s.(a := s.a.(hist := s.a.hist.(replies := s.a.hist.replies + rs))), mem, DReply(rs[0]));
    }
  }

  /** The head of the ring is the one completion there is, or no completion at all. */
  lemma ConsumeKeepsDma(sys: Sys, s: Side, mem: seq<Byte>)
    requires sys.maxChunk > 0 && SideDma(sys, s, mem) && s.rx != []
    requires sys.sync ==> s.rx[0].stamp == s.a.port.now
    ensures SideDma(sys, Side(Consume(s.a, s.rx[0].body), s.rx[1..], s.tx), mem)
  {
    var m := s.rx[0];
    assert Completions(s.rx) == (if IsCompletion(m.body) then [m] else []) + Completions(s.rx[1..]);
    if IsCompletion(m.body) {
      assert s.a.pc.Pump? && !s.a.slot.done && Requests(s.tx) == [];
      assert Completions(s.rx) == [m];
      assert Completions(s.rx[1..]) == [];
      assert m.body == Answered(sys, s.a.pc.x, s.a.pc.off, s.a.slot, mem);
      hide Requests, Completions, ServeRead, ChunkRequest;
    } else {
      hide Dma;
      assert Completions(s.rx[1..]) == Completions(s.rx);
    }
  }

  lemma PollKeepsDma(sys: Sys, s: Side, mem: seq<Byte>, ph: Port)
    requires sys.maxChunk > 0 && SideDma(sys, s, mem) && SideInv(sys, s, ph)
    ensures SideDma(sys, PollOnce(sys, s).0, mem)
    ensures PollOnce(sys, s).0.a.pc == s.a.pc
  {
    var s' := s.(a := s.a.(port := Peeked(s.a.port, s.rx)));
    if Due(sys.sync, s.a.port, s.rx) {
      assert sys.sync ==> s.rx[0].stamp == s.a.port.now;
      hide Dma, Consume, TimeInv;
      assert SideDma(sys, s', mem);
      ConsumeKeepsDma(sys, s', mem);
      ConsumeLeavesPort(s'.a, s.rx[0].body);
    }
  }

  lemma PhaseKeepsDma(sys: Sys, s: Side, mem: seq<Byte>, ph: Port)
    requires sys.maxChunk > 0 && SideDma(sys, s, mem) && SideInv(sys, s, ph) && !s.a.pc.InCall?
    ensures SideDma(sys, PhaseStep(sys, s), mem)
  {
    hide TimeInv, PollOnce, Say, Requests, Completions, ServeRead;
    SayKeepsDma(sys, s, mem, DSync);
    PollKeepsDma(sys, s, mem, ph);
  }

  /** With nothing in flight, a transfer that stands at `pc` may send its next sub-operation or end. */
  lemma ContinueKeepsDma(sys: Sys, s: Side, mem: seq<Byte>, pc: Pc, pick: nat)
    requires sys.maxChunk > 0 && !s.a.flags.fault && Requests(s.tx) == [] && Completions(s.rx) == []
    requires pc.Pump? && pc.off <= XferSize(pc.x)
    requires pc.off < XferSize(pc.x) ==> pc.off == pc.idx * sys.maxChunk
    requires pc.x.RdX? ==> |pc.x.acc| == pc.off
    requires sys.sync ==> s.a.port.now == pc.began + pc.idx * RoundTrip(sys)
    ensures SideDma(sys, Continue(sys, s, pc, pick), mem)
  {
    hide ChunkRequest;
    if pc.off < XferSize(pc.x) {
      var m := Stamped(sys.dev, s.a.port, ChunkRequest(sys, pc.x, pc.off, pick));
      RequestsAppend(s.tx, m);
      ChunkRequestIsRequest(sys, pc.x, pc.off, pick);
      assert Requests(s.tx + [m]) == [m];
    }
  }

  lemma ChunkRequestIsRequest(sys: Sys, x: Xfer, off: nat, pick: nat)
    requires sys.maxChunk > 0 && off <= XferSize(x)
    ensures IsRequest(ChunkRequest(sys, x, off, pick))
  {
  }

  lemma CallKeepsDma(sys: Sys, s: Side, mem: seq<Byte>, pick: nat)
    requires sys.maxChunk > 0 && SideDma(sys, s, mem) && s.a.pc.InCall?
    ensures SideDma(sys, CallStep(sys, s, s.a.pc.job, s.a.pc.told, pick), mem)
  {
    hide Continue, Answer, Located, Requests, Completions;
    var InCall(job, told) := s.a.pc;
    match EntryOf(sys, EventOf(job))
    case None =>
    case Some(e) =>
      match sys.lib.act(s.a.hist.log, e, told)
      case Finish(data) =>
        if job.Mmio? {
          var a := Logged(s.a, Record(e, told, data)).(pc := Idle(Acting));
          AnswerKeepsDma(sys, s.(a := a), mem, job.req, data);
        }
      case DmaRd(addr, len) => ContinueKeepsDma(sys, s, mem, Begin(s.a, job, told, RdX(addr, len, [])), pick);
      case DmaWr(addr, data) => ContinueKeepsDma(sys, s, mem, Begin(s.a, job, told, WrX(addr, data)), pick);
  }

  /** Taking over a finished sub-operation keeps the transfer on track. */
  lemma NextChunkOnTrack(sys: Sys, a: Dev)
    requires sys.maxChunk > 0 && a.pc.Pump? && OnTrack(sys, a.pc, a.slot)
    requires a.pc.x.RdX? ==> |a.slot.buf| == a.slot.len
    ensures var pc := NextChunk(a);
            && pc.off == a.pc.off + a.slot.len && XferSize(pc.x) == XferSize(a.pc.x)
            && (pc.off < XferSize(pc.x) ==> pc.off == pc.idx * sys.maxChunk)
            && (pc.x.RdX? ==> |pc.x.acc| == pc.off)
            && pc.idx * RoundTrip(sys) == a.pc.idx * RoundTrip(sys) + RoundTrip(sys)
  {
  }

  lemma PumpActKeepsDma(sys: Sys, s: Side, mem: seq<Byte>, pick: nat)
    requires sys.maxChunk > 0 && SideDma(sys, s, mem) && s.a.pc.Pump?
    ensures SideDma(sys, PumpAct(sys, s, pick), mem)
  {
    if s.a.slot.done {
      NextChunkOnTrack(sys, s.a);
      hide Continue, NextChunk, Requests, Completions;
      ContinueKeepsDma(sys, s, mem, NextChunk(s.a), pick);
    } else {
      hide Requests, Completions, PumpTarget;
    }
  }

  lemma AStepKeepsDma(sys: Sys, s: Side, mem: seq<Byte>, ph: Port, pick: nat)
    requires sys.psPerClock > 0 && sys.maxChunk > 0 && SideDma(sys, s, mem) && SideInv(sys, s, ph)
    ensures SideDma(sys, AStep(sys, s, pick), mem)
  {
    hide PhaseStep, CallStep, PumpAct, Answer, SideInv, OnTrack, Located, Requests, Completions, Deadline;
    match s.a.pc
    case InCall(job, told) => CallKeepsDma(sys, s, mem, pick);
    case Idle(phase) =>
      if phase.Acting? {
        if s.a.mmioQ != [] {
          AnswerKeepsDma(sys, s.(a := Popped(s.a)), mem, s.a.mmioQ[0], []);
        }
      } else {
        PhaseKeepsDma(sys, s, mem, ph);
      }
    case Pump(_, _, _, _, _, _, phase) =>
      if phase.Acting? {
        PumpActKeepsDma(sys, s, mem, pick);
      } else {
        PhaseKeepsDma(sys, s, mem, ph);
      }
  }

  // ---------------------------------------------------------------------------
  // The host keeps it, and so does every run

  lemma HostSayKeepsDma(sys: Sys, st: St, body: H2D)
    requires sys.maxChunk > 0 && DmaInv(sys, st) && !IsCompletion(body)
    ensures DmaInv(sys, HostSay(sys, st, body))
  {
    hide Dma;
    CompletionsAppend(st.h2d, Stamped(sys.host, st.h.port, body));
    assert Completions(st.h2d) + [] == Completions(st.h2d);
  }

  /** A request the host finds is the one the adapter waits for; serving it turns it into its completion. */
  lemma HostServesDma(sys: Sys, st: St)
    requires sys.maxChunk > 0 && DmaInv(sys, st) && st.d2h != [] && IsRequest(st.d2h[0].body)
    requires sys.sync ==> st.d2h[0].stamp == st.h.port.now
    ensures DmaInv(sys, HostConsume(sys, st.(d2h := st.d2h[1..]), st.d2h[0].body))
  {
    var m := st.d2h[0];
    assert Requests(st.d2h) == [m] + Requests(st.d2h[1..]);
    assert st.a.pc.Pump? && !st.a.slot.done && Completions(st.h2d) == [];
    assert Requests(st.d2h) == [m];
    assert Requests(st.d2h[1..]) == [];
    var pc, slot := st.a.pc, st.a.slot;
    assert m.body == ChunkRequest(sys, pc.x, pc.off, slot.id) && m.stamp == slot.sentAt + sys.dev.latency;
    var st' := HostConsume(sys, st.(d2h := st.d2h[1..]), m.body);
    var c := Stamped(sys.host, st.h.port, Answered(sys, pc.x, pc.off, slot, st.h.mem));
    hide Requests, Completions;
    assert st'.h2d == st.h2d + [c] && st'.d2h == st.d2h[1..] && st'.a == st.a;
    CompletionsAppend(st.h2d, c);
    assert Completions(st'.h2d) == [c];
  }

  lemma HostPollKeepsDma(sys: Sys, st: St)
    requires sys.maxChunk > 0 && DmaInv(sys, st) && Inv(sys, st)
    ensures DmaInv(sys, HostPoll(sys, st))
  {
    var st' := st.(h := st.h.(port := Peeked(st.h.port, st.d2h)));
    if Due(sys.sync, st.h.port, st.d2h) {
      assert sys.sync ==> st.d2h[0].stamp == st.h.port.now;
      if IsRequest(st.d2h[0].body) {
        hide Dma, TimeInv, Requests, Completions, HostConsume;
        assert DmaInv(sys, st');
        HostServesDma(sys, st');
      } else {
        assert Requests(st.d2h) == Requests(st.d2h[1..]);
        hide Dma, TimeInv, Requests, Completions;
      }
    }
  }

  lemma BlindKeepsDma(sys: Sys, st: St)
    requires sys.maxChunk > 0 && DmaInv(sys, st)
    ensures DmaInv(sys, st.(a := PollBlind(st.a)))
  {
    hide Requests, Completions, ServeRead, RoundTrip;
  }

  lemma StepKeepsDma(sys: Sys, st: St, l: Label)
    requires sys.psPerClock > 0 && sys.maxChunk > 0 && DmaInv(sys, st) && Inv(sys, st)
    ensures DmaInv(sys, Step(sys, st, l))
  {
    hide AStep, HostSay, HostPoll, SideInv, Dma, Requests, Completions;
    match l
    case Adapter(pick) => AStepKeepsDma(sys, Side(st.a, st.h2d, st.d2h), st.h.mem, st.h.port, pick);
    case Blind => BlindKeepsDma(sys, st);
    case Peer(HSend) => HostSayKeepsDma(sys, st, HSync);
    case Peer(HPoll) => HostPollKeepsDma(sys, st);
    case Peer(HIssue(r)) => HostSayKeepsDma(sys, st, MmioReq(r));
    case Peer(HAdvance(t)) =>
    case Peer(HCtrl(flags)) => HostSayKeepsDma(sys, st, DevCtrl(flags));
    case Peer(HTerminate) => HostSayKeepsDma(sys, st, Terminate);
  }

  lemma InitDma(sys: Sys, mem: seq<Byte>)
    requires sys.maxChunk > 0
    ensures DmaInv(sys, Init(sys, mem))
  {
    CompletionsAppend([], Init(sys, mem).h2d[0]);
    assert Init(sys, mem).h2d == [] + [Init(sys, mem).h2d[0]];
  }

  lemma {:induction false} RunKeepsDma(sys: Sys, mem: seq<Byte>, labels: seq<Label>)
    requires Valid(sys)
    ensures DmaInv(sys, Run(sys, mem, labels))
  {
    if labels == [] {
      InitDma(sys, mem);
    } else {
      hide Inv, DmaInv;
      RunKeepsDma(sys, mem, labels[..|labels| - 1]);
      RunKeeps(sys, mem, labels[..|labels| - 1]);
      StepKeepsDma(sys, Run(sys, mem, labels[..|labels| - 1]), labels[|labels| - 1]);
    }
  }

  // ---------------------------------------------------------------------------
  // What it means

  /** In every reachable state at most one sub-operation is under way on the two rings; it is the one the
      innermost DMA callback waits for; and no completion ever went to a dead, foreign or finished slot. */
  lemma {:induction false} OneOutstandingDma(sys: Sys, mem: seq<Byte>, labels: seq<Label>)
    requires Valid(sys)
    ensures var st := Run(sys, mem, labels);
            && !st.a.flags.fault
            && |Requests(st.d2h)| + |Completions(st.h2d)| <= 1
            && (Requests(st.d2h) != [] || Completions(st.h2d) != [] ==> st.a.pc.Pump? && !st.a.slot.done)
            && (st.a.pc.Pump? && !st.a.slot.done ==>
                  if Requests(st.d2h) != []
                  then Requests(st.d2h)[0].body ==
                       ChunkRequest(sys, st.a.pc.x, Earlier(st.a.pc.off, XferSize(st.a.pc.x)), st.a.slot.id)
                  else Completions(st.h2d) != [] &&
                       Completions(st.h2d)[0].body == Answered(sys, st.a.pc.x, st.a.pc.off, st.a.slot, st.h.mem))
  {
    RunKeepsDma(sys, mem, labels);
    hide Run;
  }

  /** While the pump waits, the adapter enters libttsim for nothing else, answers no MMIO, and only ever
      appends to the MMIO queue. */
  lemma PumpOnlyAppends(sys: Sys, s: Side, pick: nat)
    requires sys.psPerClock > 0 && sys.maxChunk > 0 && s.a.pc.Pump?
    ensures var s' := AStep(sys, s, pick);
            && s.a.mmioQ <= s'.a.mmioQ
            && s'.a.hist.events == s.a.hist.events && s'.a.hist.log == s.a.hist.log
            && s'.a.hist.replies == s.a.hist.replies
            && (s'.a.pc.Pump? || s'.a.pc.InCall?) && s'.a.pc.job == s.a.pc.job
            && s.a.pc.told <= s'.a.pc.told
  {
    hide Deadline, ChunkRequest, Filled, Peeked;
  }

  /** A transfer ends exactly when all its bytes have been moved, and in a synchronized run it then has taken
      exactly one round trip per sub-operation. */
  lemma {:induction false} TransferTakesItsRoundTrips(sys: Sys, mem: seq<Byte>, labels: seq<Label>, pick: nat)
    requires Valid(sys)
    requires Run(sys, mem, labels).a.pc.Pump?
    requires Step(sys, Run(sys, mem, labels), Adapter(pick)).a.pc.InCall?
    ensures var st := Run(sys, mem, labels);
            var n := Chunks(sys.maxChunk, XferSize(st.a.pc.x));
            && st.a.pc.idx + 1 == n
            && (sys.sync ==> st.a.port.now == st.a.pc.began + n * RoundTrip(sys))
            && Step(sys, st, Adapter(pick)).a.port.now == st.a.port.now
  {
    RunKeepsDma(sys, mem, labels);
    var st := Run(sys, mem, labels);
    hide *;
    EndOfTransfer(sys, st, pick);
  }

  lemma EndOfTransfer(sys: Sys, st: St, pick: nat)
    requires sys.psPerClock > 0 && sys.maxChunk > 0 && DmaInv(sys, st) && st.a.pc.Pump?
    requires Step(sys, st, Adapter(pick)).a.pc.InCall?
    ensures var n := Chunks(sys.maxChunk, XferSize(st.a.pc.x));
            && st.a.pc.idx + 1 == n
            && (sys.sync ==> st.a.port.now == st.a.pc.began + n * RoundTrip(sys))
            && Step(sys, st, Adapter(pick)).a.port.now == st.a.port.now
  {
    hide Deadline, ChunkRequest, Filled, Peeked, Requests, Completions, Chunks, RoundTrip, ServeRead;
    assert st.a.slot.done && NextChunk(st.a).off == XferSize(NextChunk(st.a).x);
    NextChunkOnTrack(sys, st.a);
    LastChunk(sys.maxChunk, XferSize(st.a.pc.x), st.a.pc.idx);
  }

  lemma LastChunk(maxChunk: nat, size: nat, idx: nat)
    requires maxChunk > 0 && idx * maxChunk < size
    requires idx * maxChunk + ChunkLen(maxChunk, size, idx * maxChunk) == size
    ensures Chunks(maxChunk, size) == idx + 1
  {
    var r := size - idx * maxChunk;
    assert size + maxChunk - 1 == (idx + 1) * maxChunk + (r - 1);
    assert r >= 1;
    DivisionIsUnique(size + maxChunk - 1, maxChunk, idx + 1, r - 1);
  }
}
