/** Transparency: the asynchronous, chunked, re-entrant system cannot be told from a sequential machine in
    which every request and every clock batch is atomic and DMA acts on memory at once. */
module Transparency {
  import opened Link
  import opened HostMemory
  import opened Device
  import opened System
  import opened Timing
  import opened DmaSafety

  /** Memory once the part of a write that has not reached the host yet is done. */
  function Landed(sys: Sys, pc: Pc, slot: Slot, pending: bool, mem: seq<Byte>): seq<Byte>
    requires sys.maxChunk > 0 && pc.Pump? && pc.off <= XferSize(pc.x)
  {
    if pc.x.RdX? then mem
    else if pending then WriteFrom(mem, sys.maxChunk, pc.x.addr, pc.x.data, pc.off)
    else WriteFrom(mem, sys.maxChunk, pc.x.addr, pc.x.data, Earlier(pc.off + slot.len, |pc.x.data|))
  }

  /** What the transfer will tell libttsim. */
  function WillTell(sys: Sys, pc: Pc, mem: seq<Byte>): seq<Byte>
    requires sys.maxChunk > 0 && pc.Pump? && pc.off <= XferSize(pc.x)
  {
    if pc.x.RdX? then pc.x.acc + ReadFrom(mem, sys.maxChunk, pc.x.addr, pc.x.size, pc.off) else []
  }

  /** The state that the sequential machine is in, or will be in once the call in progress has returned. */
  ghost function Outcome(sys: Sys, pc: Pc, slot: Slot, log: seq<Record>, replies: seq<Reply>, pending: bool,
                         mem: seq<Byte>): SeqState
    requires Valid(sys) && (pc.Pump? ==> pc.off <= XferSize(pc.x))
    requires pc.Idle? || EntryOf(sys, EventOf(pc.job)).Some?
  {
    match pc
    case Idle(_) => SeqState(log, mem, replies)
    case InCall(job, told) =>
      var e := EntryOf(sys, EventOf(job)).value;
      Returned(log, replies, EventOf(job), e, CallFrom(sys, log, e, told, mem))
    case Pump(job, told, _, _, _, _, _) =>
      var e := EntryOf(sys, EventOf(job)).value;
      Returned(log, replies, EventOf(job), e,
               CallFrom(sys, log, e, told + [WillTell(sys, pc, mem)], Landed(sys, pc, slot, pending, mem)))
  }

  /** What the adapter has done so far is what the sequential machine does with the same events. */
  ghost predicate Transparent(sys: Sys, s: Side, mem: seq<Byte>, mem0: seq<Byte>)
    requires Valid(sys)
  {
    var pc := s.a.pc;
    && (pc.Pump? ==> pc.off < XferSize(pc.x))
    && (!pc.Idle? ==> EntryOf(sys, EventOf(pc.job)).Some? && s.a.hist.events != [] &&
                      s.a.hist.events[|s.a.hist.events| - 1] == EventOf(pc.job))
    && SeqRun(sys, mem0, s.a.hist.events) ==
       Outcome(sys, pc, s.a.slot, s.a.hist.log, s.a.hist.replies, Requests(s.tx) != [], mem)
  }

  // ---------------------------------------------------------------------------
  // The adapter keeps it

  lemma SayKeepsT(sys: Sys, s: Side, mem: seq<Byte>, mem0: seq<Byte>, body: D2H)
    requires Valid(sys) && Transparent(sys, s, mem, mem0) && !IsRequest(body)
    ensures Transparent(sys, Say(sys, s, body), mem, mem0)
  {
    hide SeqRun, Outcome, Requests;
    RequestsAppend(s.tx, Stamped(sys.dev, s.a.port, body));
    assert Requests(s.tx) + [] == Requests(s.tx);
  }

  /** Answering a request turns the replies of the idle adapter into those of the sequential machine. */
  lemma AnswerIs(sys: Sys, s: Side, r: Req, data: seq<Byte>)
    ensures var s' := Answer(sys, s, r, data);
            && s'.a == s.a.(hist := s.a.hist.(replies := s.a.hist.replies + RepliesTo(r, data)), port := s'.a.port)
            && Requests(s'.tx) == Requests(s.tx)
            && s'.rx == s.rx
  {
    hide Requests;
    var rs := RepliesTo(r, data);
    assert s.a.hist.replies + [] == s.a.hist.replies;
    if rs != [] {
      RequestsAppend(s.tx, Stamped(sys.dev, s.a.port, DReply(rs[0])));
      assert Requests(s.tx) + [] == Requests(s.tx);
    }
  }

  lemma SeqRunAppend(sys: Sys, mem0: seq<Byte>, evs: seq<Event>, ev: Event)
    requires Valid(sys)
    ensures SeqRun(sys, mem0, evs + [ev]) == SeqStep(sys, SeqRun(sys, mem0, evs), ev)
  {
    assert (evs + [ev])[..|evs|] == evs;
  }

  lemma BeginMmioKeepsT(sys: Sys, s: Side, mem: seq<Byte>, mem0: seq<Byte>)
    requires Valid(sys) && Transparent(sys, s, mem, mem0) && s.a.pc.Idle? && s.a.mmioQ != []
    ensures Transparent(sys, BeginMmio(sys, s), mem, mem0)
  {
    hide SeqRun, Requests, CallFrom;
    var r := s.a.mmioQ[0];
    SeqRunAppend(sys, mem0, s.a.hist.events, Serve(r));
    AnswerIs(sys, s.(a := Popped(s.a)), r, []);
  }

  lemma BeginClocksKeepsT(sys: Sys, s: Side, mem: seq<Byte>, mem0: seq<Byte>)
    requires Valid(sys) && Transparent(sys, s, mem, mem0) && s.a.pc.Idle?
    ensures Transparent(sys, s.(a := BeginClocks(sys, s.a)), mem, mem0)
  {
    hide SeqRun, Requests, CallFrom, Deadline;
    if !sys.sync {
      SeqRunAppend(sys, mem0, s.a.hist.events, Tick(Capped(sys.batch)));
    } else if Deadline(sys.dev, s.a.port) > s.a.port.now {
      SeqRunAppend(sys, mem0, s.a.hist.events,
                   Tick(Capped((Deadline(sys.dev, s.a.port) - s.a.port.now) / sys.psPerClock)));
    }
  }

  /** With nothing in flight, sending the next sub-operation, or ending the transfer, leaves the outcome of
      the call as it is. */
  lemma ContinueKeepsT(sys: Sys, s: Side, mem: seq<Byte>, mem0: seq<Byte>, pc: Pc, pick: nat)
    requires Valid(sys) && Requests(s.tx) == []
    requires pc.Pump? && pc.off <= XferSize(pc.x)
    requires EntryOf(sys, EventOf(pc.job)).Some? && s.a.hist.events != []
    requires s.a.hist.events[|s.a.hist.events| - 1] == EventOf(pc.job)
    requires SeqRun(sys, mem0, s.a.hist.events) ==
             Outcome(sys, pc, s.a.slot, s.a.hist.log, s.a.hist.replies, true, mem)
    ensures Transparent(sys, Continue(sys, s, pc, pick), mem, mem0)
  {
    hide SeqRun, CallFrom, ChunkRequest;
    if pc.off < XferSize(pc.x) {
      var m := Stamped(sys.dev, s.a.port, ChunkRequest(sys, pc.x, pc.off, pick));
      RequestsAppend(s.tx, m);
      ChunkRequestIsRequest(sys, pc.x, pc.off, pick);
      hide Requests, ReadFrom, WriteFrom;
    } else {
      hide Requests;
      assert WillTell(sys, pc, mem) == if pc.x.RdX? then pc.x.acc else [];
    }
  }

  lemma CallKeepsT(sys: Sys, s: Side, mem: seq<Byte>, mem0: seq<Byte>, pick: nat)
    requires Valid(sys) && Transparent(sys, s, mem, mem0) && SideDma(sys, s, mem) && s.a.pc.InCall?
    ensures Transparent(sys, CallStep(sys, s, s.a.pc.job, s.a.pc.told, pick), mem, mem0)
  {
    hide SeqRun, Continue, Answer, Requests, Completions, ReadFrom, WriteFrom;
    var InCall(job, told) := s.a.pc;
    var e := EntryOf(sys, EventOf(job)).value;
    match sys.lib.act(s.a.hist.log, e, told)
    case Finish(data) =>
      if job.Mmio? {
        AnswerIs(sys, s.(a := Logged(s.a, Record(e, told, data)).(pc := Idle(Acting))), job.req, data);
      } else {
        assert s.a.hist.replies + [] == s.a.hist.replies;
      }
    case DmaRd(addr, len) =>
      var pc := Begin(s.a, job, told, RdX(addr, len, []));
      assert WillTell(sys, pc, mem) == ReadFrom(mem, sys.maxChunk, addr, len, 0);
      ContinueKeepsT(sys, s, mem, mem0, pc, pick);
    case DmaWr(addr, data) =>
      var pc := Begin(s.a, job, told, WrX(addr, data));
      ContinueKeepsT(sys, s, mem, mem0, pc, pick);
  }

  lemma PumpActKeepsT(sys: Sys, s: Side, mem: seq<Byte>, mem0: seq<Byte>, pick: nat)
    requires Valid(sys) && Transparent(sys, s, mem, mem0) && SideDma(sys, s, mem) && s.a.pc.Pump?
    ensures Transparent(sys, PumpAct(sys, s, pick), mem, mem0)
  {
    hide SeqRun, CallFrom, Continue, Requests, Completions, PumpTarget, ServeRead, ReadFrom, WriteFrom, RoundTrip;
    if s.a.slot.done {
      ChunkDone(sys, s.a, mem);
      hide WillTell, Landed;
      NextChunkOnTrack(sys, s.a);
      ContinueKeepsT(sys, s, mem, mem0, NextChunk(s.a), pick);
    }
  }

  /** A finished sub-operation taken over leaves the rest of the transfer with the same result. */
  lemma ChunkDone(sys: Sys, a: Dev, mem: seq<Byte>)
    requires sys.maxChunk > 0 && a.pc.Pump? && OnTrack(sys, a.pc, a.slot)
    requires a.slot.buf == if a.pc.x.RdX? then ServeRead(mem, Addr(a.pc.x.addr, a.pc.off), a.slot.len) else []
    ensures WillTell(sys, NextChunk(a), mem) == WillTell(sys, a.pc, mem)
    ensures Landed(sys, NextChunk(a), a.slot, true, mem) == Landed(sys, a.pc, a.slot, false, mem)
  {
    hide ServeRead, RoundTrip;
    NextChunkOnTrack(sys, a);
  }

  lemma PollKeepsT(sys: Sys, s: Side, mem: seq<Byte>, mem0: seq<Byte>)
    requires Valid(sys) && Transparent(sys, s, mem, mem0) && SideDma(sys, s, mem)
    ensures Transparent(sys, PollOnce(sys, s).0, mem, mem0)
    ensures PollOnce(sys, s).0.a.pc == s.a.pc
  {
    hide SeqRun, CallFrom, ReadFrom, WriteFrom, Requests, Completions, Peeked, Dma;
  }

  lemma PhaseKeepsT(sys: Sys, s: Side, mem: seq<Byte>, mem0: seq<Byte>)
    requires Valid(sys) && Transparent(sys, s, mem, mem0) && SideDma(sys, s, mem) && !s.a.pc.InCall?
    ensures Transparent(sys, PhaseStep(sys, s), mem, mem0)
  {
    hide SeqRun, CallFrom, ReadFrom, WriteFrom, Requests, Completions, PollOnce, Say, Located;
    SayKeepsT(sys, s, mem, mem0, DSync);
    PollKeepsT(sys, s, mem, mem0);
  }

  lemma AStepKeepsT(sys: Sys, s: Side, mem: seq<Byte>, mem0: seq<Byte>, pick: nat)
    requires Valid(sys) && Transparent(sys, s, mem, mem0) && SideDma(sys, s, mem)
    ensures Transparent(sys, AStep(sys, s, pick), mem, mem0)
  {
    hide Outcome, SeqRun, PhaseStep, CallStep, PumpAct, BeginMmio, BeginClocks, Requests, Completions, Dma;
    match s.a.pc
    case InCall(job, told) => CallKeepsT(sys, s, mem, mem0, pick);
    case Idle(phase) =>
      if !phase.Acting? {
        PhaseKeepsT(sys, s, mem, mem0);
      } else if s.a.mmioQ != [] {
        BeginMmioKeepsT(sys, s, mem, mem0);
      } else {
        BeginClocksKeepsT(sys, s, mem, mem0);
      }
    case Pump(_, _, _, _, _, _, phase) =>
      if phase.Acting? {
        PumpActKeepsT(sys, s, mem, mem0, pick);
      } else {
        PhaseKeepsT(sys, s, mem, mem0);
      }
  }

  // ---------------------------------------------------------------------------
  // The host keeps it, and so does every run

  ghost predicate TransparentSt(sys: Sys, st: St, mem0: seq<Byte>)
    requires Valid(sys)
  {
    Transparent(sys, Side(st.a, st.h2d, st.d2h), st.h.mem, mem0)
  }

  /** What serving the sub-operation at `pc` leaves in memory. */
  function Served(sys: Sys, pc: Pc, mem: seq<Byte>): seq<Byte>
    requires sys.maxChunk > 0 && pc.Pump? && pc.off <= XferSize(pc.x)
  {
    if pc.x.RdX? then mem
    else ServeWrite(mem, Addr(pc.x.addr, pc.off),
                    pc.x.data[pc.off..pc.off + ChunkLen(sys.maxChunk, XferSize(pc.x), pc.off)])
  }

  /** Serving the sub-operation in flight moves its effect from the future into memory. */
  lemma ServingLands(sys: Sys, pc: Pc, slot: Slot, mem: seq<Byte>)
    requires sys.maxChunk > 0 && pc.Pump? && OnTrack(sys, pc, slot)
    ensures Landed(sys, pc, slot, false, Served(sys, pc, mem)) == Landed(sys, pc, slot, true, mem)
    ensures WillTell(sys, pc, Served(sys, pc, mem)) == WillTell(sys, pc, mem)
  {
    hide ServeWrite, ReadFrom, RoundTrip;
  }

  lemma {:induction false} HostServesT(sys: Sys, st: St, mem0: seq<Byte>)
    requires Valid(sys) && TransparentSt(sys, st, mem0) && DmaInv(sys, st)
    requires st.d2h != [] && IsRequest(st.d2h[0].body)
    ensures TransparentSt(sys, HostConsume(sys, st.(d2h := st.d2h[1..]), st.d2h[0].body), mem0)
  {
    var m := st.d2h[0];
    var pc, slot := st.a.pc, st.a.slot;
    var st' := HostConsume(sys, st.(d2h := st.d2h[1..]), m.body);
    assert Requests(st.d2h) == [m] && Requests(st.d2h[1..]) == [] by {
      assert Requests(st.d2h) == [m] + Requests(st.d2h[1..]);
      hide Requests;
    }
    assert st'.h.mem == Served(sys, pc, st.h.mem) && st'.a == st.a && st'.d2h == st.d2h[1..] by {
      hide Requests, ServeWrite, ServeRead, SeqRun, Outcome;
      assert m.body == ChunkRequest(sys, pc.x, pc.off, slot.id);
    }
    hide HostConsume, Requests, SeqRun, CallFrom, Landed, WillTell, Served, Completions;
    ServingLands(sys, pc, slot, st.h.mem);
  }

  lemma HostPollKeepsT(sys: Sys, st: St, mem0: seq<Byte>)
    requires Valid(sys) && TransparentSt(sys, st, mem0) && DmaInv(sys, st)
    ensures TransparentSt(sys, HostPoll(sys, st), mem0)
  {
    if Due(sys.sync, st.h.port, st.d2h) {
      if IsRequest(st.d2h[0].body) {
        hide SeqRun, Outcome, Requests, Completions, Peeked, Dma, HostConsume;
        HostServesT(sys, st.(h := st.h.(port := Peeked(st.h.port, st.d2h))), mem0);
      } else {
        assert Requests(st.d2h) == Requests(st.d2h[1..]);
        hide SeqRun, Outcome, Requests, Completions, Peeked, Dma;
      }
    }
  }

  lemma BlindKeepsT(sys: Sys, st: St, mem0: seq<Byte>)
    requires Valid(sys) && TransparentSt(sys, st, mem0)
    ensures TransparentSt(sys, st.(a := PollBlind(st.a)), mem0)
  {
    hide SeqRun, CallFrom, ReadFrom, WriteFrom, Requests;
  }

  lemma StepKeepsT(sys: Sys, st: St, l: Label, mem0: seq<Byte>)
    requires Valid(sys) && TransparentSt(sys, st, mem0) && DmaInv(sys, st)
    ensures TransparentSt(sys, Step(sys, st, l), mem0)
  {
    hide AStep, HostPoll, SeqRun, Outcome, Requests, Completions, Dma;
    match l
    case Adapter(pick) => AStepKeepsT(sys, Side(st.a, st.h2d, st.d2h), st.h.mem, mem0, pick);
    case Blind => BlindKeepsT(sys, st, mem0);
    case Peer(HPoll) => HostPollKeepsT(sys, st, mem0);
    case Peer(_) =>
  }

  lemma {:induction false} RunKeepsT(sys: Sys, mem0: seq<Byte>, labels: seq<Label>)
    requires Valid(sys)
    ensures TransparentSt(sys, Run(sys, mem0, labels), mem0)
  {
    if labels == [] {
    } else {
      hide TransparentSt, DmaInv;
      RunKeepsT(sys, mem0, labels[..|labels| - 1]);
      RunKeepsDma(sys, mem0, labels[..|labels| - 1]);
      StepKeepsT(sys, Run(sys, mem0, labels[..|labels| - 1]), labels[|labels| - 1], mem0);
    }
  }

  /** Transparency. Whenever the adapter is in its main loop, the library's completed calls (entries, what DMA
      told them and what they returned), host memory and the MMIO completions sent are those of the sequential
      machine for the same events. Within a call they are what that machine has before the call, and the call
      in progress can only end the way it ends there. */
  lemma {:induction false} LooksSequential(sys: Sys, mem0: seq<Byte>, labels: seq<Label>)
    requires Valid(sys)
    ensures var st := Run(sys, mem0, labels);
            var evs := st.a.hist.events;
            if st.a.pc.Idle? then
              SeqRun(sys, mem0, evs) == SeqState(st.a.hist.log, st.h.mem, st.a.hist.replies)
            else
              && evs != []
              && (SeqRun(sys, mem0, evs[..|evs| - 1]).log, SeqRun(sys, mem0, evs[..|evs| - 1]).replies) ==
                 (st.a.hist.log, st.a.hist.replies)
  {
    RunKeepsT(sys, mem0, labels);
    var st := Run(sys, mem0, labels);
    hide Run, CallFrom, WillTell, Landed, Requests, Translate, RepliesTo;
    if !st.a.pc.Idle? {
      var evs := st.a.hist.events;
      var before := SeqRun(sys, mem0, evs[..|evs| - 1]);
      var after := SeqRun(sys, mem0, evs);
      hide SeqRun;
      assert after == SeqStep(sys, before, EventOf(st.a.pc.job)) by { SeqRunSplit(sys, mem0, evs); }
      Cancel(before.log, [after.log[|after.log| - 1]], st.a.hist.log, [after.log[|after.log| - 1]]);
      var rs := EventReplies(EventOf(st.a.pc.job), after.log[|after.log| - 1].data);
      Cancel(before.replies, rs, st.a.hist.replies, rs);
    }
  }

  lemma SeqRunSplit(sys: Sys, mem0: seq<Byte>, evs: seq<Event>)
    requires Valid(sys) && evs != []
    ensures SeqRun(sys, mem0, evs) == SeqStep(sys, SeqRun(sys, mem0, evs[..|evs| - 1]), evs[|evs| - 1])
  {
  }

  lemma Cancel<T>(a: seq<T>, x: seq<T>, b: seq<T>, y: seq<T>)
    requires a + x == b + y && |x| == |y|
    ensures a == b && x == y
  {
    assert a == (a + x)[..|a|] && b == (b + y)[..|b|];
    assert x == (a + x)[|a|..] && y == (b + y)[|b|..];
  }
}
