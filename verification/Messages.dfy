/** What the messages that the adapter has taken off the ring have done to it, over whole runs. */
module Messages {
  import opened Link
  import opened HostMemory
  import opened Device
  import opened System
  import opened Timing
  import opened DmaSafety

  /** The messages that the adapter has taken off its ring in the course of a run. */
  function Taken(sys: Sys, mem: seq<Byte>, labels: seq<Label>): seq<H2D>
    requires sys.psPerClock > 0 && sys.maxChunk > 0
  {
    if labels == [] then []
    else
      var before := labels[..|labels| - 1];
      Taken(sys, mem, before) + TakenBy(Run(sys, mem, before), labels[|labels| - 1], Run(sys, mem, labels))
  }

  /** What one step took: the head of the ring, if the ring is shorter after a step of the adapter. */
  function TakenBy(st: St, l: Label, st': St): seq<H2D> {
    if l.Adapter? && |st'.h2d| < |st.h2d| then [st.h2d[0].body] else []
  }

  function Bodies(q: seq<Msg<H2D>>): seq<H2D> {
    seq(|q|, i requires 0 <= i < |q| => q[i].body)
  }

  // ---------------------------------------------------------------------------
  // What a sequence of messages amounts to

  function ReadsDone(ts: seq<H2D>): nat {
    if ts == [] then 0 else ReadsDone(ts[..|ts| - 1]) + if ts[|ts| - 1].ReadComp? then 1 else 0
  }

  function WritesDone(ts: seq<H2D>): nat {
    if ts == [] then 0 else WritesDone(ts[..|ts| - 1]) + if ts[|ts| - 1].WriteComp? then 1 else 0
  }

  function RequestsIn(ts: seq<H2D>): seq<Req> {
    if ts == [] then [] else RequestsIn(ts[..|ts| - 1]) + if ts[|ts| - 1].MmioReq? then [ts[|ts| - 1].req] else []
  }

  function LastCtrl(ts: seq<H2D>): nat {
    if ts == [] then 0
    else if ts[|ts| - 1].DevCtrl? then ts[|ts| - 1].flags else LastCtrl(ts[..|ts| - 1])
  }

  predicate TooLong(body: H2D) {
    body.MmioReq? && !body.req.isRead && body.req.len > 64
  }

  /** What the adapter has made of the messages `ts`. */
  ghost predicate Effect(a: Dev, ts: seq<H2D>) {
    && (a.flags.exiting <==> Terminate in ts)
    && a.flags.devctrl == LastCtrl(ts)
    && a.hist.arrived == RequestsIn(ts)
    && a.stats.dmaReads == ReadsDone(ts) && a.stats.dmaWrites == WritesDone(ts)
    && forall i :: 0 <= i < |ts| ==> !TooLong(ts[i])
  }

  lemma OneMore(ts: seq<H2D>, body: H2D)
    ensures ReadsDone(ts + [body]) == ReadsDone(ts) + if body.ReadComp? then 1 else 0
    ensures WritesDone(ts + [body]) == WritesDone(ts) + if body.WriteComp? then 1 else 0
    ensures RequestsIn(ts + [body]) == RequestsIn(ts) + if body.MmioReq? then [body.req] else []
    ensures LastCtrl(ts + [body]) == if body.DevCtrl? then body.flags else LastCtrl(ts)
    ensures Terminate in ts + [body] <==> Terminate in ts || body.Terminate?
  {
    assert (ts + [body])[..|ts|] == ts;
  }

  /** What of the adapter only messages change. */
  predicate SameMail(a: Dev, b: Dev) {
    && a.flags.exiting == b.flags.exiting && a.flags.devctrl == b.flags.devctrl
    && a.hist.arrived == b.hist.arrived
    && a.stats.dmaReads == b.stats.dmaReads && a.stats.dmaWrites == b.stats.dmaWrites
  }

  lemma ConsumeHasEffect(a: Dev, body: H2D, ts: seq<H2D>)
    requires Effect(a, ts) && !TooLong(body) && !Consume(a, body).flags.fault
    ensures Effect(Consume(a, body), ts + [body])
  {
    OneMore(ts, body);
    hide ReadsDone, WritesDone, RequestsIn, LastCtrl;
    assert RequestsIn(ts) + [] == RequestsIn(ts);
  }

  lemma AnswerKeepsMail(sys: Sys, s: Side, r: Req, data: seq<Byte>)
    ensures SameMail(s.a, Answer(sys, s, r, data).a) && Answer(sys, s, r, data).rx == s.rx
  {
    hide RepliesTo;
  }

  lemma ContinueKeepsMail(sys: Sys, s: Side, pc: Pc, pick: nat)
    requires sys.maxChunk > 0 && pc.Pump? && pc.off <= XferSize(pc.x)
    ensures SameMail(s.a, Continue(sys, s, pc, pick).a) && Continue(sys, s, pc, pick).rx == s.rx
  {
    hide ChunkRequest;
  }

  lemma CallKeepsMail(sys: Sys, s: Side, job: Job, told: seq<seq<Byte>>, pick: nat)
    requires sys.maxChunk > 0
    ensures SameMail(s.a, CallStep(sys, s, job, told, pick).a) && CallStep(sys, s, job, told, pick).rx == s.rx
  {
    hide Answer, Continue;
    match EntryOf(sys, EventOf(job))
    case None =>
    case Some(e) =>
      match sys.lib.act(s.a.hist.log, e, told)
      case Finish(data) =>
        if job.Mmio? {
          AnswerKeepsMail(sys, s.(a := Logged(s.a, Record(e, told, data)).(pc := Idle(Acting))), job.req, data);
        }
      case DmaRd(addr, len) => ContinueKeepsMail(sys, s, Begin(s.a, job, told, RdX(addr, len, [])), pick);
      case DmaWr(addr, data) => ContinueKeepsMail(sys, s, Begin(s.a, job, told, WrX(addr, data)), pick);
  }

  /** A step that takes a message off the ring takes its head and does to the adapter what `Effect` says. */
  lemma PhaseHasEffect(sys: Sys, s: Side, ts: seq<H2D>)
    requires !s.a.pc.InCall? && Effect(s.a, ts) && !PhaseStep(sys, s).a.flags.fault
    ensures var s' := PhaseStep(sys, s);
            if |s'.rx| < |s.rx| then s'.rx == s.rx[1..] && Effect(s'.a, ts + [s.rx[0].body])
            else s'.rx == s.rx && Effect(s'.a, ts)
  {
    hide Consume, ReadsDone, WritesDone, RequestsIn, LastCtrl, Peeked;
    if Due(sys.sync, s.a.port, s.rx) && !Oversized(s.rx[0].body) && !s.a.pc.phase.Syncing? {
      ConsumeHasEffect(s.a.(port := Peeked(s.a.port, s.rx)), s.rx[0].body, ts);
    }
  }

  lemma AStepHasEffect(sys: Sys, s: Side, ts: seq<H2D>, pick: nat)
    requires sys.psPerClock > 0 && sys.maxChunk > 0 && Effect(s.a, ts) && !AStep(sys, s, pick).a.flags.fault
    ensures var s' := AStep(sys, s, pick);
            if |s'.rx| < |s.rx| then s'.rx == s.rx[1..] && Effect(s'.a, ts + [s.rx[0].body])
            else s'.rx == s.rx && Effect(s'.a, ts)
  {
    hide PhaseStep, CallStep, Answer, Continue, ReadsDone, WritesDone, RequestsIn, LastCtrl, Deadline;
    match s.a.pc
    case InCall(job, told) => CallKeepsMail(sys, s, job, told, pick);
    case Idle(phase) =>
      if !phase.Acting? && AStep(sys, s, pick) == PhaseStep(sys, s) {
        PhaseHasEffect(sys, s, ts);
      } else if s.a.mmioQ != [] {
        AnswerKeepsMail(sys, s.(a := Popped(s.a)), s.a.mmioQ[0], []);
      }
    case Pump(_, _, _, _, _, _, phase) =>
      if !phase.Acting? && AStep(sys, s, pick) == PhaseStep(sys, s) {
        PhaseHasEffect(sys, s, ts);
      } else if s.a.slot.done {
        ContinueKeepsMail(sys, s, NextChunk(s.a), pick);
      }
  }

  lemma HostOnlyAppends(sys: Sys, st: St, move: HostMove)
    ensures var st' := HostStep(sys, st, move);
            && st'.a == st.a
            && |st.h2d| <= |st'.h2d| && st'.h2d[..|st.h2d|] == st.h2d
            && (Terminate in Bodies(st'.h2d) <==> Terminate in Bodies(st.h2d) || move.HTerminate?)
  {
    hide ServeRead, ServeWrite, Deadline, WellFormed;
    forall m: Msg<H2D>
      ensures (st.h2d + [m])[..|st.h2d|] == st.h2d
      ensures Terminate in Bodies(st.h2d + [m]) <==> Terminate in Bodies(st.h2d) || m.body.Terminate?
    {
      assert Bodies(st.h2d + [m]) == Bodies(st.h2d) + [m.body];
    }
  }

  /** Messages take effect. In every reachable state the adapter is told to exit if and only if it has taken a
      terminate message; the device-control flags are those of the last such message it took; the requests that
      have arrived are those it took, in order; the DMA counters count the completions it took by kind; and it has
      taken no write longer than its buffer. No terminate message is lost on the way. */
  lemma {:induction false} MessagesTakeEffect(sys: Sys, mem: seq<Byte>, labels: seq<Label>)
    requires Valid(sys)
    ensures var st, ts := Run(sys, mem, labels), Taken(sys, mem, labels);
            && Effect(st.a, ts)
            && (Peer(HTerminate) in labels <==> Terminate in ts || Terminate in Bodies(st.h2d))
  {
    hide AStep, HostStep, Effect, Bodies, PollBlind, TakenBy;
    if labels == [] {
      NothingTaken(sys, mem);
    } else {
      var before, l := labels[..|labels| - 1], labels[|labels| - 1];
      MessagesTakeEffect(sys, mem, before);
      assert labels == before + [l];
      RunKeepsDma(sys, mem, labels);
      StepHasEffect(sys, Run(sys, mem, before), Taken(sys, mem, before), l);
    }
  }

  lemma NothingTaken(sys: Sys, mem: seq<Byte>)
    requires sys.psPerClock > 0 && sys.maxChunk > 0
    ensures Effect(Init(sys, mem).a, []) && Terminate !in Bodies(Init(sys, mem).h2d)
  {
  }

  lemma StepHasEffect(sys: Sys, st: St, ts: seq<H2D>, l: Label)
    requires sys.psPerClock > 0 && sys.maxChunk > 0 && Effect(st.a, ts) && !Step(sys, st, l).a.flags.fault
    ensures var st', ts' := Step(sys, st, l), ts + TakenBy(st, l, Step(sys, st, l));
            && Effect(st'.a, ts')
            && (Terminate in ts' || Terminate in Bodies(st'.h2d) <==>
                  Terminate in ts || Terminate in Bodies(st.h2d) || l == Peer(HTerminate))
  {
    hide AStep, HostStep, ReadsDone, WritesDone, RequestsIn, LastCtrl;
    assert ts + [] == ts;
    match l
    case Adapter(pick) =>
      AStepHasEffect(sys, Side(st.a, st.h2d, st.d2h), ts, pick);
      if st.h2d != [] {
        assert Bodies(st.h2d) == [st.h2d[0].body] + Bodies(st.h2d[1..]);
      }
    case Blind =>
    case Peer(move) => HostOnlyAppends(sys, st, move);
  }
}
