/** What a terminate message comes to: the iteration in progress is the last, and the adapter halts. */
module Halting {
  import opened Link
  import opened HostMemory
  import opened Device
  import opened System
  import opened Timing
  import opened DmaSafety
  import opened Transparency
  import opened Returning
  import opened Messages

  // ---------------------------------------------------------------------------
  // Nothing new is begun

  /** Whether the iteration in progress may still begin a clock batch. */
  function BatchesLeft(a: Dev): nat {
    match a.pc
    case Idle(phase) => if phase.Syncing? then 0 else 1
    case InCall(job, _) => if job.Mmio? then 1 else 0
    case Pump(job, _, _, _, _, _, _) => if job.Mmio? then 1 else 0
  }

  /** Since it was told to exit with `evs0` begun, the adapter has only served requests and, as the last thing,
      perhaps begun one clock batch; nothing at all if the iteration had no batch left. */
  ghost predicate WindsDown(evs0: seq<Event>, left0: nat, a: Dev) {
    var evs := a.hist.events;
    && a.flags.exiting && evs0 <= evs && BatchesLeft(a) <= left0
    && (forall i :: |evs0| <= i < |evs| - 1 ==> evs[i].Serve?)
    && (|evs| > |evs0| && evs[|evs| - 1].Tick? ==> BatchesLeft(a) == 0)
    && (left0 == 0 ==> evs == evs0)
  }

  /** What a step of an exiting adapter does: it leaves the events alone, or begins something in the part of the
      iteration that is left. */
  lemma ExitingStep(sys: Sys, s: Side, pick: nat)
    requires sys.psPerClock > 0 && sys.maxChunk > 0 && s.a.flags.exiting
    ensures var a' := AStep(sys, s, pick).a;
            && a'.flags.exiting && BatchesLeft(a') <= BatchesLeft(s.a)
            && (a'.hist.events == s.a.hist.events ||
                (BatchesLeft(s.a) == 1 && exists ev :: a'.hist.events == s.a.hist.events + [ev] &&
                                                       (ev.Tick? ==> BatchesLeft(a') == 0)))
  {
    hide Deadline, ChunkRequest, RepliesTo, Translate, Peeked, Filled, PumpTarget, Capped;
    match s.a.pc
    case InCall(job, told) =>
      hide Continue, Answer;
      ExitingCall(sys, s, job, told, pick);
    case Idle(phase) =>
      if phase.Acting? && s.a.mmioQ != [] {
        assert Popped(s.a).hist.events == s.a.hist.events + [Serve(s.a.mmioQ[0])];
      }
    case Pump(_, _, _, _, _, _, _) =>
  }

  lemma ExitingCall(sys: Sys, s: Side, job: Job, told: seq<seq<Byte>>, pick: nat)
    requires sys.maxChunk > 0 && s.a.flags.exiting && s.a.pc == InCall(job, told)
    ensures var a' := CallStep(sys, s, job, told, pick).a;
            a'.flags.exiting && BatchesLeft(a') <= BatchesLeft(s.a) && a'.hist.events == s.a.hist.events
  {
    hide ChunkRequest, RepliesTo, EntryOf;
  }

  lemma WindsDownStep(sys: Sys, evs0: seq<Event>, left0: nat, st: St, l: Label)
    requires sys.psPerClock > 0 && sys.maxChunk > 0 && WindsDown(evs0, left0, st.a)
    ensures WindsDown(evs0, left0, Step(sys, st, l).a)
  {
    hide AStep, HostStep, BatchesLeft;
    match l
    case Adapter(pick) => ExitingStep(sys, Side(st.a, st.h2d, st.d2h), pick);
    case Blind => BlindBatches(st.a);
    case Peer(move) => HostLeavesAdapter(sys, st, move);
  }

  lemma {:induction false} WindsDownFrom(sys: Sys, mem: seq<Byte>, labels: seq<Label>, more: seq<Label>, a: Dev)
    requires sys.psPerClock > 0 && sys.maxChunk > 0 && a == Run(sys, mem, labels).a && a.flags.exiting
    ensures WindsDown(a.hist.events, BatchesLeft(a), Run(sys, mem, labels + more).a)
  {
    hide Run, Step, BatchesLeft;
    if more == [] {
      assert labels + more == labels;
    } else {
      hide WindsDown;
      var before, l := more[..|more| - 1], more[|more| - 1];
      WindsDownFrom(sys, mem, labels, before, a);
      assert labels + more == labels + before + [l];
      RunExtend(sys, mem, labels + before, l);
      WindsDownStep(sys, a.hist.events, BatchesLeft(a), Run(sys, mem, labels + before), l);
    }
  }

  /** After a terminate message has been taken, along any continuation, no clock batch is begun but perhaps one,
      as the last thing of the iteration in progress, and no call at all once that iteration is over. */
  lemma {:induction false} NothingBegunAfterExit(sys: Sys, mem: seq<Byte>, labels: seq<Label>, more: seq<Label>)
    requires Valid(sys) && Terminate in Taken(sys, mem, labels)
    ensures var a := Run(sys, mem, labels).a;
            WindsDown(a.hist.events, BatchesLeft(a), Run(sys, mem, labels + more).a)
  {
    MessagesTakeEffect(sys, mem, labels);
    hide Run, Taken, BatchesLeft;
    WindsDownFrom(sys, mem, labels, more, Run(sys, mem, labels).a);
  }

  lemma BlindBatches(a: Dev)
    ensures BatchesLeft(PollBlind(a)) == BatchesLeft(a)
    ensures PollBlind(a).hist == a.hist && PollBlind(a).flags == a.flags
  {
  }

  // ---------------------------------------------------------------------------
  // Where it stops

  /** The places where the process ends: the top of the loop, or a pump that has polled dry with its slot open, if
      told to exit; and any poll that finds a write too long for its buffer. */
  predicate EndsHere(sys: Sys, s: Side) {
    || (s.a.flags.exiting && (s.a.pc == Idle(Syncing) || (InFlight(s.a) && s.a.pc.phase.Acting?)))
    || (!s.a.pc.InCall? && s.a.pc.phase.Polling? && Due(sys.sync, s.a.port, s.rx) && TooLong(s.rx[0].body))
  }

  /** The adapter stops in these places and in no others, and when it does, nothing else happens. */
  lemma StopsExactlyThere(sys: Sys, s: Side, pick: nat)
    requires sys.psPerClock > 0 && sys.maxChunk > 0 && !s.a.flags.stopped && !s.a.flags.fault
    ensures AStep(sys, s, pick).a.flags.stopped <==> EndsHere(sys, s)
    ensures EndsHere(sys, s) ==>
              var s' := AStep(sys, s, pick);
              && s'.rx == s.rx && s'.tx == s.tx && s'.a.hist == s.a.hist && s'.a.stats == s.a.stats
              && s'.a.mmioQ == s.a.mmioQ && s'.a.port.now == s.a.port.now
  {
    hide Deadline, Filled, ChunkRequest, RepliesTo, Translate, Capped;
  }

  /** Once stopped, the adapter never does anything again. */
  lemma {:induction false} StoppedForGood(sys: Sys, mem: seq<Byte>, labels: seq<Label>, more: seq<Label>)
    requires Valid(sys) && Run(sys, mem, labels).a.flags.stopped
    ensures Run(sys, mem, labels + more).a == Run(sys, mem, labels).a
  {
    hide Run, HostStep;
    if more == [] {
      assert labels + more == labels;
    } else {
      var before, l := more[..|more| - 1], more[|more| - 1];
      StoppedForGood(sys, mem, labels, before);
      assert labels + more == labels + before + [l];
      RunExtend(sys, mem, labels + before, l);
      if l.Peer? { HostLeavesAdapter(sys, Run(sys, mem, labels + before), l.move); }
    }
  }

  // ---------------------------------------------------------------------------
  // It gets there

  /** Where the exiting adapter is on its way out of the loop. */
  function WayOut(a: Dev): nat {
    if a.flags.stopped then 0
    else match a.pc
      case Idle(phase) => if phase.Syncing? then 1 else if phase.Acting? then 3 else 4
      case InCall(job, _) => if job.Batch? then 2 else 5
      case Pump(job, _, _, _, _, _, _) => if job.Batch? then 2 else 5
  }

  /** Messages and requests still to be dealt with. */
  function Mail(s: Side): nat {
    2 * |s.rx| + |s.a.mmioQ|
  }

  function Left(sys: Sys, a: Dev): nat {
    if a.pc.Idle? then 0 else CallsLeft(sys, a)
  }

  function Round(sys: Sys, a: Dev): nat {
    if !a.pc.Pump? then 0
    else match a.pc.phase
      case Syncing => if SyncOwed(sys.sync, sys.dev, a.port) then 3 else 2
      case Polling => 1
      case Acting => 0
  }

  ghost predicate CloserToHalt(sys: Sys, s: Side, s': Side) {
    (Mail(s), WayOut(s.a), Left(sys, s.a), Stage(s.a), BytesLeft(s.a), Round(sys, s.a)
    decreases to Mail(s'), WayOut(s'.a), Left(sys, s'.a), Stage(s'.a), BytesLeft(s'.a), Round(sys, s'.a))
  }

  lemma IdleHalts(sys: Sys, s: Side, pick: nat)
    requires Valid(sys) && s.a.flags.exiting && !s.a.flags.stopped && !s.a.flags.fault && s.a.pc.Idle?
    requires !s.a.pc.phase.Acting? || s.a.mmioQ == []
    ensures CloserToHalt(sys, s, AStep(sys, s, pick))
  {
    hide Consume, CallsLeft, Deadline, Capped;
    if s.a.pc.phase.Polling? && Due(sys.sync, s.a.port, s.rx) {
      ConsumedMail(s.a.(port := Peeked(s.a.port, s.rx)), s.rx[0].body);
    }
  }

  lemma ConsumedMail(a: Dev, body: H2D)
    ensures |Consume(a, body).mmioQ| <= |a.mmioQ| + 1
  {
    hide Filled;
  }

  lemma PopHalts(sys: Sys, s: Side, pick: nat)
    requires Valid(sys) && !s.a.flags.stopped && !s.a.flags.fault && s.a.pc == Idle(Acting) && s.a.mmioQ != []
    ensures CloserToHalt(sys, s, AStep(sys, s, pick))
  {
    hide Deadline, RepliesTo, Translate, CallsLeft, WayOut;
    assert |AStep(sys, s, pick).a.mmioQ| == |s.a.mmioQ| - 1 && AStep(sys, s, pick).rx == s.rx;
  }

  lemma CallHalts(sys: Sys, s: Side, pick: nat)
    requires Valid(sys) && !s.a.flags.stopped && !s.a.flags.fault
    requires s.a.pc.InCall? && EntryOf(sys, EventOf(s.a.pc.job)).Some?
    ensures CloserToHalt(sys, s, AStep(sys, s, pick))
  {
    hide EntryOf, Continue, Return;
    var InCall(job, told) := s.a.pc;
    var e := EntryOf(sys, EventOf(job)).value;
    match sys.lib.act(s.a.hist.log, e, told)
    case Finish(data) => ReturnMail(sys, s, job, Record(e, told, data));
    case DmaRd(addr, len) => ContinueMail(sys, s, Begin(s.a, job, told, RdX(addr, len, [])), pick);
    case DmaWr(addr, data) => ContinueMail(sys, s, Begin(s.a, job, told, WrX(addr, data)), pick);
  }

  lemma ReturnMail(sys: Sys, s: Side, job: Job, rec: Record)
    ensures var s' := Return(sys, s, job, rec);
            && s'.rx == s.rx && s'.a.mmioQ == s.a.mmioQ && s'.a.flags == s.a.flags
            && s'.a.pc == Idle(if job.Mmio? then Acting else Syncing)
  {
    hide RepliesTo;
  }

  lemma ContinueMail(sys: Sys, s: Side, pc: Pc, pick: nat)
    requires sys.maxChunk > 0 && pc.Pump? && pc.off <= XferSize(pc.x)
    ensures var s' := Continue(sys, s, pc, pick);
            && s'.rx == s.rx && s'.a.mmioQ == s.a.mmioQ && s'.a.flags == s.a.flags && s'.a.hist == s.a.hist
            && if pc.off == XferSize(pc.x)
               then s'.a.pc.InCall? && s'.a.pc.job == pc.job && |s'.a.pc.told| == |pc.told| + 1
               else s'.a.pc == pc
  {
    hide ChunkRequest;
  }

  lemma PumpTurnHalts(sys: Sys, s: Side, pick: nat)
    requires Valid(sys) && s.a.flags.exiting && !s.a.flags.stopped && !s.a.flags.fault
    requires s.a.pc.Pump? && (s.a.pc.phase.Acting? ==> !s.a.slot.done)
    ensures CloserToHalt(sys, s, AStep(sys, s, pick))
  {
    hide Consume, EntryOf, Continue;
    if s.a.pc.phase.Polling? && Due(sys.sync, s.a.port, s.rx) {
      ConsumedMail(s.a.(port := Peeked(s.a.port, s.rx)), s.rx[0].body);
    }
  }

  lemma PumpDoneHalts(sys: Sys, s: Side, pick: nat)
    requires Valid(sys) && !s.a.flags.stopped && !s.a.flags.fault && Asked(sys, s.a)
    requires s.a.pc.Pump? && s.a.pc.phase.Acting? && s.a.slot.done && OnTrack(sys, s.a.pc, s.a.slot)
    ensures CloserToHalt(sys, s, AStep(sys, s, pick))
  {
    hide EntryOf, Continue, RoundTrip;
    ContinueMail(sys, s, NextChunk(s.a), pick);
  }

  /** Every step of the adapter alone brings it closer to its halt. */
  lemma HaltStep(sys: Sys, mem: seq<Byte>, labels: seq<Label>)
    requires Valid(sys)
    requires Run(sys, mem, labels).a.flags.exiting && !Run(sys, mem, labels).a.flags.stopped
    ensures var st, st' := Run(sys, mem, labels), Run(sys, mem, labels + [Adapter(0)]);
            CloserToHalt(sys, Side(st.a, st.h2d, st.d2h), Side(st'.a, st'.h2d, st'.d2h))
  {
    var st := Run(sys, mem, labels);
    var s := Side(st.a, st.h2d, st.d2h);
    RunExtend(sys, mem, labels, Adapter(0));
    RunKeepsDma(sys, mem, labels);
    RunKeepsAsked(sys, mem, labels);
    RunKeepsT(sys, mem, labels);
    hide Run, AStep, CloserToHalt, SeqRun, Outcome, Requests, Completions, Located, EntryOf;
    if s.a.pc.InCall? {
      CallHalts(sys, s, 0);
    } else if s.a.pc.Idle? {
      if s.a.pc.phase.Acting? && s.a.mmioQ != [] {
        PopHalts(sys, s, 0);
      } else {
        IdleHalts(sys, s, 0);
      }
    } else if s.a.pc.phase.Acting? && s.a.slot.done {
      PumpDoneHalts(sys, s, 0);
    } else {
      PumpTurnHalts(sys, s, 0);
    }
  }

  function Steps(n: nat): seq<Label> {
    seq(n, _ => Adapter(0))
  }

  lemma {:induction false} HaltsFrom(sys: Sys, mem: seq<Byte>, labels: seq<Label>, st: St) returns (n: nat)
    requires Valid(sys) && st == Run(sys, mem, labels) && st.a.flags.exiting
    ensures Run(sys, mem, labels + Steps(n)).a.flags.stopped
    decreases Mail(Side(st.a, st.h2d, st.d2h)), WayOut(st.a), Left(sys, st.a), Stage(st.a), BytesLeft(st.a),
              Round(sys, st.a)
  {
    hide Run, Mail, WayOut, Left, Stage, BytesLeft, Round, Terminates, Step;
    if st.a.flags.stopped {
      n := 0;
      assert labels + Steps(0) == labels;
    } else {
      HaltStep(sys, mem, labels);
      RunExtend(sys, mem, labels, Adapter(0));
      StillExiting(sys, st);
      var n' := HaltsFrom(sys, mem, labels + [Adapter(0)], Run(sys, mem, labels + [Adapter(0)]));
      n := n' + 1;
      assert labels + [Adapter(0)] + Steps(n') == labels + Steps(n);
    }
  }

  lemma StillExiting(sys: Sys, st: St)
    requires sys.psPerClock > 0 && sys.maxChunk > 0 && st.a.flags.exiting
    ensures Step(sys, st, Adapter(0)).a.flags.exiting
  {
    ExitingStep(sys, Side(st.a, st.h2d, st.d2h), 0);
    hide AStep;
  }

  /** Termination halts. Once the adapter has taken a terminate message, wherever it is, it stops after finitely
      many steps of its own, whatever the link and even if the host never does anything again. */
  lemma {:induction false} TerminationHalts(sys: Sys, mem: seq<Byte>, labels: seq<Label>) returns (n: nat)
    requires Valid(sys) && Terminate in Taken(sys, mem, labels)
    ensures Run(sys, mem, labels + Steps(n)).a.flags.stopped
  {
    MessagesTakeEffect(sys, mem, labels);
    hide Run, Taken;
    n := HaltsFrom(sys, mem, labels, Run(sys, mem, labels));
  }
}
