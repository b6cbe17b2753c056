/** The adapter as it is written: global state updated in place by polling loops, with libttsim calling back
    into DMA from inside them. Every method is proved to take only steps of the system in `System`, and to end
    at the control point it claims; `Composition` carries over to this code what is proved about all runs. */
module Adapter {
  import opened Link
  import opened HostMemory
  import opened Device
  import opened System

  /** One event at the adapter: it takes a step, or messages become visible on the incoming ring. */
  datatype Moment = Do(pick: nat) | Arrive(ms: seq<Msg<H2D>>)

  function After(sys: Sys, s: Side, m: Moment): Side
    requires sys.psPerClock > 0 && sys.maxChunk > 0
  {
    match m
    case Do(pick) => AStep(sys, s, pick)
    case Arrive(ms) => s.(rx := s.rx + ms)
  }

  function AfterAll(sys: Sys, s: Side, ms: seq<Moment>): Side
    requires sys.psPerClock > 0 && sys.maxChunk > 0
  {
    if ms == [] then s else After(sys, AfterAll(sys, s, ms[..|ms| - 1]), ms[|ms| - 1])
  }

  /** An adapter and the script of what is still to become visible to it, poll by poll. */
  datatype Local = Local(side: Side, feed: seq<seq<Msg<H2D>>>)

  /** What becomes visible in the course of some moments. */
  function Seen(ms: seq<Moment>): seq<seq<Msg<H2D>>> {
    if ms == [] then []
    else Seen(ms[..|ms| - 1]) + if ms[|ms| - 1].Arrive? then [ms[|ms| - 1].ms] else []
  }

  /** The adapter can get from `l` to `l'`, and what it sees on the way is what the script says. */
  ghost predicate Reaches(sys: Sys, l: Local, l': Local)
    requires sys.psPerClock > 0 && sys.maxChunk > 0
  {
    exists ms :: AfterAll(sys, l.side, ms) == l'.side && l.feed == Seen(ms) + l'.feed
  }

  lemma ReachesSelf(sys: Sys, l: Local)
    requires sys.psPerClock > 0 && sys.maxChunk > 0
    ensures Reaches(sys, l, l)
  {
    assert AfterAll(sys, l.side, []) == l.side && Seen([]) + l.feed == l.feed;
  }

  lemma AfterOneMore(sys: Sys, s: Side, ms: seq<Moment>, m: Moment)
    requires sys.psPerClock > 0 && sys.maxChunk > 0
    ensures AfterAll(sys, s, ms + [m]) == After(sys, AfterAll(sys, s, ms), m)
    ensures Seen(ms + [m]) == Seen(ms) + if m.Arrive? then [m.ms] else []
  {
    assert (ms + [m])[..|ms|] == ms;
  }

  lemma ReachesStep(sys: Sys, l: Local, l': Local, pick: nat)
    requires sys.psPerClock > 0 && sys.maxChunk > 0 && Reaches(sys, l, l')
    ensures Reaches(sys, l, l'.(side := AStep(sys, l'.side, pick)))
  {
    hide AStep;
    var ms :| AfterAll(sys, l.side, ms) == l'.side && l.feed == Seen(ms) + l'.feed;
    AfterOneMore(sys, l.side, ms, Do(pick));
    assert Seen(ms) + [] == Seen(ms);
  }

  /** What the script says next becomes visible. */
  lemma ReachesArrival(sys: Sys, l: Local, l': Local)
    requires sys.psPerClock > 0 && sys.maxChunk > 0 && Reaches(sys, l, l') && l'.feed != []
    ensures Reaches(sys, l, Local(l'.side.(rx := l'.side.rx + l'.feed[0]), l'.feed[1..]))
  {
    hide AStep;
    var ms :| AfterAll(sys, l.side, ms) == l'.side && l.feed == Seen(ms) + l'.feed;
    AfterOneMore(sys, l.side, ms, Arrive(l'.feed[0]));
    assert Seen(ms) + [l'.feed[0]] + l'.feed[1..] == Seen(ms) + l'.feed;
  }

  lemma {:induction false} AfterConcat(sys: Sys, s: Side, ms: seq<Moment>, ms': seq<Moment>)
    requires sys.psPerClock > 0 && sys.maxChunk > 0
    ensures AfterAll(sys, s, ms + ms') == AfterAll(sys, AfterAll(sys, s, ms), ms')
    ensures Seen(ms + ms') == Seen(ms) + Seen(ms')
  {
    hide After;
    if ms' == [] {
      assert ms + ms' == ms && Seen(ms) + [] == Seen(ms);
    } else {
      var n := |ms'| - 1;
      AfterConcat(sys, s, ms, ms'[..n]);
      assert (ms + ms')[..|ms + ms'| - 1] == ms + ms'[..n];
      var last := if ms'[n].Arrive? then [ms'[n].ms] else [];
      assert Seen(ms) + Seen(ms'[..n]) + last == Seen(ms) + (Seen(ms'[..n]) + last);
    }
  }

  lemma ReachesTransitive(sys: Sys, l: Local, l': Local, l'': Local)
    requires sys.psPerClock > 0 && sys.maxChunk > 0 && Reaches(sys, l, l') && Reaches(sys, l', l'')
    ensures Reaches(sys, l, l'')
  {
    hide After;
    var ms :| AfterAll(sys, l.side, ms) == l'.side && l.feed == Seen(ms) + l'.feed;
    var ms' :| AfterAll(sys, l'.side, ms') == l''.side && l'.feed == Seen(ms') + l''.feed;
    AfterConcat(sys, l.side, ms, ms');
    assert Seen(ms) + (Seen(ms') + l''.feed) == Seen(ms) + Seen(ms') + l''.feed;
  }

  class AdapterSim {
    const sys: Sys

    // pcie_if
    var rx: seq<Msg<H2D>>
    var tx: seq<Msg<D2H>>
    var lastOut: nat
    var inTs: nat
    var slotHeld: bool                 // an outgoing slot is allocated and not sent yet
    var feed: seq<seq<Msg<H2D>>>       // what becomes visible on `rx` at each further poll
    ghost var stamps: seq<nat>
    ghost var taken: seq<H2D>          // the messages taken off `rx`

    // The file's globals
    var mainTime: nat
    var exiting: bool
    var waitingForPeer: bool
    var devctrlFlags: nat
    var mmioQ: seq<Req>
    var stats: Stats

    var slot: Slot                     // the stack slot of the innermost DMA callback
    var stopped: bool                  // exit() was called
    var fault: bool                    // a completion went through a dangling slot address
    var pc: Pc                         // the call stack
    var hist: Hist                     // `log` is what libttsim's state is a function of

    ghost function OwnPort(): Port
      reads this
    {
      Port(mainTime, lastOut, inTs, stamps)
    }

    ghost function View(): Side
      reads this
    {
      Side(Dev(OwnPort(), pc, slot, mmioQ, Flags(exiting, stopped, fault, waitingForPeer, devctrlFlags), stats,
               hist), rx, tx)
    }

    ghost function Now(): Local
      reads this
    {
      Local(View(), feed)
    }

    /** Running, with every allocated slot sent, and told to exit exactly if a terminate message has been taken. */
    ghost predicate Running()
      reads this
    {
      sys.psPerClock > 0 && sys.maxChunk > 0 && sys.dev.interval > 0 && Terminates(sys.lib) &&
      !slotHeld && !stopped && !fault && (exiting <==> Terminate in taken)
    }

    /** The process has ended, or no more is known of what the peer does; in the latter case nobody has asked for
        the former. */
    ghost predicate Over()
      reads this
    {
      stopped || fault || (feed == [] && !exiting && Terminate !in taken)
    }

    /** Set-up state: the link is up, nothing has happened yet. */
    constructor (sys: Sys, feed: seq<seq<Msg<H2D>>>)
      requires Valid(sys)
      ensures Running() && this.sys == sys && this.feed == feed && taken == []
      ensures View().a == Init(sys, []).a && rx == [] && tx == []
    {
      this.sys := sys;
      this.feed := feed;
      rx, tx, lastOut, inTs, slotHeld, stamps := [], [], 0, 0, false, [];
      mainTime, exiting, waitingForPeer, devctrlFlags, mmioQ := sys.start, false, false, 0, [];
      stats, slot, stopped, fault := Stats(0, 0, 0, 0, 0, 0), NO_SLOT, false, false;
      pc, hist, taken := Idle(Syncing), Hist([], [], [], [], 0, 0, 0), [];
    }

    method AllocPcieOut() returns (stamp: nat)
      requires !slotHeld
      modifies `slotHeld, `lastOut, `stamps
      ensures slotHeld && stamp == mainTime + sys.dev.latency
      ensures OwnPort() == AfterSend(sys.dev, old(OwnPort()))
    {
      stamp := mainTime + sys.dev.latency;
      slotHeld, lastOut, stamps := true, mainTime, stamps + [stamp];
    }

    method SendPcieOut(stamp: nat, body: D2H)
      requires slotHeld
      modifies `slotHeld, `tx
      ensures !slotHeld && tx == old(tx) + [Msg(stamp, body)]
    {
      slotHeld, tx := false, tx + [Msg(stamp, body)];
    }

    /** Allocate a slot, fill it and send it, with nothing in between. */
    method Emit(body: D2H)
      requires !slotHeld
      modifies `slotHeld, `tx, `lastOut, `stamps
      ensures !slotHeld && View() == Say(sys, old(View()), body)
    {
      var stamp := AllocPcieOut();
      SendPcieOut(stamp, body);
    }

    /** Send owed syncs, and turn to polling. */
    method SyncOut()
      requires Running() && !pc.InCall? && pc.phase.Syncing? && !(pc.Idle? && exiting)
      modifies `slotHeld, `tx, `lastOut, `stamps, `pc
      ensures Running() && Reaches(sys, old(Now()), Now())
      ensures pc == old(pc).(phase := Polling)
    {
      ReachesSelf(sys, Now());
      while SyncOwed(sys.sync, sys.dev, Port(mainTime, lastOut, inTs, []))
        invariant Running() && pc == old(pc)
        invariant Reaches(sys, old(Now()), Now())
        decreases SyncOwed(sys.sync, sys.dev, Port(mainTime, lastOut, inTs, []))
      {
        ghost var before := Now();
        Emit(DSync);
        assert View() == AStep(sys, before.side, 0);
        ReachesStep(sys, old(Now()), before, 0);
      }
      ghost var before := Now();
      pc := pc.(phase := Polling);
      assert View() == AStep(sys, before.side, 0);
      ReachesStep(sys, old(Now()), before, 0);
    }

    /** What the peer has sent since the last poll becomes visible. */
    method Receive()
      requires Running()
      modifies `rx, `feed
      ensures Reaches(sys, old(Now()), Now())
      ensures View() == old(View()).(rx := rx)
      ensures |feed| == if old(feed) == [] then 0 else old(|feed|) - 1
      ensures old(feed) == [] ==> rx == old(rx)
    {
      hide AStep;
      ReachesSelf(sys, Now());
      if feed != [] {
        ghost var early := Now();
        rx, feed := rx + feed[0], feed[1..];
        ReachesArrival(sys, old(Now()), early);
      }
    }

    /** Handle at most one incoming message; false if there was none. Never enters libttsim. */
    method PollPcie() returns (got: bool)
      requires Running() && !pc.InCall? && pc.phase.Polling?
      modifies `rx, `taken, `inTs, `feed, `exiting, `devctrlFlags, `mmioQ, `stats, `slot, `stopped, `fault, `pc, `hist
      ensures Reaches(sys, old(Now()), Now())
      ensures !slotHeld && old(mmioQ) <= mmioQ
      ensures |feed| == if old(feed) == [] then 0 else old(|feed|) - 1
      ensures |feed| < old(|feed|) || |rx| < old(|rx|) || (|rx| == old(|rx|) && (got ==> stopped))
      ensures |feed| < old(|feed|) || (feed == old(feed) && |rx| + |mmioQ| <= old(|rx| + |mmioQ|))
      ensures !got ==> Running()
      ensures exiting <==> Terminate in taken
      ensures pc == if got then old(pc) else old(pc).(phase := Acting)
      ensures slot.len == old(slot.len) && hist.log == old(hist.log)
    {
      Receive();
      ghost var before := Now();
      got := PollRing();
      ReachesStep(sys, old(Now()), before, 0);
    }

    /** One poll of what is visible on the ring. */
    method PollRing() returns (got: bool)
      requires Running() && !pc.InCall? && pc.phase.Polling?
      modifies `rx, `taken, `inTs, `exiting, `devctrlFlags, `mmioQ, `stats, `slot, `stopped, `fault, `pc, `hist
      ensures View() == AStep(sys, old(View()), 0)
      ensures old(mmioQ) <= mmioQ && slot.len == old(slot.len) && hist.log == old(hist.log)
      ensures |rx| < old(|rx|) || (rx == old(rx) && (got ==> stopped))
      ensures |rx| + |mmioQ| <= old(|rx| + |mmioQ|)
      ensures !got ==> Running()
      ensures exiting <==> Terminate in taken
      ensures pc == if got then old(pc) else old(pc).(phase := Acting)
    {
      hide CallStep, PumpAct, BeginMmio, BeginClocks, SyncOwed, Consume;
      if rx != [] {
        inTs := rx[0].stamp;
      }
      if rx == [] || (sys.sync && rx[0].stamp > mainTime) {
        got := false;
        pc := pc.(phase := Acting);
      } else {
        got := true;
        HandleMessage();
      }
    }

    /** The switch over the message types; the message at the head of the ring is then released. */
    method HandleMessage()
      requires rx != [] && !stopped
      modifies `rx, `taken, `exiting, `devctrlFlags, `mmioQ, `stats, `slot, `stopped, `fault, `hist
      ensures View() == if Oversized(old(rx)[0].body) then old(View()).(a := Halted(old(View()).a))
                        else Side(Consume(old(View()).a, old(rx)[0].body), old(rx)[1..], tx)
      ensures old(mmioQ) <= mmioQ && slot.len == old(slot.len) && hist.log == old(hist.log)
      ensures |rx| + |mmioQ| <= old(|rx| + |mmioQ|)
      ensures if stopped then rx == old(rx) && taken == old(taken) && exiting == old(exiting)
              else |rx| < old(|rx|) && taken == old(taken) + [old(rx)[0].body]
      ensures !stopped ==> (exiting <==> old(exiting) || old(rx)[0].body.Terminate?)
    {
      hide Consume;
      var body := rx[0].body;
      if body.MmioReq? && !body.req.isRead && body.req.len > MAX_MMIO_LEN {
        stopped := true;
        return;
      }
      Dispatch(body);
      taken := taken + [body];
      rx := rx[1..];
    }

    /** What each type of message does. */
    method Dispatch(body: H2D)
      modifies `exiting, `devctrlFlags, `mmioQ, `stats, `slot, `fault, `hist
      ensures View() == old(View()).(a := Consume(old(View()).a, body))
      ensures exiting <==> old(exiting) || body.Terminate?
      ensures old(mmioQ) <= mmioQ && |mmioQ| <= old(|mmioQ|) + 1
      ensures slot.len == old(slot.len) && hist.log == old(hist.log)
    {
      hide Filled;
      match body {
        case MmioReq(r) => mmioQ, hist := mmioQ + [r], hist.(arrived := hist.arrived + [r]);
        case ReadComp(id, data) => CompleteDma(id, Some(data));
        case WriteComp(id) => CompleteDma(id, None);
        case DevCtrl(flags) => devctrlFlags := flags;
        case Terminate => exiting := true;
        case HSync =>
        case OtherMsg =>
      }
    }

    /** A completion fills the slot whose address it carries. */
    method CompleteDma(id: nat, data: Option<seq<Byte>>)
      modifies `stats, `slot, `fault
      ensures View() == old(View()).(a := Consume(old(View()).a,
                                                  if data.Some? then ReadComp(id, data.value) else WriteComp(id)))
      ensures slot.len == old(slot.len)
    {
      if !(pc.Pump? && slot.id == id && !slot.done &&
           (if data.Some? then pc.x.RdX? && |data.value| == slot.len else pc.x.WrX?)) {
        fault := true;
      } else if data.Some? {
        slot := slot.(done := true, buf := data.value);
        stats := stats.(dmaReads := stats.dmaReads + 1);
      } else {
        slot := slot.(done := true, buf := []);
        stats := stats.(dmaWrites := stats.dmaWrites + 1);
      }
    }

    /** Drain the incoming ring. */
    method PollPcieAll()
      requires Running() && !pc.InCall? && pc.phase.Polling?
      modifies `rx, `taken, `inTs, `feed, `exiting, `devctrlFlags, `mmioQ, `stats, `slot, `stopped, `fault, `pc, `hist
      ensures Reaches(sys, old(Now()), Now())
      ensures stopped || fault || (Running() && pc == old(pc).(phase := Acting))
      ensures !slotHeld && old(mmioQ) <= mmioQ && slot.len == old(slot.len) && hist.log == old(hist.log)
      ensures |feed| <= old(|feed|) && (old(feed) != [] ==> |feed| < old(|feed|))
      ensures |feed| < old(|feed|) || (feed == old(feed) && |rx| + |mmioQ| <= old(|rx| + |mmioQ|))
    {
      hide AStep;
      var got := true;
      ReachesSelf(sys, Now());
      while got && !stopped && !fault
        invariant Reaches(sys, old(Now()), Now())
        invariant stopped || fault || Running()
        invariant stopped || fault || pc == if got then old(pc) else old(pc).(phase := Acting)
        invariant !slotHeld && old(mmioQ) <= mmioQ && slot.len == old(slot.len) && hist.log == old(hist.log)
        invariant |feed| <= old(|feed|)
        invariant |feed| < old(|feed|) || (feed == old(feed) && |rx| + |mmioQ| <= old(|rx| + |mmioQ|))
        invariant !got || stopped || fault ==> old(feed) == [] || |feed| < old(|feed|)
        decreases |feed|, |rx|, got && !stopped
      {
        ghost var before := Now();
        got := PollPcie();
        ReachesTransitive(sys, old(Now()), before, Now());
      }
    }

    /** Advance time and process messages until the slot completes. Gives up when the process stops or, after a full
        round, when nothing more is known of what the peer does. */
    method DmaPumpUntil() returns (done: bool)
      requires Running() && pc.Pump? && pc.phase.Syncing? && !slot.done
      modifies this
      ensures Reaches(sys, old(Now()), Now())
      ensures done ==> Running() && slot.done && slot.len == old(slot.len) && pc == old(pc).(phase := Acting)
      ensures !done ==> Over()
      ensures old(mmioQ) <= mmioQ && hist.log == old(hist.log)
      ensures |feed| < old(|feed|) || (feed == old(feed) && |rx| + |mmioQ| <= old(|rx| + |mmioQ|))
    {
      hide AStep, Reaches;
      ReachesSelf(sys, Now());
      while true
        invariant Reaches(sys, old(Now()), Now())
        invariant Running() && !slot.done && slot.len == old(slot.len) && pc == old(pc)
        invariant old(mmioQ) <= mmioQ && hist.log == old(hist.log)
        invariant |feed| < old(|feed|) || (feed == old(feed) && |rx| + |mmioQ| <= old(|rx| + |mmioQ|))
        decreases |feed|
      {
        var last := feed == [];
        ghost var before := Now();
        SyncOut();
        ReachesTransitive(sys, old(Now()), before, Now());
        before := Now();
        PollPcieAll();
        ReachesTransitive(sys, old(Now()), before, Now());
        if stopped || fault {
          return false;
        }
        if slot.done {
          return true;
        }
        before := Now();
        PumpOnce();
        ReachesStep(sys, old(Now()), before, 0);
        if stopped || last {
          return false;
        }
      }
    }

    /** The pump has polled dry and its slot is not done: stop if told to, else let time advance. */
    method PumpOnce()
      requires Running() && pc.Pump? && pc.phase.Acting? && !slot.done
      modifies `stopped, `mainTime, `hist, `pc
      ensures View() == AStep(sys, old(View()), 0)
      ensures hist.log == old(hist.log)
      ensures if exiting then stopped else Running() && pc == old(pc).(phase := Syncing)
    {
      hide PhaseStep, CallStep, BeginMmio, BeginClocks, Continue;
      if exiting {
        stopped := true;
        return;
      }
      var cap := mainTime + sys.batch * sys.psPerClock;
      var next := cap;
      if sys.sync {
        var nextSync := lastOut + sys.dev.interval;
        next := if inTs <= nextSync then inTs else nextSync;
        if next > cap {
          next := cap;
        }
      }
      if next > mainTime {
        hist := hist.(pumped := hist.pumped + (next - mainTime));
        mainTime := next;
      }
      pc := pc.(phase := Syncing);
    }

    /** Send the next sub-operation of the transfer that stands at `p`, from stack slot `pick`. */
    method SendChunk(p: Pc, pick: nat)
      requires Running() && p.Pump? && p.phase.Syncing? && p.off < XferSize(p.x)
      modifies `slot, `pc, `slotHeld, `tx, `lastOut, `stamps
      ensures Running() && pc == p && !slot.done
      ensures slot.len == ChunkLen(sys.maxChunk, XferSize(p.x), p.off)
      ensures View() == Continue(sys, old(View()), p, pick)
    {
      slot := Slot(pick, ChunkLen(sys.maxChunk, XferSize(p.x), p.off), false, [], mainTime);
      pc := p;
      Emit(ChunkRequest(sys, p.x, p.off, pick));
    }

    /** Whatever stack slot it uses, the adapter's next step takes the transfer on from `p`. */
    ghost predicate StandsAt(p: Pc)
      reads this
    {
      sys.psPerClock > 0 && sys.maxChunk > 0 && p.Pump? && p.off <= XferSize(p.x) && p.phase.Syncing? &&
      forall pick :: AStep(sys, View(), pick) == Continue(sys, View(), p, pick)
    }

    lemma TakesOn(p: Pc, pick: nat)
      requires StandsAt(p)
      ensures AStep(sys, View(), pick) == Continue(sys, View(), p, pick)
    {
    }

    /** One turn of the chunk loops of DmaMemRead and DmaMemWrite: send a sub-operation and wait for it. */
    method MoveChunk(p: Pc) returns (ok: bool)
      requires Running() && StandsAt(p) && p.off < XferSize(p.x)
      modifies this
      ensures Reaches(sys, old(Now()), Now())
      ensures ok ==> Running() && slot.len == ChunkLen(sys.maxChunk, XferSize(p.x), p.off)
      ensures ok ==>
                StandsAt(p.(x := if p.x.RdX? then p.x.(acc := p.x.acc + slot.buf) else p.x,
                            off := p.off + slot.len, idx := p.idx + 1))
      ensures !ok ==> Over()
      ensures old(mmioQ) <= mmioQ && hist.log == old(hist.log)
      ensures |feed| < old(|feed|) || (feed == old(feed) && |rx| + |mmioQ| <= old(|rx| + |mmioQ|))
    {
      hide AStep, Continue;
      var pick: nat := *;
      ghost var before := Now();
      TakesOn(p, pick);
      SendChunk(p, pick);
      ReachesSelf(sys, before);
      ReachesStep(sys, before, before, pick);
      before := Now();
      ok := DmaPumpUntil();
      ReachesTransitive(sys, old(Now()), before, Now());
      if ok {
        PumpLeaves(View().a, p);
        DoneContinues(sys, View());
      }
    }

    /** The callback for reads: the bytes at `paddr` of host memory, fetched sub-operation by sub-operation. */
    method DmaMemRead(paddr: nat, size: nat, job: Job, told: seq<seq<Byte>>) returns (ok: bool, dst: seq<Byte>)
      requires Running() && pc == InCall(job, told)
      requires StandsAt(Begin(View().a, job, told, RdX(paddr, size, [])))
      modifies this
      ensures Reaches(sys, old(Now()), Now())
      ensures ok ==> Running() && pc == InCall(job, told + [dst])
      ensures !ok ==> Over()
      ensures old(mmioQ) <= mmioQ && hist.log == old(hist.log)
      ensures |feed| < old(|feed|) || (feed == old(feed) && |rx| + |mmioQ| <= old(|rx| + |mmioQ|))
    {
      hide AStep, Continue;
      ReachesSelf(sys, Now());
      var p := Pump(job, told, RdX(paddr, size, []), 0, 0, mainTime, Syncing);
      while p.off < size
        invariant Reaches(sys, old(Now()), Now()) && Running() && StandsAt(p)
        invariant p.x.RdX? && p.x.size == size && p.job == job && p.told == told
        invariant old(mmioQ) <= mmioQ && hist.log == old(hist.log)
        invariant |feed| < old(|feed|) || (feed == old(feed) && |rx| + |mmioQ| <= old(|rx| + |mmioQ|))
        decreases size - p.off
      {
        ghost var before := Now();
        ok := MoveChunk(p);
        ReachesTransitive(sys, old(Now()), before, Now());
        if !ok {
          return false, [];
        }
        p := p.(x := p.x.(acc := p.x.acc + slot.buf), off := p.off + slot.len, idx := p.idx + 1);
      }
      ghost var before := Now();
      TakesOn(p, 0);
      pc := InCall(job, told + [p.x.acc]);
      LastContinue(sys, before.side, p);
      ReachesStep(sys, old(Now()), before, 0);
      return true, p.x.acc;
    }

    /** The callback for writes. */
    method DmaMemWrite(paddr: nat, src: seq<Byte>, job: Job, told: seq<seq<Byte>>) returns (ok: bool)
      requires Running() && pc == InCall(job, told)
      requires StandsAt(Begin(View().a, job, told, WrX(paddr, src)))
      modifies this
      ensures Reaches(sys, old(Now()), Now())
      ensures ok ==> Running() && pc == InCall(job, told + [[]])
      ensures !ok ==> Over()
      ensures old(mmioQ) <= mmioQ && hist.log == old(hist.log)
      ensures |feed| < old(|feed|) || (feed == old(feed) && |rx| + |mmioQ| <= old(|rx| + |mmioQ|))
    {
      hide AStep, Continue;
      ReachesSelf(sys, Now());
      var p := Pump(job, told, WrX(paddr, src), 0, 0, mainTime, Syncing);
      while p.off < |src|
        invariant Reaches(sys, old(Now()), Now()) && Running() && StandsAt(p)
        invariant p.x == WrX(paddr, src) && p.job == job && p.told == told
        invariant old(mmioQ) <= mmioQ && hist.log == old(hist.log)
        invariant |feed| < old(|feed|) || (feed == old(feed) && |rx| + |mmioQ| <= old(|rx| + |mmioQ|))
        decreases |src| - p.off
      {
        ghost var before := Now();
        ok := MoveChunk(p);
        ReachesTransitive(sys, old(Now()), before, Now());
        if !ok {
          return false;
        }
        p := p.(off := p.off + slot.len, idx := p.idx + 1);
      }
      ghost var before := Now();
      TakesOn(p, 0);
      pc := InCall(job, told + [[]]);
      LastContinue(sys, before.side, p);
      ReachesStep(sys, old(Now()), before, 0);
      return true;
    }

    /** A call into libttsim: it computes, calls back for DMA, and returns `data` having been told `told`. */
    method CallLib(job: Job, e: Entry) returns (ok: bool, told: seq<seq<Byte>>, data: seq<Byte>)
      requires Running() && pc == InCall(job, []) && EntryOf(sys, EventOf(job)) == Some(e)
      modifies this
      ensures Reaches(sys, old(Now()), Now())
      ensures ok ==> Running() && pc == InCall(job, told) && sys.lib.act(hist.log, e, told) == Finish(data)
      ensures !ok ==> Over()
      ensures old(mmioQ) <= mmioQ && hist.log == old(hist.log)
      ensures |feed| < old(|feed|) || (feed == old(feed) && |rx| + |mmioQ| <= old(|rx| + |mmioQ|))
    {
      hide AStep, Continue, EntryOf;
      ReachesSelf(sys, Now());
      told, data, ok := [], [], true;
      while !sys.lib.act(hist.log, e, told).Finish?
        invariant Reaches(sys, old(Now()), Now()) && Running() && pc == InCall(job, told)
        invariant old(mmioQ) <= mmioQ && hist.log == old(hist.log)
        invariant |feed| < old(|feed|) || (feed == old(feed) && |rx| + |mmioQ| <= old(|rx| + |mmioQ|))
        decreases sys.lib.budget(old(hist.log), e) - |told|
      {
        ghost var before := Now();
        CallsBack(job, e, told);
        match sys.lib.act(hist.log, e, told) {
          case DmaRd(addr, len) =>
            var dst;
            ok, dst := DmaMemRead(addr, len, job, told);
            told := told + [dst];
          case DmaWr(addr, src) =>
            ok := DmaMemWrite(addr, src, job, told);
            told := told + [[]];
        }
        ReachesTransitive(sys, old(Now()), before, Now());
        if !ok {
          return;
        }
      }
      data := sys.lib.act(hist.log, e, told).data;
    }

    lemma CallsBack(job: Job, e: Entry, told: seq<seq<Byte>>)
      requires Running() && pc == InCall(job, told) && EntryOf(sys, EventOf(job)) == Some(e)
      ensures match sys.lib.act(hist.log, e, told)
              case Finish(_) => true
              case DmaRd(addr, len) => StandsAt(Begin(View().a, job, told, RdX(addr, len, [])))
              case DmaWr(addr, src) => StandsAt(Begin(View().a, job, told, WrX(addr, src)))
    {
      hide Continue, EntryOf, Return;
    }

    /** Answer a request, unless it was a posted write; only now is an outgoing slot allocated. */
    method Complete(r: Req, data: seq<Byte>)
      requires !slotHeld
      modifies `slotHeld, `tx, `lastOut, `stamps, `hist
      ensures !slotHeld && View() == Answer(sys, old(View()), r, data) && hist.log == old(hist.log)
    {
      if r.isRead {
        hist := hist.(replies := hist.replies + [RdDone(r.id, Fit(data, r.len))]);
        Emit(DReply(RdDone(r.id, Fit(data, r.len))));
      } else if !r.posted {
        hist := hist.(replies := hist.replies + [WrDone(r.id)]);
        Emit(DReply(WrDone(r.id)));
      }
    }

    /** Pop the next request; enter libttsim for it if it translates, else answer with zeros. */
    method PopMmio() returns (r: Req, paddr: Option<nat>)
      requires Running() && pc == Idle(Acting) && mmioQ != []
      modifies `mmioQ, `stats, `hist, `pc, `slotHeld, `tx, `lastOut, `stamps
      ensures Running() && View() == AStep(sys, old(View()), 0)
      ensures r == old(mmioQ)[0] && paddr == Translate(sys, r) && mmioQ == old(mmioQ)[1..]
      ensures pc == if paddr.Some? then InCall(Mmio(r, mainTime), []) else Idle(Acting)
    {
      IdleActs(sys, View());
      hide AStep, Translate, Answer;
      r := mmioQ[0];
      mmioQ := mmioQ[1..];
      paddr := Translate(sys, r);
      if r.isRead {
        stats := stats.(mmioReads := stats.mmioReads + 1);
      } else {
        stats := stats.(mmioWrites := stats.mmioWrites + 1,
                        posted := if r.posted then stats.posted + 1 else stats.posted);
      }
      hist := hist.(events := hist.events + [Serve(r)]);
      if paddr.Some? {
        pc := InCall(Mmio(r, mainTime), []);
      } else {
        Complete(r, []);
      }
    }

    /** Execute queued MMIO against libttsim, in order; requests that arrive meanwhile included. */
    method DrainDeferredMmio() returns (ok: bool)
      requires Running() && pc == Idle(Acting)
      modifies this
      ensures Reaches(sys, old(Now()), Now())
      ensures ok ==> Running() && pc == Idle(Acting) && mmioQ == []
      ensures !ok ==> Over()
      ensures |feed| <= old(|feed|)
    {
      hide AStep, Translate;
      ReachesSelf(sys, Now());
      while mmioQ != []
        invariant Reaches(sys, old(Now()), Now()) && Running() && pc == Idle(Acting)
        invariant |feed| <= old(|feed|)
        decreases |feed|, |rx| + |mmioQ|
      {
        ghost var before := Now();
        var r, paddr := PopMmio();
        ReachesStep(sys, old(Now()), before, 0);
        if paddr.Some? {
          before := Now();
          var e := MmioEntry(paddr.value, r);
          var told, data;
          ok, told, data := CallLib(pc.job, e);
          ReachesTransitive(sys, old(Now()), before, Now());
          if !ok {
            return false;
          }
          before := Now();
          FinishMmio(r, e, told, data);
          ReachesStep(sys, old(Now()), before, 0);
        }
      }
      return true;
    }

    /** libttsim has returned from an MMIO entry point. */
    method FinishMmio(r: Req, e: Entry, told: seq<seq<Byte>>, data: seq<Byte>)
      requires Running() && pc.InCall? && pc.job.Mmio? && pc.job.req == r && pc.told == told
      requires EntryOf(sys, Serve(r)) == Some(e) && sys.lib.act(hist.log, e, told) == Finish(data)
      modifies `hist, `pc, `slotHeld, `tx, `lastOut, `stamps
      ensures Running() && pc == Idle(Acting) && View() == AStep(sys, old(View()), 0)
    {
      CallReturns(sys, View(), e, data);
      hide AStep, EntryOf, Answer;
      hist := hist.(log := hist.log + [Record(e, told, data)]);
      pc := Idle(Acting);
      Complete(r, data);
    }

    /** Run the clock steps that fit, at most one call's worth, and advance time over them. */
    method RunClocks() returns (ok: bool)
      requires Running() && pc == Idle(Acting) && mmioQ == []
      modifies this
      ensures Reaches(sys, old(Now()), Now())
      ensures ok ==> Running() && pc == Idle(Syncing)
      ensures !ok ==> Over()
      ensures |feed| <= old(|feed|)
    {
      hide AStep;
      ReachesSelf(sys, Now());
      ghost var before := Now();
      var start := mainTime;
      var n := PlanClocks();
      ReachesStep(sys, old(Now()), before, 0);
      if pc.Idle? {
        return true;
      }
      before := Now();
      var told, data;
      ok, told, data := CallLib(pc.job, Clock(n));
      ReachesTransitive(sys, old(Now()), before, Now());
      if !ok {
        return false;
      }
      before := Now();
      FinishClocks(start, n, told, data);
      ReachesStep(sys, old(Now()), before, 0);
    }

    /** How many clock steps to run; the adapter has jumped or waits if that leaves it idle. */
    method PlanClocks() returns (n: nat)
      requires Running() && pc == Idle(Acting) && mmioQ == []
      modifies `waitingForPeer, `mainTime, `pc, `hist
      ensures Running() && View() == AStep(sys, old(View()), 0)
      ensures pc == Idle(Syncing) || pc == InCall(Batch(n, old(mainTime)), [])
    {
      IdleActs(sys, View());
      hide AStep;
      n := sys.batch;
      if sys.sync {
        var nextSync := lastOut + sys.dev.interval;
        var deadline := if inTs <= nextSync then inTs else nextSync;
        if deadline <= mainTime {
          waitingForPeer := true;
          pc := Idle(Syncing);
          return;
        }
        n := (deadline - mainTime) / sys.psPerClock;
        if n == 0 {
          hist := hist.(jumped := hist.jumped + (deadline - mainTime));
          mainTime := deadline;
          pc := Idle(Syncing);
          return;
        }
      }
      waitingForPeer := false;
      if n > MAX_CLOCKS_PER_CALL {
        n := MAX_CLOCKS_PER_CALL;
      }
      hist := hist.(events := hist.events + [Tick(n)]);
      pc := InCall(Batch(n, mainTime), []);
    }

    /** libttsim has returned from a batch of `n` clock steps begun at `start`. */
    method FinishClocks(start: nat, n: nat, told: seq<seq<Byte>>, data: seq<Byte>)
      requires Running() && pc == InCall(Batch(n, start), told)
      requires sys.lib.act(hist.log, Clock(n), told) == Finish(data)
      modifies `hist, `pc, `stats, `mainTime
      ensures Running() && pc == Idle(Syncing) && View() == AStep(sys, old(View()), 0)
    {
      CallReturns(sys, View(), Clock(n), data);
      hide AStep, Answer;
      var target := start + n * sys.psPerClock;
      var spent := if mainTime < start then 0 else mainTime - start;
      hist := hist.(log := hist.log + [Record(Clock(n), told, data)],
                    hidden := hist.hidden + Earlier(spent, n * sys.psPerClock));
      stats := stats.(clocks := stats.clocks + n);
      if mainTime < target {
        mainTime := target;
      }
      pc := Idle(Syncing);
    }

    /** The main loop, for as long as it is known what the peer does: all it ever does is take steps, and once it has
        taken a terminate message it stops. */
    method RunLoop()
      requires Running() && pc == Idle(Syncing)
      modifies this
      ensures Reaches(sys, old(Now()), Now())
      ensures Over()
      ensures Terminate in taken ==> stopped || fault
    {
      hide AStep, Reaches;
      ReachesSelf(sys, Now());
      while !exiting
        invariant Reaches(sys, old(Now()), Now()) && Running() && pc == Idle(Syncing)
        decreases |feed|
      {
        var last := feed == [];
        ghost var before := Now();
        SyncOut();
        ReachesTransitive(sys, old(Now()), before, Now());
        before := Now();
        PollPcieAll();
        ReachesTransitive(sys, old(Now()), before, Now());
        if stopped || fault {
          return;
        }
        before := Now();
        var ok := DrainDeferredMmio();
        ReachesTransitive(sys, old(Now()), before, Now());
        if !ok {
          return;
        }
        before := Now();
        ok := RunClocks();
        ReachesTransitive(sys, old(Now()), before, Now());
        if !ok || (last && !exiting) {
          return;
        }
        if last {
          break;
        }
      }
      ghost var before := Now();
      stopped := true;
      ExitIsStep(sys, before.side);
      ReachesStep(sys, old(Now()), before, 0);
    }
  }

  /** What the next step of the idle adapter is. */
  lemma IdleActs(sys: Sys, s: Side)
    requires sys.psPerClock > 0 && sys.maxChunk > 0 && !s.a.flags.stopped && !s.a.flags.fault
    requires s.a.pc == Idle(Acting)
    ensures AStep(sys, s, 0) == if s.a.mmioQ != [] then BeginMmio(sys, s) else s.(a := BeginClocks(sys, s.a))
  {
  }

  /** What the next step is when libttsim returns. */
  lemma CallReturns(sys: Sys, s: Side, e: Entry, data: seq<Byte>)
    requires sys.psPerClock > 0 && sys.maxChunk > 0 && !s.a.flags.stopped && !s.a.flags.fault
    requires s.a.pc.InCall? && EntryOf(sys, EventOf(s.a.pc.job)) == Some(e)
    requires sys.lib.act(s.a.hist.log, e, s.a.pc.told) == Finish(data)
    ensures AStep(sys, s, 0) == Return(sys, s, s.a.pc.job, Record(e, s.a.pc.told, data))
  {
    hide Return, EntryOf;
  }

  lemma ExitIsStep(sys: Sys, s: Side)
    requires sys.psPerClock > 0 && sys.maxChunk > 0 && !s.a.flags.stopped && !s.a.flags.fault
    requires s.a.pc == Idle(Syncing) && s.a.flags.exiting
    ensures AStep(sys, s, 0) == s.(a := Halted(s.a))
  {
  }

  /** A pump that is left stands where its next sub-operation begins. */
  lemma PumpLeaves(a: Dev, p: Pc)
    requires p.Pump? && a.pc == p.(phase := Acting) && p.phase.Syncing? && p.off + a.slot.len <= XferSize(p.x)
    ensures NextChunk(a) == p.(x := if p.x.RdX? then p.x.(acc := p.x.acc + a.slot.buf) else p.x,
                               off := p.off + a.slot.len, idx := p.idx + 1)
  {
  }

  lemma DoneContinues(sys: Sys, s: Side)
    requires sys.psPerClock > 0 && sys.maxChunk > 0 && !s.a.flags.stopped && !s.a.flags.fault
    requires s.a.pc.Pump? && s.a.pc.phase.Acting? && s.a.slot.done
    ensures forall pick :: AStep(sys, s, pick) == Continue(sys, s, NextChunk(s.a), pick)
  {
  }

  lemma LastContinue(sys: Sys, s: Side, p: Pc)
    requires sys.maxChunk > 0 && p.Pump? && p.off == XferSize(p.x)
    ensures Continue(sys, s, p, 0) == At(s, InCall(p.job, p.told + [if p.x.RdX? then p.x.acc else []]))
  {
  }
}
