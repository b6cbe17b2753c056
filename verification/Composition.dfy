/** The two programs as written, side by side. Each runs on its own and sees the other's messages some time
    after they were sent, in order; still, together they never do anything that the system in `System` cannot
    do. This carries what is proved about all runs over to the classes in `Adapter` and `Probe`. */
module Composition {
  import opened Link
  import opened HostMemory
  import opened Device
  import opened System
  import opened Timing
  import opened DmaSafety
  import opened Transparency
  import opened Service
  import A = Adapter
  import P = Probe

  /** Both programs, each with all it ever sent and with the messages it sees and has not handled; of those
      sent, `toAdapter` and `toHost` have become visible to the other side. */
  datatype Joint = Joint(a: Side, h: St, toAdapter: nat, toHost: nat)

  datatype Moment = OfAdapter(am: A.Moment) | OfHost(hm: P.Moment)

  /** What becomes visible is what was sent next. */
  predicate Delivers<B(==)>(sent: seq<Msg<B>>, seen: nat, ms: seq<Msg<B>>) {
    seen + |ms| <= |sent| && sent[seen..seen + |ms|] == ms
  }

  predicate MayHappen(j: Joint, m: Moment) {
    match m
    case OfAdapter(Arrive(ms)) => Delivers(j.h.h2d, j.toAdapter, ms)
    case OfHost(Arrive(ms)) => Delivers(j.a.tx, j.toHost, ms)
    case _ => true
  }

  function JointStep(sys: Sys, j: Joint, m: Moment): Joint
    requires sys.psPerClock > 0 && sys.maxChunk > 0
  {
    match m
    case OfAdapter(am) =>
      j.(a := A.After(sys, j.a, am), toAdapter := j.toAdapter + if am.Arrive? then |am.ms| else 0)
    case OfHost(hm) => j.(h := P.After(sys, j.h, hm), toHost := j.toHost + if hm.Arrive? then |hm.ms| else 0)
  }

  function JointInit(sys: Sys, mem: seq<Byte>): Joint {
    var st := Init(sys, mem);
    Joint(Side(st.a, [], []), st, 0, 0).(h := st.(d2h := []))
  }

  function JointRun(sys: Sys, mem: seq<Byte>, ms: seq<Moment>): Joint
    requires sys.psPerClock > 0 && sys.maxChunk > 0
  {
    if ms == [] then JointInit(sys, mem)
    else JointStep(sys, JointRun(sys, mem, ms[..|ms| - 1]), ms[|ms| - 1])
  }

  /** No message is seen before it was sent, or out of order. */
  ghost predicate Possible(sys: Sys, mem: seq<Byte>, ms: seq<Moment>)
    requires sys.psPerClock > 0 && sys.maxChunk > 0
  {
    forall i :: 0 <= i < |ms| ==> MayHappen(JointRun(sys, mem, ms[..i]), ms[i])
  }

  // ---------------------------------------------------------------------------
  // What the adapter does depends neither on what it has sent nor on what it does not see yet

  /** The same adapter, with `more` behind what it sees, and with other messages before what it sent last. */
  function Elsewhere(s: Side, more: seq<Msg<H2D>>, early: seq<Msg<D2H>>, k: nat): Side
    requires k <= |s.tx|
  {
    Side(s.a, s.rx + more, early + s.tx[k..])
  }

  lemma SayElsewhere(sys: Sys, s: Side, more: seq<Msg<H2D>>, early: seq<Msg<D2H>>, k: nat, body: D2H)
    requires k <= |s.tx|
    ensures k <= |Say(sys, s, body).tx|
    ensures Say(sys, Elsewhere(s, more, early, k), body) == Elsewhere(Say(sys, s, body), more, early, k)
  {
    var m := Stamped(sys.dev, s.a.port, body);
    assert early + (s.tx + [m])[k..] == early + s.tx[k..] + [m];
  }

  lemma AnswerElsewhere(sys: Sys, s: Side, more: seq<Msg<H2D>>, early: seq<Msg<D2H>>, k: nat, r: Req,
                        data: seq<Byte>)
    requires k <= |s.tx|
    ensures k <= |Answer(sys, s, r, data).tx|
    ensures Answer(sys, Elsewhere(s, more, early, k), r, data) == Elsewhere(Answer(sys, s, r, data), more, early, k)
  {
    var rs := RepliesTo(r, data);
    if rs != [] {
      SayElsewhere(sys, s.(a := s.a.(hist := s.a.hist.(replies := s.a.hist.replies + rs))), more, early, k,
                   DReply(rs[0]));
      hide Say;
    }
  }

  lemma ContinueElsewhere(sys: Sys, s: Side, more: seq<Msg<H2D>>, early: seq<Msg<D2H>>, k: nat, pc: Pc, pick: nat)
    requires k <= |s.tx| && sys.maxChunk > 0 && pc.Pump? && pc.off <= XferSize(pc.x)
    ensures k <= |Continue(sys, s, pc, pick).tx|
    ensures Continue(sys, Elsewhere(s, more, early, k), pc, pick) ==
            Elsewhere(Continue(sys, s, pc, pick), more, early, k)
  {
    hide ChunkRequest, Say;
    if pc.off < XferSize(pc.x) {
      var slot := Slot(pick, ChunkLen(sys.maxChunk, XferSize(pc.x), pc.off), false, [], s.a.port.now);
      SayElsewhere(sys, s.(a := s.a.(slot := slot, pc := pc)), more, early, k, ChunkRequest(sys, pc.x, pc.off, pick));
    }
  }

  lemma CallElsewhere(sys: Sys, s: Side, more: seq<Msg<H2D>>, early: seq<Msg<D2H>>, k: nat, job: Job,
                      told: seq<seq<Byte>>, pick: nat)
    requires k <= |s.tx| && sys.maxChunk > 0
    ensures k <= |CallStep(sys, s, job, told, pick).tx|
    ensures CallStep(sys, Elsewhere(s, more, early, k), job, told, pick) ==
            Elsewhere(CallStep(sys, s, job, told, pick), more, early, k)
  {
    hide Answer, Continue;
    match EntryOf(sys, EventOf(job))
    case None =>
    case Some(e) =>
      match sys.lib.act(s.a.hist.log, e, told)
      case Finish(data) =>
        if job.Mmio? {
          var a := Logged(s.a, Record(e, told, data)).(pc := Idle(Acting));
          AnswerElsewhere(sys, s.(a := a), more, early, k, job.req, data);
        }
      case DmaRd(addr, len) =>
        ContinueElsewhere(sys, s, more, early, k, Begin(s.a, job, told, RdX(addr, len, [])), pick);
      case DmaWr(addr, data) =>
        ContinueElsewhere(sys, s, more, early, k, Begin(s.a, job, told, WrX(addr, data)), pick);
  }

  /** A poll that sees something does not care what lies behind it. */
  lemma PollElsewhere(sys: Sys, s: Side, more: seq<Msg<H2D>>, early: seq<Msg<D2H>>, k: nat)
    requires k <= |s.tx| && s.rx != []
    ensures PollOnce(sys, s).0.tx == s.tx
    ensures PollOnce(sys, Elsewhere(s, more, early, k)).1 == PollOnce(sys, s).1
    ensures PollOnce(sys, Elsewhere(s, more, early, k)).0 == Elsewhere(PollOnce(sys, s).0, more, early, k)
  {
    hide Consume;
    assert (s.rx + more)[1..] == s.rx[1..] + more;
  }

  lemma AStepElsewhere(sys: Sys, s: Side, more: seq<Msg<H2D>>, early: seq<Msg<D2H>>, k: nat, pick: nat)
    requires k <= |s.tx| && sys.psPerClock > 0 && sys.maxChunk > 0
    requires s.rx != [] || s.a.pc.InCall? || !s.a.pc.phase.Polling?
    ensures k <= |AStep(sys, s, pick).tx|
    ensures AStep(sys, Elsewhere(s, more, early, k), pick) == Elsewhere(AStep(sys, s, pick), more, early, k)
  {
    hide Say, Answer, Continue, CallStep, PollOnce, BeginClocks, NextChunk, PumpAdvance;
    match s.a.pc
    case InCall(job, told) => CallElsewhere(sys, s, more, early, k, job, told, pick);
    case Idle(phase) =>
      if phase.Acting? {
        if s.a.mmioQ != [] {
          AnswerElsewhere(sys, s.(a := Popped(s.a)), more, early, k, s.a.mmioQ[0], []);
        }
      } else {
        PhaseElsewhere(sys, s, more, early, k);
      }
    case Pump(_, _, _, _, _, _, phase) =>
      if phase.Acting? {
        if s.a.slot.done {
          ContinueElsewhere(sys, s, more, early, k, NextChunk(s.a), pick);
        }
      } else {
        PhaseElsewhere(sys, s, more, early, k);
      }
  }

  lemma PhaseElsewhere(sys: Sys, s: Side, more: seq<Msg<H2D>>, early: seq<Msg<D2H>>, k: nat)
    requires k <= |s.tx| && !s.a.pc.InCall? && !s.a.pc.phase.Acting? && (s.rx != [] || s.a.pc.phase.Syncing?)
    ensures k <= |PhaseStep(sys, s).tx|
    ensures PhaseStep(sys, Elsewhere(s, more, early, k)) == Elsewhere(PhaseStep(sys, s), more, early, k)
  {
    hide Say, PollOnce;
    if s.a.pc.phase.Syncing? {
      SayElsewhere(sys, s, more, early, k, DSync);
    } else {
      PollElsewhere(sys, s, more, early, k);
    }
  }

  /** A poll that sees nothing is the system's blind poll. */
  lemma NothingSeen(sys: Sys, s: Side, pick: nat)
    requires sys.psPerClock > 0 && sys.maxChunk > 0
    requires s.rx == [] && !s.a.pc.InCall? && s.a.pc.phase.Polling?
    ensures AStep(sys, s, pick) == s.(a := PollBlind(s.a))
  {
    hide Consume;
  }

  // ---------------------------------------------------------------------------
  // Nor does what the host does

  lemma HostElsewhere(sys: Sys, st: St, a: Dev, more: seq<Msg<D2H>>, early: seq<Msg<H2D>>, k: nat, move: HostMove)
    requires k <= |st.h2d| && (st.d2h != [] || !move.HPoll?)
    ensures var st' := HostStep(sys, st, move);
            && k <= |st'.h2d|
            && HostStep(sys, St(a, st.h, st.d2h + more, early + st.h2d[k..]), move) ==
               St(a, st'.h, st'.d2h + more, early + st'.h2d[k..])
  {
    hide ServeRead, ServeWrite, Deadline, WellFormed;
    forall m: Msg<H2D> ensures (st.h2d + [m])[k..] == st.h2d[k..] + [m] {}
    forall m: Msg<H2D> ensures early + (st.h2d[k..] + [m]) == early + st.h2d[k..] + [m] {}
    if st.d2h != [] {
      assert (st.d2h + more)[1..] == st.d2h[1..] + more;
    }
  }

  // ---------------------------------------------------------------------------
  // Together they are the system

  /** The system's rings hold what is sent and not handled, seen or not. */
  ghost predicate Mirrors(j: Joint, st: St) {
    && j.toAdapter <= |j.h.h2d| && j.toHost <= |j.a.tx|
    && st.a == j.a.a && st.h == j.h.h
    && st.h2d == j.a.rx + j.h.h2d[j.toAdapter..]
    && st.d2h == j.h.d2h + j.a.tx[j.toHost..]
  }

  lemma AdapterIsMirrored(sys: Sys, j: Joint, st: St, pick: nat) returns (l: Label)
    requires sys.psPerClock > 0 && sys.maxChunk > 0 && Mirrors(j, st)
    ensures Mirrors(JointStep(sys, j, OfAdapter(A.Do(pick))), Step(sys, st, l))
  {
    hide AStep, PollBlind;
    var more := j.h.h2d[j.toAdapter..];
    if j.a.rx != [] || j.a.a.pc.InCall? || !j.a.a.pc.phase.Polling? {
      AStepElsewhere(sys, j.a, more, j.h.d2h, j.toHost, pick);
      l := Adapter(pick);
    } else {
      NothingSeen(sys, j.a, pick);
      l := Blind;
    }
  }

  lemma HostIsMirrored(sys: Sys, j: Joint, st: St, move: HostMove) returns (ls: seq<Label>)
    requires sys.psPerClock > 0 && sys.maxChunk > 0 && Mirrors(j, st)
    ensures |ls| <= 1
    ensures Mirrors(JointStep(sys, j, OfHost(P.Do(move))), if ls == [] then st else Step(sys, st, ls[0]))
  {
    var more := j.a.tx[j.toHost..];
    if j.h.d2h != [] || !move.HPoll? {
      HostElsewhere(sys, j.h, st.a, more, j.a.rx, j.toAdapter, move);
      hide HostStep;
      ls := [Peer(move)];
    } else {
      hide HostConsume;
      ls := [];
    }
  }

  lemma ArrivalIsMirrored(sys: Sys, j: Joint, st: St, m: Moment)
    requires sys.psPerClock > 0 && sys.maxChunk > 0 && Mirrors(j, st) && MayHappen(j, m)
    requires if m.OfAdapter? then m.am.Arrive? else m.hm.Arrive?
    ensures Mirrors(JointStep(sys, j, m), st)
  {
    match m
    case OfAdapter(Arrive(ms)) =>
      assert j.h.h2d[j.toAdapter..] == ms + j.h.h2d[j.toAdapter + |ms|..];
    case OfHost(Arrive(ms)) =>
      assert j.a.tx[j.toHost..] == ms + j.a.tx[j.toHost + |ms|..];
  }

  /** Refinement. However the two programs are interleaved, and however late either of them comes to see what the
      other has sent, there is a run of the system that ends with the same adapter, the same host and, on the
      rings, exactly the messages that are sent and not handled. */
  lemma {:induction false} ProgramsAreTheSystem(sys: Sys, mem: seq<Byte>, ms: seq<Moment>) returns (labels: seq<Label>)
    requires sys.psPerClock > 0 && sys.maxChunk > 0 && Possible(sys, mem, ms)
    ensures Mirrors(JointRun(sys, mem, ms), Run(sys, mem, labels))
  {
    hide Step, JointStep, Mirrors;
    if ms == [] {
      labels := [];
      InitIsMirrored(sys, mem);
    } else {
      var before, m := ms[..|ms| - 1], ms[|ms| - 1];
      assert forall i :: 0 <= i < |before| ==> ms[..i] == before[..i] && ms[i] == before[i];
      labels := ProgramsAreTheSystem(sys, mem, before);
      var j, st := JointRun(sys, mem, before), Run(sys, mem, labels);
      match m
      case OfAdapter(Do(pick)) =>
        var l := AdapterIsMirrored(sys, j, st, pick);
        RunExtend(sys, mem, labels, l);
        labels := labels + [l];
      case OfHost(Do(move)) =>
        var ls := HostIsMirrored(sys, j, st, move);
        if ls == [] {
        } else {
          RunExtend(sys, mem, labels, ls[0]);
          labels := labels + [ls[0]];
        }
      case _ => ArrivalIsMirrored(sys, j, st, m);
    }
  }

  lemma InitIsMirrored(sys: Sys, mem: seq<Byte>)
    requires sys.psPerClock > 0 && sys.maxChunk > 0
    ensures Mirrors(JointRun(sys, mem, []), Run(sys, mem, []))
  {
    var j, st := JointInit(sys, mem), Init(sys, mem);
    assert j.a.rx + j.h.h2d[0..] == st.h2d;
  }

  // ---------------------------------------------------------------------------
  // Each program's part in it

  function AdapterPart(ms: seq<Moment>): seq<A.Moment> {
    if ms == [] then []
    else AdapterPart(ms[..|ms| - 1]) + if ms[|ms| - 1].OfAdapter? then [ms[|ms| - 1].am] else []
  }

  function HostPart(ms: seq<Moment>): seq<P.Moment> {
    if ms == [] then [] else HostPart(ms[..|ms| - 1]) + if ms[|ms| - 1].OfHost? then [ms[|ms| - 1].hm] else []
  }

  /** How many messages become visible to the adapter, or to the host, in the course of its run. */
  function AdapterSees(ms: seq<A.Moment>): nat {
    if ms == [] then 0
    else AdapterSees(ms[..|ms| - 1]) + if ms[|ms| - 1].Arrive? then |ms[|ms| - 1].ms| else 0
  }

  function HostSees(ms: seq<P.Moment>): nat {
    if ms == [] then 0
    else HostSees(ms[..|ms| - 1]) + if ms[|ms| - 1].Arrive? then |ms[|ms| - 1].ms| else 0
  }

  /** Side by side each program runs exactly as it does alone, given what it gets to see. */
  lemma {:induction false} PartsRunAlone(sys: Sys, mem: seq<Byte>, ms: seq<Moment>)
    requires sys.psPerClock > 0 && sys.maxChunk > 0
    ensures var j := JointRun(sys, mem, ms);
            && j.a == A.AfterAll(sys, JointInit(sys, mem).a, AdapterPart(ms))
            && j.h == P.AfterAll(sys, JointInit(sys, mem).h, HostPart(ms))
  {
    hide A.After, P.After;
    if ms != [] {
      var before, m := ms[..|ms| - 1], ms[|ms| - 1];
      PartsRunAlone(sys, mem, before);
      if m.OfAdapter? {
        assert (AdapterPart(before) + [m.am])[..|AdapterPart(before)|] == AdapterPart(before);
        assert HostPart(ms) == HostPart(before);
      } else {
        assert (HostPart(before) + [m.hm])[..|HostPart(before)|] == HostPart(before);
        assert AdapterPart(ms) == AdapterPart(before);
      }
    }
  }

  lemma {:induction false} PartsSee(sys: Sys, mem: seq<Byte>, ms: seq<Moment>)
    requires sys.psPerClock > 0 && sys.maxChunk > 0
    ensures JointRun(sys, mem, ms).toAdapter == AdapterSees(AdapterPart(ms))
    ensures JointRun(sys, mem, ms).toHost == HostSees(HostPart(ms))
  {
    hide A.After, P.After;
    if ms != [] {
      var before, m := ms[..|ms| - 1], ms[|ms| - 1];
      PartsSee(sys, mem, before);
      if m.OfAdapter? {
        assert (AdapterPart(before) + [m.am])[..|AdapterPart(before)|] == AdapterPart(before);
        assert HostPart(ms) == HostPart(before);
      } else {
        assert (HostPart(before) + [m.hm])[..|HostPart(before)|] == HostPart(before);
        assert AdapterPart(ms) == AdapterPart(before);
      }
    }
  }

  /** An adapter run and a host run can take place side by side: in some interleaving, whatever either of them
      sees the other has sent before. */
  ghost predicate FitTogether(sys: Sys, mem: seq<Byte>, ams: seq<A.Moment>, hms: seq<P.Moment>)
    requires sys.psPerClock > 0 && sys.maxChunk > 0
  {
    exists ms :: Possible(sys, mem, ms) && AdapterPart(ms) == ams && HostPart(ms) == hms
  }

  /** Runs of the two programs alone, such as the methods of `AdapterSim` and `ProbeSim` are proved to make, meet
      in a run of the system whenever they fit together. */
  lemma {:induction false} ProgramRunsMeet(sys: Sys, mem: seq<Byte>, ams: seq<A.Moment>, hms: seq<P.Moment>)
    returns (labels: seq<Label>)
    requires sys.psPerClock > 0 && sys.maxChunk > 0 && FitTogether(sys, mem, ams, hms)
    ensures var init := JointInit(sys, mem);
            var a, h := A.AfterAll(sys, init.a, ams), P.AfterAll(sys, init.h, hms);
            Mirrors(Joint(a, h, AdapterSees(ams), HostSees(hms)), Run(sys, mem, labels))
  {
    hide Run, Mirrors, JointRun, A.AfterAll, P.AfterAll;
    var ms :| Possible(sys, mem, ms) && AdapterPart(ms) == ams && HostPart(ms) == hms;
    PartsRunAlone(sys, mem, ms);
    PartsSee(sys, mem, ms);
    labels := ProgramsAreTheSystem(sys, mem, ms);
  }

  /** What this means for the programs. Whatever they do and whenever they see it: no completion goes to a dead
      slot; while the adapter is in its main loop, libttsim's calls, host memory and the completions sent are
      those of the sequential machine; the host sees a prefix of these completions, for a prefix of the requests
      it issued, each for its own request if none was posted; and in a synchronized run the clocks stay within the
      latencies of each other. */
  lemma {:induction false} ProgramsLookSequential(sys: Sys, mem: seq<Byte>, ms: seq<Moment>)
    requires Valid(sys) && Possible(sys, mem, ms)
    ensures var j := JointRun(sys, mem, ms);
            var a, h := j.a.a, j.h.h;
            && !a.flags.fault
            && (a.pc.Idle? ==> SeqRun(sys, mem, a.hist.events) == SeqState(a.hist.log, h.mem, a.hist.replies))
            && Requested(a.hist.events) <= h.issued
            && h.got <= SeqRun(sys, mem, a.hist.events).replies
            && ((forall i :: 0 <= i < |h.issued| ==> !h.issued[i].posted) ==> Matched(h.issued, h.got))
            && (sys.sync ==> a.port.now <= h.port.now + sys.host.latency &&
                             h.port.now <= a.port.now + sys.dev.latency)
  {
    var labels := ProgramsAreTheSystem(sys, mem, ms);
    OneOutstandingDma(sys, mem, labels);
    LooksSequential(sys, mem, labels);
    HostSeesSequentialDevice(sys, mem, labels);
    if sys.sync {
      Causality(sys, mem, labels);
    }
    var h := Run(sys, mem, labels).h;
    if forall i :: 0 <= i < |h.issued| ==> !h.issued[i].posted {
      CompletionsMatchRequests(sys, mem, labels);
    }
    hide Run, JointRun, SeqRun, Requested, Requests, Completions;
  }
}
