/** Every fair schedule ends every call: not just some cooperation, but any in which each side keeps getting its
    turns and the host does not neglect any of its duties for good. */
module Fairness {
  import opened Link
  import opened HostMemory
  import opened Device
  import opened System
  import opened Timing
  import opened DmaSafety
  import opened Transparency
  import opened Progress
  import opened Returning

  /** What must happen again and again. */
  datatype Duty = RunDevice | SendSync | PollRing | Advance

  /** A step does a duty; to advance is to move the clock forward, however little, if that is allowed at all. */
  ghost predicate Does(sys: Sys, st: St, l: Label, d: Duty) {
    match d
    case RunDevice => l.Adapter?
    case SendSync => l == Peer(HSend)
    case PollRing => l == Peer(HPoll)
    case Advance =>
      && l.Peer? && l.move.HAdvance? && MayAdvance(sys, st.h.port, l.move.t)
      && (st.h.port.now < Deadline(sys.host, st.h.port) ==> st.h.port.now < l.move.t)
  }

  /** The labels of a run that goes on with the first `n` steps of a schedule. */
  function After(labels: seq<Label>, sched: nat -> Label, n: nat): seq<Label> {
    if n == 0 then labels else After(labels, sched, n - 1) + [sched(n - 1)]
  }

  /** An endless schedule of cooperative steps in which each duty is done again and again. */
  ghost predicate Fair(sys: Sys, mem: seq<Byte>, labels: seq<Label>, sched: nat -> Label)
    requires sys.psPerClock > 0 && sys.maxChunk > 0
  {
    && (forall n: nat :: Cooperative(sched(n)))
    && forall n: nat, d: Duty :: Recurs(sys, mem, labels, sched, n, d)
  }

  ghost predicate Recurs(sys: Sys, mem: seq<Byte>, labels: seq<Label>, sched: nat -> Label, n: nat, d: Duty)
    requires sys.psPerClock > 0 && sys.maxChunk > 0
  {
    exists k: nat :: Falls(sys, mem, labels, sched, n, d, k)
  }

  /** Step `k` of the schedule, not before step `n`, does the duty. */
  ghost predicate Falls(sys: Sys, mem: seq<Byte>, labels: seq<Label>, sched: nat -> Label, n: nat, d: Duty, k: nat)
    requires sys.psPerClock > 0 && sys.maxChunk > 0
  {
    n <= k && Does(sys, Run(sys, mem, After(labels, sched, k)), sched(k), d)
  }

  // ---------------------------------------------------------------------------
  // What helps

  /** The duty that takes the call on: the host's, as long as it can do anything for a sub-operation in flight. */
  ghost function Helpful(sys: Sys, st: St): Duty {
    if !InFlight(st.a) || Blocked(sys.host, st.h.port, st.d2h) then RunDevice
    else if SyncOwed(true, sys.host, st.h.port) then SendSync
    else if Due(true, st.h.port, st.d2h) || Peeked(st.h.port, st.d2h) != st.h.port then PollRing
    else Advance
  }

  /** The turns of the pump count only while it is up to the adapter. */
  ghost function OwnTurns(sys: Sys, st: St): nat {
    if Helpful(sys, st).RunDevice? then Turns(sys, st) else 0
  }

  /** The call is closer to its end. */
  ghost predicate Down(sys: Sys, st: St, st': St)
    requires !st.a.pc.Idle? && !st'.a.pc.Idle?
  {
    (CallsLeft(sys, st.a), Stage(st.a), BytesLeft(st.a), One(InFlight(st.a)), Wait(sys, st), Chores(sys, st),
    OwnTurns(sys, st)
    decreases to
    CallsLeft(sys, st'.a), Stage(st'.a), BytesLeft(st'.a), One(InFlight(st'.a)), Wait(sys, st'), Chores(sys, st'),
    OwnTurns(sys, st'))
  }

  /** It is as far from its end as before, and the same duty would help. */
  ghost predicate Level(sys: Sys, st: St, st': St)
    requires !st.a.pc.Idle? && !st'.a.pc.Idle?
  {
    && CallsLeft(sys, st'.a) == CallsLeft(sys, st.a) && Stage(st'.a) == Stage(st.a)
    && BytesLeft(st'.a) == BytesLeft(st.a) && InFlight(st'.a) == InFlight(st.a)
    && Wait(sys, st') == Wait(sys, st) && Chores(sys, st') == Chores(sys, st)
    && OwnTurns(sys, st') == OwnTurns(sys, st) && Helpful(sys, st') == Helpful(sys, st)
  }

  // ---------------------------------------------------------------------------
  // Any step of the host

  /** Less simulated time is left, or less work at this point in time. */
  ghost predicate Sooner(sys: Sys, st: St, st': St) {
    || TimeAhead(sys, st') < TimeAhead(sys, st)
    || (TimeAhead(sys, st') == TimeAhead(sys, st) && Work(sys, st') < Work(sys, st))
  }

  lemma HostSteps(sys: Sys, st: St, move: HostMove)
    requires Valid(sys) && sys.sync && st.a.pc.Pump? && Cooperative(Peer(move))
    ensures var st' := Step(sys, st, Peer(move));
            && (st' == st || Sooner(sys, st, st'))
            && (Does(sys, st, Peer(move), Helpful(sys, st)) && InFlight(st.a) ==> Sooner(sys, st, st'))
  {
    match move {
      case HSend => hide Requests, RoundTrip;
      case HPoll => HostPolls(sys, st);
      case HAdvance(t) => hide Requests, RoundTrip;
    }
  }

  lemma HostPolls(sys: Sys, st: St)
    requires Valid(sys) && sys.sync && st.a.pc.Pump?
    ensures var st' := Step(sys, st, Peer(HPoll));
            if Due(true, st.h.port, st.d2h) || Peeked(st.h.port, st.d2h) != st.h.port then Sooner(sys, st, st')
            else st' == st
  {
    hide RoundTrip, ServeRead, ServeWrite, Deadline;
    if Due(true, st.h.port, st.d2h) {
      assert Requests(st.d2h) == (if IsRequest(st.d2h[0].body) then [st.d2h[0]] else []) + Requests(st.d2h[1..]);
      hide Requests;
    }
  }

  lemma HostStepsQuietly(sys: Sys, st: St, move: HostMove)
    requires sys.psPerClock > 0 && sys.maxChunk > 0 && Cooperative(Peer(move)) && Undisturbed(st.a, st.h2d)
    ensures var st' := Step(sys, st, Peer(move));
            st'.a == st.a && st'.h.issued == st.h.issued && Undisturbed(st'.a, st'.h2d)
  {
    HostLeavesAdapter(sys, st, move);
    hide ServeRead, ServeWrite, Deadline;
  }

  /** The call goes on: events and requests stay as they are, and it is closer to its end, or level if the duty
      that would have helped was not done. */
  ghost predicate GoesOn(sys: Sys, st: St, l: Label, st': St)
    requires !st.a.pc.Idle?
  {
    && st'.a.hist.events == st.a.hist.events && st'.h.issued == st.h.issued && Undisturbed(st'.a, st'.h2d)
    && (st'.a.pc.Idle? || Down(sys, st, st') || (Level(sys, st, st') && !Does(sys, st, l, Helpful(sys, st))))
  }

  lemma HostGoesOn(sys: Sys, st: St, move: HostMove)
    requires Valid(sys) && sys.sync && Cooperative(Peer(move)) && !st.a.pc.Idle? && Undisturbed(st.a, st.h2d)
    requires st.a.pc.Pump? ==> TimeAhead(sys, st) >= 0 && TimeAhead(sys, Step(sys, st, Peer(move))) >= 0
    ensures GoesOn(sys, st, Peer(move), Step(sys, st, Peer(move)))
  {
    var st' := Step(sys, st, Peer(move));
    HostStepsQuietly(sys, st, move);
    if st.a.pc.Pump? {
      HostSteps(sys, st, move);
    }
    hide Step, Undisturbed, CallsLeft, BytesLeft, TimeAhead, Work, PumpRank, Blocked;
    if st.a.pc.Pump? && Sooner(sys, st, st') {
      SoonerIsDown(sys, st, st');
    }
  }

  /** Sooner is closer, whosever turn it is. */
  lemma SoonerIsDown(sys: Sys, st: St, st': St)
    requires st.a.pc.Pump? && st'.a.pc.Pump? && Sooner(sys, st, st')
    requires CallsLeft(sys, st'.a) == CallsLeft(sys, st.a) && BytesLeft(st'.a) == BytesLeft(st.a)
    requires InFlight(st'.a) == InFlight(st.a)
    requires TimeAhead(sys, st) >= 0 && TimeAhead(sys, st') >= 0
    ensures Down(sys, st, st')
  {
    hide CallsLeft, BytesLeft, TimeAhead, Work, Blocked;
  }

  // ---------------------------------------------------------------------------
  // Any step of the adapter

  /** A blocked pump goes round without effect. */
  lemma BlockedTurns(sys: Sys, st: St, pick: nat)
    requires Valid(sys) && sys.sync && !st.a.flags.fault && Undisturbed(st.a, st.h2d)
    requires InFlight(st.a) && Blocked(sys.dev, st.a.port, st.h2d)
    ensures var st' := Step(sys, st, Adapter(pick));
            st'.a.pc.Pump? && st' == st.(a := st.a.(pc := st.a.pc.(phase := st'.a.pc.phase)))
  {
    hide CallStep, BeginMmio, BeginClocks, Continue, Oversized, Consume;
  }

  /** Whatever the pump does while a sub-operation is in flight, it leaves the host alone, and sends nothing but
      a sync it owes. */
  lemma PumpLeavesHost(sys: Sys, st: St, pick: nat)
    requires Valid(sys) && sys.sync && !st.a.flags.fault && InFlight(st.a) && Undisturbed(st.a, st.h2d)
    ensures var st' := Step(sys, st, Adapter(pick));
            st'.h == st.h && (st'.d2h == st.d2h || Work(sys, st') < Work(sys, st))
  {
    hide CallStep, BeginMmio, BeginClocks, Consume, Oversized, PumpTarget, Peeked;
    RequestsAppend(st.d2h, Stamped(sys.dev, st.a.port, DSync));
    assert Requests(st.d2h) + [] == Requests(st.d2h);
    hide Requests;
  }

  lemma BlockedIsLevel(sys: Sys, st: St, st': St)
    requires InFlight(st.a) && !Blocked(sys.host, st.h.port, st.d2h)
    requires st'.a.pc.Pump? && st' == st.(a := st.a.(pc := st.a.pc.(phase := st'.a.pc.phase)))
    ensures Level(sys, st, st') && !Helpful(sys, st).RunDevice?
  {
    hide Blocked, Requests, RoundTrip, EntryOf;
  }

  /** Outside a wait for the host, nearer is closer. */
  lemma NearerIsDown(sys: Sys, st: St, st': St)
    requires !st.a.pc.Idle? && !st'.a.pc.Idle? && Nearer(sys, st, st') && !InFlight(st.a)
    requires st.a.pc.Pump? ==> TimeAhead(sys, st) >= 0
    requires st'.a.pc.Pump? ==> TimeAhead(sys, st') >= 0
    ensures Down(sys, st, st')
  {
    NearerCounts(sys, st, st');
    hide Nearer, CallsLeft, BytesLeft, Wait, Chores, Turns, Blocked, Stage;
  }

  /** With a sub-operation in flight, the adapter's progress counts if it is up to the adapter. */
  lemma FlightIsDown(sys: Sys, st: St, st': St)
    requires InFlight(st.a) && !st'.a.pc.Idle? && Nearer(sys, st, st')
    requires st'.h == st.h && (st'.d2h == st.d2h || Work(sys, st') < Work(sys, st))
    requires TimeAhead(sys, st) >= 0 && (st'.a.pc.Pump? ==> TimeAhead(sys, st') >= 0)
    ensures Down(sys, st, st') || (Level(sys, st, st') && !Helpful(sys, st).RunDevice?)
  {
    hide CallsLeft, BytesLeft, TimeAhead, Work, PumpRank, Blocked;
  }

  lemma NoFault(sys: Sys, mem: seq<Byte>, labels: seq<Label>)
    requires Valid(sys)
    ensures !Run(sys, mem, labels).a.flags.fault
  {
    RunKeepsDma(sys, mem, labels);
    hide Run;
  }

  lemma AdapterGoesOn(sys: Sys, mem: seq<Byte>, labels: seq<Label>, pick: nat)
    requires Valid(sys) && sys.sync && KeepMoving(sys.dev, sys.host)
    requires var st := Run(sys, mem, labels); !st.a.pc.Idle? && Undisturbed(st.a, st.h2d)
    ensures GoesOn(sys, Run(sys, mem, labels), Adapter(pick), Step(sys, Run(sys, mem, labels), Adapter(pick)))
  {
    var st, st' := Run(sys, mem, labels), Step(sys, Run(sys, mem, labels), Adapter(pick));
    hide Run, Step, Undisturbed, Blocked, Nearer, Down, Level, CallMoved, InFlight, TimeAhead, Work, Turns, Terminates;
    RunExtend(sys, mem, labels, Adapter(pick));
    NoFault(sys, mem, labels);
    WaitIsTime(sys, mem, labels);
    WaitIsTime(sys, mem, labels + [Adapter(pick)]);
    if InFlight(st.a) {
      InFlightIsPump(st.a);
      if Blocked(sys.dev, st.a.port, st.h2d) {
        NeverBothBlocked(sys, mem, labels);
        BlockedTurns(sys, st, pick);
        BlockedIsLevel(sys, st, st');
      } else {
        AdapterCallMoves(sys, mem, labels, pick);
        MovedMeans(sys, st, st');
        PumpLeavesHost(sys, st, pick);
        if !st'.a.pc.Idle? {
          FlightIsDown(sys, st, st');
        }
      }
    } else {
      AdapterCallMoves(sys, mem, labels, pick);
      MovedMeans(sys, st, st');
      if !st'.a.pc.Idle? {
        NearerIsDown(sys, st, st');
      }
    }
  }

  lemma InFlightIsPump(a: Dev)
    requires InFlight(a)
    ensures a.pc.Pump?
  {
  }

  // ---------------------------------------------------------------------------
  // The call ends

  lemma StepGoesOn(sys: Sys, mem: seq<Byte>, labels: seq<Label>, l: Label)
    requires Valid(sys) && sys.sync && KeepMoving(sys.dev, sys.host) && Cooperative(l)
    requires var st := Run(sys, mem, labels); !st.a.pc.Idle? && Undisturbed(st.a, st.h2d)
    ensures GoesOn(sys, Run(sys, mem, labels), l, Run(sys, mem, labels + [l]))
  {
    RunExtend(sys, mem, labels, l);
    WaitIsTime(sys, mem, labels);
    WaitIsTime(sys, mem, labels + [l]);
    hide Run, Step, Undisturbed, GoesOn, TimeAhead, Terminates;
    match l
    case Adapter(pick) => AdapterGoesOn(sys, mem, labels, pick);
    case Peer(move) =>
      SamePump(sys, Run(sys, mem, labels), move);
      HostGoesOn(sys, Run(sys, mem, labels), move);
  }

  lemma SamePump(sys: Sys, st: St, move: HostMove)
    requires sys.psPerClock > 0 && sys.maxChunk > 0
    ensures Step(sys, st, Peer(move)).a == st.a
  {
    HostLeavesAdapter(sys, st, move);
    hide HostStep;
  }

  /** From step `n` on, with the duty that helps to be done at step `k`. */
  lemma {:induction false} EndsFrom(sys: Sys, mem: seq<Byte>, labels: seq<Label>, sched: nat -> Label, n: nat, k: nat,
                                    st: St) returns (end: nat)
    requires Valid(sys) && sys.sync && KeepMoving(sys.dev, sys.host) && Fair(sys, mem, labels, sched)
    requires st == Run(sys, mem, After(labels, sched, n)) && !st.a.pc.Idle? && Undisturbed(st.a, st.h2d)
    requires Falls(sys, mem, labels, sched, n, Helpful(sys, st), k)
    ensures Completed(sys, mem, st, Run(sys, mem, After(labels, sched, end)))
    decreases CallsLeft(sys, st.a), Stage(st.a), BytesLeft(st.a), One(InFlight(st.a)), Wait(sys, st),
              Chores(sys, st), OwnTurns(sys, st), k - n
  {
    hide Run, CallsLeft, Stage, BytesLeft, InFlight, Wait, Chores, OwnTurns, Helpful, SeqRun, Undisturbed, KeepMoving,
      Terminates, Does, Cooperative;
    var l := sched(n);
    StepGoesOn(sys, mem, After(labels, sched, n), l);
    var st' := Run(sys, mem, After(labels, sched, n + 1));
    if st'.a.pc.Idle? {
      LooksSequential(sys, mem, After(labels, sched, n + 1));
      end := n + 1;
    } else if Down(sys, st, st') {
      assert Recurs(sys, mem, labels, sched, n + 1, Helpful(sys, st'));
      var k' :| Falls(sys, mem, labels, sched, n + 1, Helpful(sys, st'), k');
      end := EndsFrom(sys, mem, labels, sched, n + 1, k', st');
    } else {
      assert k != n;
      end := EndsFrom(sys, mem, labels, sched, n + 1, k, st');
    }
  }

  /** Every fair schedule ends every call. From every state of a synchronized run over links that cannot get stuck
      in which the adapter is inside a libttsim call, and nobody is ending the simulation: whatever the schedule,
      as long as it asks for nothing new and neglects no duty for good, the call returns after finitely many
      steps, having done what the sequential machine does. */
  lemma {:induction false} EveryFairScheduleEndsTheCall(sys: Sys, mem: seq<Byte>, labels: seq<Label>,
                                                        sched: nat -> Label) returns (end: nat)
    requires Valid(sys) && sys.sync && KeepMoving(sys.dev, sys.host) && Fair(sys, mem, labels, sched)
    requires var st := Run(sys, mem, labels); !st.a.pc.Idle? && Undisturbed(st.a, st.h2d)
    ensures Completed(sys, mem, Run(sys, mem, labels), Run(sys, mem, After(labels, sched, end)))
  {
    hide Run, Helpful, Completed, Undisturbed, KeepMoving;
    var st := Run(sys, mem, labels);
    assert Recurs(sys, mem, labels, sched, 0, Helpful(sys, st));
    var k :| Falls(sys, mem, labels, sched, 0, Helpful(sys, st), k);
    end := EndsFrom(sys, mem, labels, sched, 0, k, st);
  }

  // ---------------------------------------------------------------------------
  // There are fair schedules

  /** The duties in turn, beginning with the `n`-th. */
  function InTurn(sys: Sys, st: St, n: nat): Label {
    if n % 4 == 0 then Adapter(0)
    else if n % 4 == 1 then Peer(HSend)
    else if n % 4 == 2 then Peer(HPoll)
    else Peer(HAdvance(Later(st.h.port.now, Deadline(sys.host, st.h.port))))
  }

  /** The state after `n` duties. */
  function Turned(sys: Sys, st: St, n: nat): St
    requires sys.psPerClock > 0 && sys.maxChunk > 0
  {
    if n == 0 then st else Step(sys, Turned(sys, st, n - 1), InTurn(sys, Turned(sys, st, n - 1), n - 1))
  }

  function RoundRobin(sys: Sys, st: St): nat -> Label
    requires sys.psPerClock > 0 && sys.maxChunk > 0
  {
    (n: nat) => InTurn(sys, Turned(sys, st, n), n)
  }

  lemma {:induction false} RobinRuns(sys: Sys, mem: seq<Byte>, labels: seq<Label>, n: nat)
    requires sys.psPerClock > 0 && sys.maxChunk > 0
    ensures var st := Run(sys, mem, labels);
            Run(sys, mem, After(labels, RoundRobin(sys, st), n)) == Turned(sys, st, n)
  {
    hide Run, Step, InTurn;
    var sched := RoundRobin(sys, Run(sys, mem, labels));
    if n > 0 {
      RobinRuns(sys, mem, labels, n - 1);
      RunExtend(sys, mem, After(labels, sched, n - 1), sched(n - 1));
    }
  }

  function Place(d: Duty): nat {
    match d case RunDevice => 0 case SendSync => 1 case PollRing => 2 case Advance => 3
  }

  lemma InTurnDoes(sys: Sys, st: St, n: nat, d: Duty)
    requires sys.sync && Inv(sys, st)
    ensures Does(sys, st, InTurn(sys, st, 4 * n + Place(d)), d)
  {
    NowByDeadline(sys, st);
    hide Inv, Deadline;
  }

  lemma TurnDoes(sys: Sys, mem: seq<Byte>, labels: seq<Label>, st: St, n: nat, d: Duty)
    requires sys.psPerClock > 0 && sys.maxChunk > 0 && sys.sync
    requires Run(sys, mem, After(labels, RoundRobin(sys, st), 4 * n + Place(d))) == Turned(sys, st, 4 * n + Place(d))
    requires Inv(sys, Turned(sys, st, 4 * n + Place(d)))
    ensures Falls(sys, mem, labels, RoundRobin(sys, st), n, d, 4 * n + Place(d))
  {
    hide Run, Turned, After, Inv, InTurn, Does;
    InTurnDoes(sys, Turned(sys, st, 4 * n + Place(d)), n, d);
  }

  lemma NowByDeadline(sys: Sys, st: St)
    requires sys.sync && Inv(sys, st)
    ensures st.h.port.now <= Deadline(sys.host, st.h.port)
  {
  }

  lemma AlwaysCooperative(sys: Sys, st: St)
    requires sys.psPerClock > 0 && sys.maxChunk > 0
    ensures forall n: nat :: Cooperative(RoundRobin(sys, st)(n))
  {
    hide Turned, Deadline;
  }

  lemma RobinIsFair(sys: Sys, mem: seq<Byte>, labels: seq<Label>)
    requires Valid(sys) && sys.sync
    ensures Fair(sys, mem, labels, RoundRobin(sys, Run(sys, mem, labels)))
  {
    hide Run, Turned, Falls, Inv, After, RoundRobin;
    var st := Run(sys, mem, labels);
    var sched := RoundRobin(sys, st);
    forall n: nat, d: Duty ensures Recurs(sys, mem, labels, sched, n, d) {
      RobinRuns(sys, mem, labels, 4 * n + Place(d));
      RunKeeps(sys, mem, After(labels, sched, 4 * n + Place(d)));
      TurnDoes(sys, mem, labels, st, n, d);
    }
    AlwaysCooperative(sys, st);
  }

  lemma {:induction false} AfterIsMore(labels: seq<Label>, sched: nat -> Label, n: nat)
    ensures After(labels, sched, n) == labels + After([], sched, n)
  {
    if n > 0 {
      AfterIsMore(labels, sched, n - 1);
    }
  }

  lemma {:induction false} AllCooperative(sched: nat -> Label, n: nat)
    requires forall i: nat :: Cooperative(sched(i))
    ensures forall l :: l in After([], sched, n) ==> Cooperative(l)
  {
    hide Cooperative;
    if n > 0 {
      AllCooperative(sched, n - 1);
    }
  }

  /** So every call can return: there is cooperation that takes it to its end. */
  lemma {:induction false} EveryCallReturns(sys: Sys, mem: seq<Byte>, labels: seq<Label>) returns (more: seq<Label>)
    requires Valid(sys) && sys.sync && KeepMoving(sys.dev, sys.host)
    requires var st := Run(sys, mem, labels); !st.a.pc.Idle? && Undisturbed(st.a, st.h2d)
    ensures forall l :: l in more ==> Cooperative(l)
    ensures Completed(sys, mem, Run(sys, mem, labels), Run(sys, mem, labels + more))
  {
    hide Run, Completed, Undisturbed, KeepMoving, Recurs, RoundRobin, Cooperative;
    var sched := RoundRobin(sys, Run(sys, mem, labels));
    RobinIsFair(sys, mem, labels);
    var end := EveryFairScheduleEndsTheCall(sys, mem, labels, sched);
    AfterIsMore(labels, sched, end);
    AllCooperative(sched, end);
    more := After([], sched, end);
  }
}
