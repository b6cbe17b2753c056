/** The probe as it is written: the peer that issues one MMIO access at a time and serves DMA while it waits.
    Its methods take only host steps of the system in `System`. */
module Probe {
  import opened Link
  import opened HostMemory
  import opened Device
  import opened System

  datatype Moment = Do(move: HostMove) | Arrive(ms: seq<Msg<D2H>>)

  function After(sys: Sys, st: St, m: Moment): St {
    match m
    case Do(move) => HostStep(sys, st, move)
    case Arrive(ms) => st.(d2h := st.d2h + ms)
  }

  function AfterAll(sys: Sys, st: St, ms: seq<Moment>): St {
    if ms == [] then st else After(sys, AfterAll(sys, st, ms[..|ms| - 1]), ms[|ms| - 1])
  }

  /** A host and the script of what is still to become visible to it, poll by poll. */
  datatype Local = Local(st: St, feed: seq<seq<Msg<D2H>>>)

  /** What becomes visible in the course of some moments. */
  function Seen(ms: seq<Moment>): seq<seq<Msg<D2H>>> {
    if ms == [] then []
    else Seen(ms[..|ms| - 1]) + if ms[|ms| - 1].Arrive? then [ms[|ms| - 1].ms] else []
  }

  /** The host can get from `l` to `l'`, and what it sees on the way is what the script says. */
  ghost predicate Reaches(sys: Sys, l: Local, l': Local) {
    exists ms :: AfterAll(sys, l.st, ms) == l'.st && l.feed == Seen(ms) + l'.feed
  }

  lemma ReachesSelf(sys: Sys, l: Local)
    ensures Reaches(sys, l, l)
  {
    assert AfterAll(sys, l.st, []) == l.st && Seen([]) + l.feed == l.feed;
  }

  lemma AfterOneMore(sys: Sys, st: St, ms: seq<Moment>, m: Moment)
    ensures AfterAll(sys, st, ms + [m]) == After(sys, AfterAll(sys, st, ms), m)
    ensures Seen(ms + [m]) == Seen(ms) + if m.Arrive? then [m.ms] else []
  {
    assert (ms + [m])[..|ms|] == ms;
  }

  lemma ReachesStep(sys: Sys, l: Local, l': Local, move: HostMove)
    requires Reaches(sys, l, l')
    ensures Reaches(sys, l, l'.(st := HostStep(sys, l'.st, move)))
  {
    hide HostStep;
    var ms :| AfterAll(sys, l.st, ms) == l'.st && l.feed == Seen(ms) + l'.feed;
    AfterOneMore(sys, l.st, ms, Do(move));
    assert Seen(ms) + [] == Seen(ms);
  }

  /** What the script says next becomes visible. */
  lemma ReachesArrival(sys: Sys, l: Local, l': Local)
    requires Reaches(sys, l, l') && l'.feed != []
    ensures Reaches(sys, l, Local(l'.st.(d2h := l'.st.d2h + l'.feed[0]), l'.feed[1..]))
  {
    hide HostStep;
    var ms :| AfterAll(sys, l.st, ms) == l'.st && l.feed == Seen(ms) + l'.feed;
    AfterOneMore(sys, l.st, ms, Arrive(l'.feed[0]));
    assert Seen(ms) + [l'.feed[0]] + l'.feed[1..] == Seen(ms) + l'.feed;
  }

  lemma {:induction false} AfterConcat(sys: Sys, st: St, ms: seq<Moment>, ms': seq<Moment>)
    ensures AfterAll(sys, st, ms + ms') == AfterAll(sys, AfterAll(sys, st, ms), ms')
    ensures Seen(ms + ms') == Seen(ms) + Seen(ms')
  {
    hide After;
    if ms' == [] {
      assert ms + ms' == ms && Seen(ms) + [] == Seen(ms);
    } else {
      var n := |ms'| - 1;
      AfterConcat(sys, st, ms, ms'[..n]);
      assert (ms + ms')[..|ms + ms'| - 1] == ms + ms'[..n];
      var last := if ms'[n].Arrive? then [ms'[n].ms] else [];
      assert Seen(ms) + Seen(ms'[..n]) + last == Seen(ms) + (Seen(ms'[..n]) + last);
    }
  }

  lemma ReachesTransitive(sys: Sys, l: Local, l': Local, l'': Local)
    requires Reaches(sys, l, l') && Reaches(sys, l', l'')
    ensures Reaches(sys, l, l'')
  {
    hide After;
    var ms :| AfterAll(sys, l.st, ms) == l'.st && l.feed == Seen(ms) + l'.feed;
    var ms' :| AfterAll(sys, l'.st, ms') == l''.st && l'.feed == Seen(ms') + l''.feed;
    AfterConcat(sys, l.st, ms, ms');
    assert Seen(ms) + (Seen(ms') + l''.feed) == Seen(ms) + Seen(ms') + l''.feed;
  }

  // ---------------------------------------------------------------------------
  // The rounds of a pump

  /** Where a round moves the clock: to the next thing to attend to, with `cap` no further than 1000 steps; by one
      step if unsynchronized; never back. */
  function NextStop(sys: Sys, stepPs: nat, cap: bool, p: Port): nat {
    var deadline := Earlier(p.inTs, p.lastOut + sys.host.interval);
    Later(p.now, if !sys.sync then p.now + stepPs
                 else if cap then Earlier(deadline, p.now + 1000 * stepPs) else deadline)
  }

  /** The ring has been polled dry: nothing on it is due, and the newest header has been seen. */
  predicate Dry(sys: Sys, st: St) {
    !Due(sys.sync, st.h.port, st.d2h) && Peeked(st.h.port, st.d2h) == st.h.port
  }

  /** What the script says next becomes visible, if it says anything. */
  function Arrived(l: Local): Local {
    if l.feed == [] then l else Local(l.st.(d2h := l.st.d2h + l.feed[0]), l.feed[1..])
  }

  /** `n` polls, what is sent becoming visible as the script says. */
  ghost predicate Polls(sys: Sys, n: nat, l: Local, l': Local) {
    if n == 0 then l' == l
    else exists m :: Polls(sys, n - 1, l, m) && l' == PolledOnce(sys, m)
  }

  function PolledOnce(sys: Sys, l: Local): Local {
    var seen := Arrived(l);
    seen.(st := HostStep(sys, seen.st, HPoll))
  }

  /** The first part of a round: a sync if one is owed, and polls. */
  ghost predicate Opens(sys: Sys, l: Local, l': Local) {
    exists n :: n > 0 && Polls(sys, n, l.(st := HostStep(sys, l.st, HSend)), l')
  }

  /** A full round: it polls dry, and then moves the clock. */
  ghost predicate Round(sys: Sys, stepPs: nat, cap: bool, l: Local, l': Local) {
    exists m :: Opens(sys, l, m) && Dry(sys, m.st) &&
                l' == m.(st := HostStep(sys, m.st, HAdvance(NextStop(sys, stepPs, cap, m.st.h.port))))
  }

  ghost predicate Rounds(sys: Sys, stepPs: nat, cap: bool, n: nat, l: Local, l': Local) {
    if n == 0 then l' == l
    else exists m :: Rounds(sys, stepPs, cap, n - 1, l, m) && Round(sys, stepPs, cap, m, l')
  }

  /** Full rounds, of which the last may be broken off while polling. */
  ghost predicate Pumps(sys: Sys, stepPs: nat, cap: bool, l: Local, l': Local) {
    exists n, m :: Rounds(sys, stepPs, cap, n, l, m) && (l' == m || Opens(sys, m, l'))
  }

  lemma OnePoll(sys: Sys, n: nat, l: Local, m: Local)
    requires Polls(sys, n, l, m)
    ensures Polls(sys, n + 1, l, PolledOnce(sys, m))
  {
    hide HostStep;
  }

  lemma OneRound(sys: Sys, stepPs: nat, cap: bool, n: nat, l: Local, m: Local, l': Local)
    requires Rounds(sys, stepPs, cap, n, l, m) && Round(sys, stepPs, cap, m, l')
    ensures Rounds(sys, stepPs, cap, n + 1, l, l')
  {
    hide Round;
  }

  // Rounds are host steps.

  lemma {:induction false} PollsReach(sys: Sys, n: nat, l: Local, l': Local)
    requires Polls(sys, n, l, l')
    ensures Reaches(sys, l, l')
  {
    hide HostStep, Reaches;
    ReachesSelf(sys, l);
    if n > 0 {
      var m :| Polls(sys, n - 1, l, m) && l' == PolledOnce(sys, m);
      PollsReach(sys, n - 1, l, m);
      if m.feed != [] { ReachesArrival(sys, l, m); }
      ReachesStep(sys, l, Arrived(m), HPoll);
    }
  }

  lemma OpensReaches(sys: Sys, l: Local, l': Local)
    requires Opens(sys, l, l')
    ensures Reaches(sys, l, l')
  {
    hide HostStep, Reaches, Polls;
    var sent := l.(st := HostStep(sys, l.st, HSend));
    var n :| n > 0 && Polls(sys, n, sent, l');
    ReachesSelf(sys, l);
    ReachesStep(sys, l, l, HSend);
    PollsReach(sys, n, sent, l');
    ReachesTransitive(sys, l, sent, l');
  }

  lemma {:induction false} RoundsReach(sys: Sys, stepPs: nat, cap: bool, n: nat, l: Local, l': Local)
    requires Rounds(sys, stepPs, cap, n, l, l')
    ensures Reaches(sys, l, l')
  {
    hide HostStep, Reaches, Opens, NextStop, Dry;
    ReachesSelf(sys, l);
    if n > 0 {
      var m :| Rounds(sys, stepPs, cap, n - 1, l, m) && Round(sys, stepPs, cap, m, l');
      RoundsReach(sys, stepPs, cap, n - 1, l, m);
      var o :| Opens(sys, m, o) && Dry(sys, o.st) &&
               l' == o.(st := HostStep(sys, o.st, HAdvance(NextStop(sys, stepPs, cap, o.st.h.port))));
      OpensReaches(sys, m, o);
      ReachesTransitive(sys, l, m, o);
      ReachesStep(sys, l, o, HAdvance(NextStop(sys, stepPs, cap, o.st.h.port)));
    }
  }

  lemma PumpsReach(sys: Sys, stepPs: nat, cap: bool, l: Local, l': Local)
    requires Pumps(sys, stepPs, cap, l, l')
    ensures Reaches(sys, l, l')
  {
    hide Rounds, Reaches, Opens;
    var n, m :| Rounds(sys, stepPs, cap, n, l, m) && (l' == m || Opens(sys, m, l'));
    RoundsReach(sys, stepPs, cap, n, l, m);
    if l' != m {
      OpensReaches(sys, m, l');
      ReachesTransitive(sys, l, m, l');
    }
  }

  // Rounds move time.

  lemma {:induction false} PollsKeepTime(sys: Sys, n: nat, l: Local, l': Local)
    requires Polls(sys, n, l, l')
    ensures l'.st.h.port.now == l.st.h.port.now
  {
    hide HostStep;
    if n > 0 {
      var m :| Polls(sys, n - 1, l, m) && l' == PolledOnce(sys, m);
      PollsKeepTime(sys, n - 1, l, m);
      PollKeepsTime(sys, Arrived(m).st);
    }
  }

  lemma PollKeepsTime(sys: Sys, st: St)
    ensures HostStep(sys, st, HPoll).h.port.now == st.h.port.now
  {
    hide ServeRead, ServeWrite;
  }

  /** Every full round leaves the clock moved on or at its deadline; unsynchronized, moved on by a step. */
  lemma RoundMovesTime(sys: Sys, stepPs: nat, cap: bool, l: Local, l': Local)
    requires stepPs > 0 && Round(sys, stepPs, cap, l, l')
    ensures var p, p' := l.st.h.port, l'.st.h.port;
            && p.now <= p'.now
            && if sys.sync then p.now < p'.now || Deadline(sys.host, p') <= p'.now else p'.now == p.now + stepPs
  {
    hide Polls;
    var m :| Opens(sys, l, m) && Dry(sys, m.st) &&
             l' == m.(st := HostStep(sys, m.st, HAdvance(NextStop(sys, stepPs, cap, m.st.h.port))));
    var sent := l.(st := HostStep(sys, l.st, HSend));
    var n :| n > 0 && Polls(sys, n, sent, m);
    PollsKeepTime(sys, n, sent, m);
  }

  lemma {:induction false} RoundsMoveTime(sys: Sys, stepPs: nat, cap: bool, n: nat, l: Local, l': Local)
    requires stepPs > 0 && n > 0 && Rounds(sys, stepPs, cap, n, l, l')
    ensures var p, p' := l.st.h.port, l'.st.h.port;
            && p.now <= p'.now
            && if sys.sync then p.now < p'.now || Deadline(sys.host, p') <= p'.now
               else p'.now == p.now + n * stepPs
  {
    hide Round, Deadline;
    var m :| Rounds(sys, stepPs, cap, n - 1, l, m) && Round(sys, stepPs, cap, m, l');
    if n > 1 {
      RoundsMoveTime(sys, stepPs, cap, n - 1, l, m);
      assert n * stepPs == (n - 1) * stepPs + stepPs;
    } else {
      assert n * stepPs == stepPs;
    }
    RoundMovesTime(sys, stepPs, cap, m, l');
  }

  class ProbeSim {
    const sys: Sys
    const stepPs: nat
    ghost const peer: Dev

    // pcie_if
    var rx: seq<Msg<D2H>>
    var tx: seq<Msg<H2D>>
    var lastOut: nat
    var inTs: nat
    var feed: seq<seq<Msg<D2H>>>       // what becomes visible on `rx` at each further poll
    ghost var stamps: seq<nat>

    // The file's globals
    var curTs: nat
    var hostMem: seq<Byte>

    // The MmioPending on the stack, if any: its address and whether it has a destination; and what a completion
    // leaves there
    var pending: Option<Key>
    var completed: Option<Reply>
    var fault: bool                    // a completion came in that nobody waits for
    ghost var issued: seq<Req>
    ghost var got: seq<Reply>

    ghost function OwnPort(): Port
      reads this
    {
      Port(curTs, lastOut, inTs, stamps)
    }

    ghost function View(): St
      reads this
    {
      St(peer, Host(OwnPort(), hostMem, issued, got), rx, tx)
    }

    ghost function Now(): Local
      reads this
    {
      Local(View(), feed)
    }

    /** An access is in progress. */
    ghost predicate Waiting()
      reads this
    {
      |issued| == |got| + 1
    }

    /** All accesses but one in progress are complete, each by its own completion. */
    ghost predicate Running()
      reads this
    {
      && !fault && Matched(issued, got)
      && (if Waiting() then completed.None? && pending == Some(Key(issued[|got|].isRead, issued[|got|].id))
          else |issued| == |got| && (completed.Some? || pending.None?) &&
               (completed.Some? ==> got != [] && completed.value == got[|got| - 1]))
    }

    constructor (sys: Sys, stepPs: nat, mem: seq<Byte>, feed: seq<seq<Msg<D2H>>>)
      ensures this.sys == sys && this.stepPs == stepPs && this.feed == feed
      ensures View().h == Init(sys, mem).h && tx == Init(sys, mem).h2d && rx == []
      ensures Running() && !Waiting()
    {
      this.sys, this.stepPs, this.feed, peer := sys, stepPs, feed, Init(sys, mem).a;
      rx, tx, lastOut, inTs, stamps := [], [Msg(sys.host.latency, DevCtrl(0))], 0, 0, [sys.host.latency];
      curTs, hostMem, pending, completed, fault, issued, got := 0, mem, None, None, false, [], [];
    }

    /** Allocate a slot, fill it and send it. */
    method Emit(body: H2D)
      modifies `tx, `lastOut, `stamps
      ensures View() == HostSay(sys, old(View()), body)
    {
      var stamp := curTs + sys.host.latency;
      lastOut, stamps := curTs, stamps + [stamp];
      tx := tx + [Msg(stamp, body)];
    }

    /** What the device has sent since the last poll becomes visible. */
    method Receive()
      modifies `rx, `feed
      ensures Now() == Arrived(old(Now()))
      ensures View() == old(View()).(d2h := rx)
      ensures |feed| == if old(feed) == [] then 0 else old(|feed|) - 1
      ensures old(feed) == [] ==> rx == old(rx)
    {
      if feed != [] {
        rx, feed := rx + feed[0], feed[1..];
      }
    }

    /** Handle one incoming message: serve DMA out of memory, or complete the access in progress. */
    method Poll() returns (some: bool)
      requires Running()
      modifies `rx, `feed, `inTs, `tx, `lastOut, `stamps, `hostMem, `completed, `got, `fault
      ensures Now() == PolledOnce(sys, old(Now()))
      ensures !some ==> Dry(sys, View())
      ensures |feed| == if old(feed) == [] then 0 else old(|feed|) - 1
      ensures |feed| < old(|feed|) || |rx| < old(|rx|) || (!some && |rx| == old(|rx|))
      ensures old(got) <= got
      ensures if fault then !Matched(issued, got) else Running()
    {
      hide HostStep;
      Receive();
      some := PollRing();
    }

    method PollRing() returns (some: bool)
      requires Running()
      modifies `rx, `inTs, `tx, `lastOut, `stamps, `hostMem, `completed, `got, `fault
      ensures View() == HostStep(sys, old(View()), HPoll)
      ensures if some then |rx| < old(|rx|) else rx == old(rx) && Dry(sys, View())
      ensures old(got) <= got
      ensures if fault then !Matched(issued, got) else Running()
    {
      hide HostConsume, Matched, WellFormed, Deadline;
      if rx == [] {
        return false;
      }
      inTs := rx[0].stamp;
      if sys.sync && inTs > curTs {
        return false;
      }
      var body := rx[0].body;
      rx := rx[1..];
      HandleMessage(body);
      return true;
    }

    /** The switch over the message types. */
    method HandleMessage(body: D2H)
      requires Running()
      modifies `tx, `lastOut, `stamps, `hostMem, `completed, `got, `fault
      ensures View() == HostConsume(sys, old(View()), body)
      ensures old(got) <= got
      ensures if fault then !Matched(issued, got) else Running()
    {
      hide ServeRead, ServeWrite, Matched;
      match body {
        case DRead(slot, addr, len) =>
          Emit(ReadComp(slot, ServeRead(hostMem, addr, len)));
        case DWrite(slot, addr, data) =>
          hostMem := ServeWrite(hostMem, addr, data);
          Emit(WriteComp(slot));
        case DReply(reply) => TakeCompletion(reply);
        case DSync =>
      }
    }

    /** A completion completes the access in progress; any other is a fault. */
    method TakeCompletion(reply: Reply)
      requires Running()
      modifies `completed, `got, `fault
      ensures got == old(got) + [reply]
      ensures if fault then !Matched(issued, got) else Running()
      ensures !fault ==> completed == Some(reply)
    {
      if completed.Some? || pending != Some(KeyOf(reply)) {
        fault := true;
      } else {
        completed := Some(reply);
      }
      assert (got + [reply])[|got|] == reply;
      got := got + [reply];
    }

    /** Poll until nothing more is found. */
    method PollAll() returns (ghost n: nat)
      requires Running()
      modifies `rx, `feed, `inTs, `tx, `lastOut, `stamps, `hostMem, `completed, `got, `fault
      ensures n > 0 && Polls(sys, n, old(Now()), Now())
      ensures !fault ==> Dry(sys, View())
      ensures old(got) <= got && |feed| <= old(|feed|) && (old(feed) != [] ==> |feed| < old(|feed|))
      ensures if fault then !Matched(issued, got) else Running()
    {
      hide HostStep, Matched, Dry, PolledOnce;
      n := 0;
      var some := true;
      while some && !fault
        invariant Polls(sys, n, old(Now()), Now()) && (n == 0 ==> some && !fault)
        invariant old(got) <= got && |feed| <= old(|feed|)
        invariant some && !fault && |feed| == old(|feed|) ==> feed == old(feed)
        invariant !some || fault ==> old(feed) == [] || |feed| < old(|feed|)
        invariant if fault then !Matched(issued, got) else Running()
        invariant !some ==> Dry(sys, View())
        decreases |feed|, |rx|, some && !fault
      {
        ghost var before := Now();
        some := Poll();
        OnePoll(sys, n, old(Now()), before);
        n := n + 1;
      }
    }

    /** Send a sync if one is owed. */
    method SyncOut()
      modifies `tx, `lastOut, `stamps
      ensures View() == HostStep(sys, old(View()), HSend)
    {
      if SyncOwed(sys.sync, sys.host, Port(curTs, lastOut, inTs, [])) {
        Emit(HSync);
      }
    }

    /** Let time advance to the next thing to attend to; with `cap`, no further than 1000 steps. */
    method Advance(cap: bool)
      modifies `curTs
      ensures curTs == NextStop(sys, stepPs, cap, old(OwnPort()))
      ensures View() == HostStep(sys, old(View()), HAdvance(curTs))
    {
      var next := curTs + stepPs;
      if sys.sync {
        var nextSync := lastOut + sys.host.interval;
        next := if inTs <= nextSync then inTs else nextSync;
        if cap && next > curTs + 1000 * stepPs {
          next := curTs + 1000 * stepPs;
        }
      }
      if next > curTs {
        curTs := next;
      }
    }

    /** One turn of a pumping loop: send an owed sync, poll dry, and let time advance, unless the access is complete
        by then. */
    method Turn(cap: bool) returns (full: bool)
      requires Running()
      modifies this
      ensures if full then Round(sys, stepPs, cap, old(Now()), Now()) && !fault else Opens(sys, old(Now()), Now())
      ensures !full ==> fault || (cap && completed.Some?)
      ensures full && cap ==> completed.None?
      ensures old(got) <= got && issued == old(issued)
      ensures if fault then !Matched(issued, got) else Running()
      ensures |feed| <= old(|feed|) && (old(feed) != [] ==> |feed| < old(|feed|))
    {
      hide HostStep, Matched, Dry, Polls, NextStop;
      SyncOut();
      ghost var n := PollAll();
      if fault || (cap && completed.Some?) {
        return false;
      }
      Advance(cap);
      return true;
    }

    /** Advance time and pump messages until the access completes, or no more is known of the peer. */
    method PumpUntil() returns (done: bool)
      requires Running()
      modifies this
      ensures Pumps(sys, stepPs, true, old(Now()), Now())
      ensures old(got) <= got && issued == old(issued)
      ensures if fault then !done && !Matched(issued, got) else Running()
      ensures if done then completed.Some? else fault || feed == []
      ensures !done && !fault && old(feed) != [] && stepPs > 0 ==>
                if sys.sync then curTs > old(curTs) || Deadline(sys.host, OwnPort()) <= curTs
                else curTs >= old(curTs) + stepPs
    {
      hide HostStep, Matched, Round, Opens, Deadline;
      ghost var n := 0;
      while completed.None?
        invariant Rounds(sys, stepPs, true, n, old(Now()), Now()) && (n == 0 ==> feed == old(feed))
        invariant old(got) <= got && issued == old(issued) && Running()
        decreases |feed|
      {
        if feed == [] {
          if n > 0 && stepPs > 0 {
            RoundsMoveTime(sys, stepPs, true, n, old(Now()), Now());
            AtLeastOnce(n, stepPs);
          }
          return false;
        }
        ghost var before := Now();
        var full := Turn(true);
        if !full {
          return !fault;
        }
        OneRound(sys, stepPs, true, n, old(Now()), before, Now());
        n := n + 1;
      }
      return true;
    }

    lemma AtLeastOnce(n: nat, d: nat)
      requires n > 0
      ensures n * d >= d
    {
    }

    /** Issue a request and wait for its completion: the only one to come in meanwhile. */
    method Access(r: Req) returns (done: bool, reply: Reply)
      requires WellFormed(r) && !r.posted && Running() && !Waiting()
      modifies this
      ensures Pumps(sys, stepPs, true, Local(HostStep(sys, old(View()), HIssue(r)), old(feed)), Now())
      ensures issued == old(issued) + [r] && old(got) <= got
      ensures done ==> Running() && !Waiting() && got == old(got) + [reply] && KeyOf(reply) == Key(r.isRead, r.id)
      ensures !done ==> feed == [] || (fault && !Matched(issued, got))
    {
      hide HostStep, Pumps;
      pending, completed := Some(Key(r.isRead, r.id)), None;
      Request(r);
      done := PumpUntil();
      reply := if done then completed.value else WrDone(r.id);
      pending := None;
    }

    /** Put the request on the ring. */
    method Request(r: Req)
      requires WellFormed(r)
      modifies `tx, `lastOut, `stamps, `issued
      ensures View() == HostStep(sys, old(View()), HIssue(r)) && issued == old(issued) + [r]
    {
      Emit(MmioReq(r));
      issued := issued + [r];
    }

    method MmioWrite(id: nat, bar: nat, offset: nat, src: seq<Byte>) returns (done: bool)
      requires Running() && !Waiting()
      modifies this
      ensures var r := Req(false, false, id, bar, offset, |src|, src);
              Pumps(sys, stepPs, true, Local(HostStep(sys, old(View()), HIssue(r)), old(feed)), Now())
      ensures issued == old(issued) + [Req(false, false, id, bar, offset, |src|, src)]
      ensures done ==> Running() && !Waiting() && got == old(got) + [WrDone(id)]
      ensures !done ==> feed == [] || (fault && !Matched(issued, got))
    {
      hide HostStep, Pumps;
      var reply;
      done, reply := Access(Req(false, false, id, bar, offset, |src|, src));
    }

    /** Read `len` bytes: those of the one completion that comes in. */
    method MmioRead(id: nat, bar: nat, offset: nat, len: nat) returns (done: bool, dst: seq<Byte>)
      requires len <= MAX_MMIO_LEN && Running() && !Waiting()
      modifies this
      ensures var r := Req(true, false, id, bar, offset, len, []);
              Pumps(sys, stepPs, true, Local(HostStep(sys, old(View()), HIssue(r)), old(feed)), Now())
      ensures issued == old(issued) + [Req(true, false, id, bar, offset, len, [])]
      ensures done ==> Running() && !Waiting() && got == old(got) + [RdDone(id, dst)]
      ensures !done ==> feed == [] || (fault && !Matched(issued, got))
    {
      hide HostStep, Pumps;
      var reply;
      done, reply := Access(Req(true, false, id, bar, offset, len, []));
      dst := if reply.RdDone? then reply.data else [];
    }

    /** Hold the link open, doing nothing but keeping time and serving the device. */
    method IdleHold()
      requires Running()
      modifies this
      ensures Pumps(sys, stepPs, false, old(Now()), Now())
      ensures issued == old(issued)
      ensures if fault then !Matched(issued, got) else feed == [] && Running()
      ensures !fault && old(feed) != [] && stepPs > 0 ==>
                if sys.sync then curTs > old(curTs) || Deadline(sys.host, OwnPort()) <= curTs
                else curTs >= old(curTs) + stepPs
    {
      hide HostStep, Matched, Round, Opens, Deadline;
      ghost var n := 0;
      while feed != []
        invariant Rounds(sys, stepPs, false, n, old(Now()), Now()) && (n == 0 ==> feed == old(feed))
        invariant issued == old(issued) && Running()
        decreases |feed|
      {
        ghost var before := Now();
        var full := Turn(false);
        if !full {
          return;
        }
        OneRound(sys, stepPs, false, n, old(Now()), before, Now());
        n := n + 1;
      }
      if n > 0 && stepPs > 0 {
        RoundsMoveTime(sys, stepPs, false, n, old(Now()), Now());
        AtLeastOnce(n, stepPs);
      }
    }
  }
}
