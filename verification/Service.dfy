/** Exactly-once, in-order service of MMIO, from the host's requests to the completions it sees. */
module Service {
  import opened Link
  import opened HostMemory
  import opened Device
  import opened System
  import opened Timing
  import opened DmaSafety
  import opened Transparency

  /** The requests among the events, in order. */
  function Requested(evs: seq<Event>): seq<Req> {
    if evs == [] then []
    else Requested(evs[..|evs| - 1]) + if evs[|evs| - 1].Serve? then [evs[|evs| - 1].req] else []
  }

  function MmioIn(q: seq<Msg<H2D>>): seq<Req> {
    if q == [] then [] else (if q[0].body.MmioReq? then [q[0].body.req] else []) + MmioIn(q[1..])
  }

  function RepliesIn(q: seq<Msg<D2H>>): seq<Reply> {
    if q == [] then [] else (if q[0].body.DReply? then [q[0].body.reply] else []) + RepliesIn(q[1..])
  }

  lemma {:induction false} MmioInAppend(q: seq<Msg<H2D>>, m: Msg<H2D>)
    ensures MmioIn(q + [m]) == MmioIn(q) + if m.body.MmioReq? then [m.body.req] else []
  {
    if q == [] {
      assert q + [m] == [m] && [m][1..] == [];
    } else {
      MmioInAppend(q[1..], m);
      assert (q + [m])[0] == q[0] && (q + [m])[1..] == q[1..] + [m];
      assert MmioIn(q + [m]) == (if q[0].body.MmioReq? then [q[0].body.req] else []) + MmioIn(q[1..] + [m]);
    }
  }

  lemma {:induction false} RepliesInAppend(q: seq<Msg<D2H>>, m: Msg<D2H>)
    ensures RepliesIn(q + [m]) == RepliesIn(q) + if m.body.DReply? then [m.body.reply] else []
  {
    if q == [] {
      assert q + [m] == [m] && [m][1..] == [];
    } else {
      RepliesInAppend(q[1..], m);
      assert (q + [m])[0] == q[0] && (q + [m])[1..] == q[1..] + [m];
      assert RepliesIn(q + [m]) == (if q[0].body.DReply? then [q[0].body.reply] else []) + RepliesIn(q[1..] + [m]);
    }
  }

  /** The counters that a sequence of served requests adds up to. */
  function Tally(rs: seq<Req>, st: Stats): Stats {
    if rs == [] then st.(mmioReads := 0, mmioWrites := 0, posted := 0)
    else Counted(Tally(rs[..|rs| - 1], st), rs[|rs| - 1])
  }

  /** Every request issued is in exactly one place, in order, and so is every completion sent. */
  ghost predicate InOrder(s: Side, issued: seq<Req>, got: seq<Reply>) {
    && Requested(s.a.hist.events) + s.a.mmioQ == s.a.hist.arrived
    && s.a.hist.arrived + MmioIn(s.rx) == issued
    && s.a.hist.replies == got + RepliesIn(s.tx)
    && s.a.stats == Tally(Requested(s.a.hist.events), s.a.stats)
  }

  lemma RequestedAppend(evs: seq<Event>, ev: Event)
    ensures Requested(evs + [ev]) == Requested(evs) + if ev.Serve? then [ev.req] else []
  {
    assert (evs + [ev])[..|evs|] == evs;
  }

  /** The tally looks at nothing in `st` but what it leaves alone. */
  lemma {:induction false} TallyFrame(rs: seq<Req>, st: Stats, st': Stats)
    ensures Tally(rs, st') ==
            Tally(rs, st).(dmaReads := st'.dmaReads, dmaWrites := st'.dmaWrites, clocks := st'.clocks)
  {
    if rs == [] {
    } else {
      TallyFrame(rs[..|rs| - 1], st, st');
    }
  }

  lemma SayKeepsOrder(sys: Sys, s: Side, issued: seq<Req>, got: seq<Reply>, body: D2H)
    requires InOrder(s, issued, got) && !body.DReply?
    ensures InOrder(Say(sys, s, body), issued, got)
  {
    hide Requested, MmioIn, RepliesIn, Tally;
    RepliesInAppend(s.tx, Stamped(sys.dev, s.a.port, body));
    assert RepliesIn(s.tx) + [] == RepliesIn(s.tx);
  }

  lemma AnswerKeepsOrder(sys: Sys, s: Side, issued: seq<Req>, got: seq<Reply>, r: Req, data: seq<Byte>)
    requires InOrder(s, issued, got)
    ensures InOrder(Answer(sys, s, r, data), issued, got)
  {
    hide Requested, MmioIn, RepliesIn, Tally, Fit;
    var rs := RepliesTo(r, data);
    if rs != [] {
      RepliesInAppend(s.tx, Stamped(sys.dev, s.a.port, DReply(rs[0])));
    }
  }

  lemma PoppedKeepsOrder(s: Side, issued: seq<Req>, got: seq<Reply>)
    requires InOrder(s, issued, got) && s.a.mmioQ != []
    ensures InOrder(s.(a := Popped(s.a)), issued, got)
  {
    hide Requested, MmioIn, RepliesIn;
    var r := s.a.mmioQ[0];
    RequestedAppend(s.a.hist.events, Serve(r));
    var rs := Requested(s.a.hist.events);
    assert rs + [r] + s.a.mmioQ[1..] == rs + s.a.mmioQ;
    assert (rs + [r])[..|rs|] == rs;
    TallyFrame(rs, s.a.stats, Counted(s.a.stats, r));
  }

  /** What a message changes of what the order is about. */
  lemma ConsumeFrame(a: Dev, body: H2D)
    ensures var a' := Consume(a, body);
            var taken := if body.MmioReq? then [body.req] else [];
            && a'.mmioQ == a.mmioQ + taken && a'.hist == a.hist.(arrived := a.hist.arrived + taken)
            && a'.stats == a.stats.(dmaReads := a'.stats.dmaReads, dmaWrites := a'.stats.dmaWrites)
  {
    hide Filled;
    assert a.mmioQ + [] == a.mmioQ && a.hist.arrived + [] == a.hist.arrived;
  }

  lemma ConsumeKeepsOrder(s: Side, issued: seq<Req>, got: seq<Reply>)
    requires InOrder(s, issued, got) && s.rx != []
    ensures InOrder(Side(Consume(s.a, s.rx[0].body), s.rx[1..], s.tx), issued, got)
  {
    var taken := if s.rx[0].body.MmioReq? then [s.rx[0].body.req] else [];
    assert MmioIn(s.rx) == taken + MmioIn(s.rx[1..]);
    hide Requested, MmioIn, RepliesIn, Tally, Consume;
    ConsumeFrame(s.a, s.rx[0].body);
    TallyFrame(Requested(s.a.hist.events), s.a.stats, Consume(s.a, s.rx[0].body).stats);
    assert s.a.hist.arrived + (taken + MmioIn(s.rx[1..])) == s.a.hist.arrived + taken + MmioIn(s.rx[1..]);
    assert Requested(s.a.hist.events) + (s.a.mmioQ + taken) == Requested(s.a.hist.events) + s.a.mmioQ + taken;
  }

  lemma ContinueKeepsOrder(sys: Sys, s: Side, issued: seq<Req>, got: seq<Reply>, pc: Pc, pick: nat)
    requires InOrder(s, issued, got) && sys.maxChunk > 0 && pc.Pump? && pc.off <= XferSize(pc.x)
    ensures InOrder(Continue(sys, s, pc, pick), issued, got)
  {
    hide Requested, MmioIn, RepliesIn, Tally, Say;
    if pc.off < XferSize(pc.x) {
      var slot := Slot(pick, ChunkLen(sys.maxChunk, XferSize(pc.x), pc.off), false, [], s.a.port.now);
      SayKeepsOrder(sys, s.(a := s.a.(slot := slot, pc := pc)), issued, got, ChunkRequest(sys, pc.x, pc.off, pick));
    }
  }

  lemma CallKeepsOrder(sys: Sys, s: Side, issued: seq<Req>, got: seq<Reply>, job: Job, told: seq<seq<Byte>>,
                       pick: nat)
    requires InOrder(s, issued, got) && sys.maxChunk > 0
    ensures InOrder(CallStep(sys, s, job, told, pick), issued, got)
  {
    hide Requested, MmioIn, RepliesIn, Tally, Answer, Continue;
    match EntryOf(sys, EventOf(job))
    case None =>
    case Some(e) =>
      match sys.lib.act(s.a.hist.log, e, told)
      case Finish(data) =>
        var a := Logged(s.a, Record(e, told, data));
        if job.Mmio? {
          AnswerKeepsOrder(sys, s.(a := a.(pc := Idle(Acting))), issued, got, job.req, data);
        } else {
          TallyFrame(Requested(a.hist.events), a.stats, EndBatch(sys, a, job.n, job.at).stats);
        }
      case DmaRd(addr, len) =>
        ContinueKeepsOrder(sys, s, issued, got, Begin(s.a, job, told, RdX(addr, len, [])), pick);
      case DmaWr(addr, data) =>
        ContinueKeepsOrder(sys, s, issued, got, Begin(s.a, job, told, WrX(addr, data)), pick);
  }

  lemma PhaseKeepsOrder(sys: Sys, s: Side, issued: seq<Req>, got: seq<Reply>)
    requires InOrder(s, issued, got) && !s.a.pc.InCall?
    ensures InOrder(PhaseStep(sys, s), issued, got)
  {
    hide Requested, MmioIn, RepliesIn, Tally, Say, Consume, Peeked;
    SayKeepsOrder(sys, s, issued, got, DSync);
    if s.rx != [] {
      ConsumeKeepsOrder(s.(a := s.a.(port := Peeked(s.a.port, s.rx))), issued, got);
    }
  }

  lemma BeginClocksKeepsOrder(sys: Sys, s: Side, issued: seq<Req>, got: seq<Reply>)
    requires InOrder(s, issued, got) && sys.psPerClock > 0
    ensures InOrder(s.(a := BeginClocks(sys, s.a)), issued, got)
  {
    hide Requested, MmioIn, RepliesIn, Tally, Deadline;
    forall n { RequestedAppend(s.a.hist.events, Tick(n)); }
    assert Requested(s.a.hist.events) + [] == Requested(s.a.hist.events);
  }

  lemma AStepKeepsOrder(sys: Sys, s: Side, issued: seq<Req>, got: seq<Reply>, pick: nat)
    requires InOrder(s, issued, got) && sys.psPerClock > 0 && sys.maxChunk > 0
    ensures InOrder(AStep(sys, s, pick), issued, got)
  {
    hide Requested, MmioIn, RepliesIn, Tally, PhaseStep, CallStep, Continue, BeginClocks, Answer, Popped, NextChunk;
    match s.a.pc
    case InCall(job, told) => CallKeepsOrder(sys, s, issued, got, job, told, pick);
    case Idle(phase) =>
      if !phase.Acting? {
        PhaseKeepsOrder(sys, s, issued, got);
      } else if s.a.mmioQ != [] {
        PoppedKeepsOrder(s, issued, got);
        AnswerKeepsOrder(sys, s.(a := Popped(s.a)), issued, got, s.a.mmioQ[0], []);
      } else {
        BeginClocksKeepsOrder(sys, s, issued, got);
      }
    case Pump(_, _, _, _, _, _, phase) =>
      if !phase.Acting? {
        PhaseKeepsOrder(sys, s, issued, got);
      } else if s.a.slot.done {
        ContinueKeepsOrder(sys, s, issued, got, NextChunk(s.a), pick);
      }
  }

  ghost predicate OrderInv(st: St) {
    InOrder(Side(st.a, st.h2d, st.d2h), st.h.issued, st.h.got)
  }

  lemma HostSayKeepsOrder(sys: Sys, st: St, body: H2D)
    requires OrderInv(st)
    ensures var st' := HostSay(sys, st, body);
            OrderInv(if body.MmioReq? then st'.(h := st'.h.(issued := st.h.issued + [body.req])) else st')
  {
    hide Requested, MmioIn, RepliesIn, Tally;
    MmioInAppend(st.h2d, Stamped(sys.host, st.h.port, body));
    assert MmioIn(st.h2d) + [] == MmioIn(st.h2d);
    if body.MmioReq? {
      assert st.a.hist.arrived + (MmioIn(st.h2d) + [body.req]) == st.h.issued + [body.req];
    }
  }

  lemma HostPollKeepsOrder(sys: Sys, st: St)
    requires OrderInv(st)
    ensures OrderInv(HostPoll(sys, st))
  {
    if Due(sys.sync, st.h.port, st.d2h) {
      var m := st.d2h[0];
      assert RepliesIn(st.d2h) == (if m.body.DReply? then [m.body.reply] else []) + RepliesIn(st.d2h[1..]);
      hide Requested, MmioIn, RepliesIn, Tally, Peeked, HostSay, ServeRead, ServeWrite;
      assert [] + RepliesIn(st.d2h[1..]) == RepliesIn(st.d2h[1..]);
      var st' := st.(d2h := st.d2h[1..], h := st.h.(port := Peeked(st.h.port, st.d2h)));
      match m.body
      case DSync =>
      case DReply(reply) =>
        assert st.h.got + ([reply] + RepliesIn(st.d2h[1..])) == st.h.got + [reply] + RepliesIn(st.d2h[1..]);
      case DRead(slot, addr, len) => HostSayKeepsOrder(sys, st', ReadComp(slot, ServeRead(st.h.mem, addr, len)));
      case DWrite(slot, addr, data) =>
        HostSayKeepsOrder(sys, st'.(h := st'.h.(mem := ServeWrite(st.h.mem, addr, data))), WriteComp(slot));
    }
  }

  lemma StepKeepsOrder(sys: Sys, st: St, l: Label)
    requires OrderInv(st) && sys.psPerClock > 0 && sys.maxChunk > 0
    ensures OrderInv(Step(sys, st, l))
  {
    hide AStep, HostPoll, Requested, MmioIn, RepliesIn, Tally;
    match l
    case Adapter(pick) => AStepKeepsOrder(sys, Side(st.a, st.h2d, st.d2h), st.h.issued, st.h.got, pick);
    case Blind =>
    case Peer(HSend) => HostSayKeepsOrder(sys, st, HSync);
    case Peer(HPoll) => HostPollKeepsOrder(sys, st);
    case Peer(HIssue(r)) =>
      HostSayKeepsOrder(sys, st, MmioReq(r));
    case Peer(HAdvance(t)) =>
    case Peer(HCtrl(flags)) => HostSayKeepsOrder(sys, st, DevCtrl(flags));
    case Peer(HTerminate) => HostSayKeepsOrder(sys, st, Terminate);
  }

  lemma {:induction false} RunKeepsOrder(sys: Sys, mem: seq<Byte>, labels: seq<Label>)
    requires Valid(sys)
    ensures OrderInv(Run(sys, mem, labels))
  {
    if labels == [] {
      assert Init(sys, mem).h2d[1..] == [];
      assert MmioIn(Init(sys, mem).h2d) == [] + MmioIn(Init(sys, mem).h2d[1..]);
    } else {
      hide OrderInv;
      RunKeepsOrder(sys, mem, labels[..|labels| - 1]);
      StepKeepsOrder(sys, Run(sys, mem, labels[..|labels| - 1]), labels[|labels| - 1]);
    }
  }

  // ---------------------------------------------------------------------------
  // What it means

  function Keys(rs: seq<Reply>): seq<Key> {
    seq(|rs|, i requires 0 <= i < |rs| => KeyOf(rs[i]))
  }

  /** The completions that requests are owed: one each, in order, except for posted writes. */
  function Owed(rs: seq<Req>): seq<Key> {
    if rs == [] then []
    else
      var r := rs[|rs| - 1];
      Owed(rs[..|rs| - 1]) + if r.isRead || !r.posted then [Key(r.isRead, r.id)] else []
  }

  lemma OwedAppend(rs: seq<Req>, r: Req)
    ensures Owed(rs + [r]) == Owed(rs) + if r.isRead || !r.posted then [Key(r.isRead, r.id)] else []
  {
    assert (rs + [r])[..|rs|] == rs;
  }

  lemma KeysAppend(a: seq<Reply>, b: seq<Reply>)
    ensures Keys(a + b) == Keys(a) + Keys(b)
  {
  }

  lemma EventIsOwed(before: seq<Event>, ev: Event, data: seq<Byte>)
    ensures Owed(Requested(before + [ev])) == Owed(Requested(before)) + Keys(EventReplies(ev, data))
  {
    RequestedAppend(before, ev);
    hide Requested, Owed, Fit;
    if ev.Serve? {
      OwedAppend(Requested(before), ev.req);
    } else {
      assert Requested(before) + [] == Requested(before);
    }
  }

  /** The sequential machine gives every request what it is owed, mapped to a window or not. */
  lemma {:induction false} SequentialRepliesAreOwed(sys: Sys, mem: seq<Byte>, evs: seq<Event>)
    requires Valid(sys)
    ensures Keys(SeqRun(sys, mem, evs).replies) == Owed(Requested(evs))
  {
    if evs == [] {
    } else {
      var before, ev := evs[..|evs| - 1], evs[|evs| - 1];
      SequentialRepliesAreOwed(sys, mem, before);
      SeqRunSplit(sys, mem, evs);
      assert before + [ev] == evs;
      hide SeqRun, Requested, Owed, CallFrom, Translate, EventReplies, Keys;
      var s := SeqRun(sys, mem, before);
      var data := if EntryOf(sys, ev).Some? then CallFrom(sys, s.log, EntryOf(sys, ev).value, [], s.mem).1 else [];
      assert SeqRun(sys, mem, evs).replies == s.replies + EventReplies(ev, data);
      KeysAppend(s.replies, EventReplies(ev, data));
      EventIsOwed(before, ev, data);
    }
  }

  function ReadsIn(rs: seq<Req>): nat {
    if rs == [] then 0 else ReadsIn(rs[..|rs| - 1]) + if rs[|rs| - 1].isRead then 1 else 0
  }

  function PostedIn(rs: seq<Req>): nat {
    if rs == [] then 0 else PostedIn(rs[..|rs| - 1]) + if rs[|rs| - 1].isRead || !rs[|rs| - 1].posted then 0 else 1
  }

  /** The counters count: reads, writes, and of the latter the posted ones. */
  lemma {:induction false} TallyCounts(rs: seq<Req>, st: Stats)
    ensures Tally(rs, st).mmioReads == ReadsIn(rs)
    ensures Tally(rs, st).mmioWrites == |rs| - ReadsIn(rs)
    ensures Tally(rs, st).posted == PostedIn(rs)
  {
    if rs == [] {
    } else {
      TallyCounts(rs[..|rs| - 1], st);
    }
  }

  /** The events that are over: all of them, but for the call in progress. */
  function Finished(a: Dev): seq<Event> {
    if a.pc.Idle? || a.hist.events == [] then a.hist.events else a.hist.events[..|a.hist.events| - 1]
  }

  /** Exactly-once, in-order service. The requests begun, then `mmio_q`, then those on the ring are the
      requests issued; the completions received, then those on the ring, are the completions sent; these are
      what the requests that are over are owed, in order; and the counters count the requests begun by kind. */
  lemma {:induction false} ExactlyOnce(sys: Sys, mem: seq<Byte>, labels: seq<Label>)
    requires Valid(sys)
    ensures var st := Run(sys, mem, labels);
            && Requested(st.a.hist.events) + st.a.mmioQ + MmioIn(st.h2d) == st.h.issued
            && st.a.hist.replies == st.h.got + RepliesIn(st.d2h)
            && Keys(st.a.hist.replies) == Owed(Requested(Finished(st.a)))
            && st.a.stats.mmioReads == ReadsIn(Requested(st.a.hist.events))
            && st.a.stats.mmioWrites == |Requested(st.a.hist.events)| - ReadsIn(Requested(st.a.hist.events))
            && st.a.stats.posted == PostedIn(Requested(st.a.hist.events))
  {
    RunKeepsOrder(sys, mem, labels);
    LooksSequential(sys, mem, labels);
    var st := Run(sys, mem, labels);
    TallyCounts(Requested(st.a.hist.events), st.a.stats);
    SequentialRepliesAreOwed(sys, mem, Finished(st.a));
    hide Run, SeqRun, Requested, MmioIn, RepliesIn, Tally, Keys, Owed, ReadsIn, PostedIn;
  }

  /** What the host gets to see: the requests the device has begun to serve are a prefix of those the host
      issued, and the completions the host has received, read values included, are a prefix of those the
      sequential machine produces for these requests, interleaved with some clock batches. */
  lemma {:induction false} HostSeesSequentialDevice(sys: Sys, mem: seq<Byte>, labels: seq<Label>)
    requires Valid(sys)
    ensures var st := Run(sys, mem, labels);
            && Requested(st.a.hist.events) <= st.h.issued
            && st.h.got <= SeqRun(sys, mem, st.a.hist.events).replies
  {
    RunKeepsOrder(sys, mem, labels);
    LooksSequential(sys, mem, labels);
    var st := Run(sys, mem, labels);
    hide Run, Requested, MmioIn, RepliesIn, Tally, CallFrom, Translate, RepliesTo;
    if !st.a.pc.Idle? {
      SeqRunSplit(sys, mem, st.a.hist.events);
      hide SeqRun;
    }
  }

  /** Without posted writes, every request is owed its completion. */
  lemma {:induction false} OwedWithoutPosted(rs: seq<Req>)
    requires forall i :: 0 <= i < |rs| ==> !rs[i].posted
    ensures |Owed(rs)| == |rs|
    ensures forall i :: 0 <= i < |rs| ==> Owed(rs)[i] == Key(rs[i].isRead, rs[i].id)
  {
    if rs == [] {
    } else {
      OwedWithoutPosted(rs[..|rs| - 1]);
    }
  }

  lemma FinishedIsRequested(a: Dev)
    ensures Requested(Finished(a)) <= Requested(a.hist.events)
  {
  }

  /** A host that posts no writes, as the probe, gets its completions one for one: the i-th it receives is of the
      kind of, and carries the id of, the i-th request it issued. So with one access outstanding at a time the
      next completion is the one waited for. */
  lemma {:induction false} CompletionsMatchRequests(sys: Sys, mem: seq<Byte>, labels: seq<Label>)
    requires Valid(sys)
    requires forall i :: 0 <= i < |Run(sys, mem, labels).h.issued| ==> !Run(sys, mem, labels).h.issued[i].posted
    ensures Matched(Run(sys, mem, labels).h.issued, Run(sys, mem, labels).h.got)
  {
    ExactlyOnce(sys, mem, labels);
    var st := Run(sys, mem, labels);
    FinishedIsRequested(st.a);
    hide Run, Requested, MmioIn, RepliesIn, Tally, Owed;
    var done := Requested(Finished(st.a));
    assert done <= st.h.issued;
    OwedWithoutPosted(done);
    assert forall i :: 0 <= i < |st.h.got| ==> Keys(st.a.hist.replies)[i] == KeyOf(st.h.got[i]);
  }
}
