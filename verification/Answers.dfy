/** Which bytes go where: what libttsim is entered with for each event, and what each completion carries back. */
module Answers {
  import opened Link
  import opened HostMemory
  import opened Bars
  import opened Device
  import opened System
  import opened Transparency
  import opened Service

  /** The address a request goes to in the chip, if it is in a window. */
  function Target(sys: Sys, r: Req): Option<nat> {
    BarTranslate(sys.chip, sys.bar4Override, r.bar, r.offset, r.len)
  }

  /** The calls that events make: one each, but for requests outside every window. */
  function CallsMade(sys: Sys, evs: seq<Event>): nat {
    if evs == [] then 0
    else
      var ev := evs[|evs| - 1];
      CallsMade(sys, evs[..|evs| - 1]) + if ev.Tick? || Target(sys, ev.req).Some? then 1 else 0
  }

  predicate NeedsReply(ev: Event) {
    ev.Serve? && (ev.req.isRead || !ev.req.posted)
  }

  function RepliesDue(evs: seq<Event>): nat {
    if evs == [] then 0
    else RepliesDue(evs[..|evs| - 1]) + if NeedsReply(evs[|evs| - 1]) then 1 else 0
  }

  /** The `k`-th event in the books: it made its own call, with the right entry point and arguments, and got its
      own completion. A read's completion carries what that call returned, byte by byte in order, zeros where
      the call returned less than asked for, and all zeros if the request was outside every window. */
  ghost predicate InBooks(sys: Sys, evs: seq<Event>, log: seq<Record>, replies: seq<Reply>, k: nat)
    requires k < |evs|
  {
    var c, q := CallsMade(sys, evs[..k]), RepliesDue(evs[..k]);
    match evs[k]
    case Tick(n) => c < |log| && log[c].entry == Clock(n)
    case Serve(r) =>
      var paddr := Target(sys, r);
      && (paddr.Some? ==>
            c < |log| && log[c].entry == if r.isRead then MemRd(paddr.value, r.len) else MemWr(paddr.value, r.data))
      && (r.isRead ==>
            && q < |replies| && replies[q].RdDone? && replies[q].id == r.id && |replies[q].data| == r.len
            && forall j :: 0 <= j < r.len ==>
                 replies[q].data[j] == if paddr.Some? && j < |log[c].data| then log[c].data[j] else 0)
      && (!r.isRead && !r.posted ==> q < |replies| && replies[q] == WrDone(r.id))
  }

  lemma CountsAppend(sys: Sys, evs: seq<Event>, ev: Event)
    ensures CallsMade(sys, evs + [ev]) ==
            CallsMade(sys, evs) + if ev.Tick? || Target(sys, ev.req).Some? then 1 else 0
    ensures RepliesDue(evs + [ev]) == RepliesDue(evs) + if NeedsReply(ev) then 1 else 0
  {
    hide Target;
    assert (evs + [ev])[..|evs|] == evs;
  }

  /** One more event leaves the books on the earlier ones as they are. */
  lemma BooksGrow(sys: Sys, evs: seq<Event>, ev: Event, log: seq<Record>, replies: seq<Reply>, log': seq<Record>,
                  replies': seq<Reply>, k: nat)
    requires k < |evs| && InBooks(sys, evs, log, replies, k)
    requires log <= log' && replies <= replies'
    ensures InBooks(sys, evs + [ev], log', replies', k)
  {
    hide Target, CallsMade, RepliesDue;
    assert (evs + [ev])[..k] == evs[..k] && (evs + [ev])[k] == evs[k];
  }

  lemma LastInBooks(sys: Sys, evs: seq<Event>, ev: Event, s: SeqState)
    requires Valid(sys) && CallsMade(sys, evs) == |s.log| && RepliesDue(evs) == |s.replies|
    ensures var s' := SeqStep(sys, s, ev);
            && InBooks(sys, evs + [ev], s'.log, s'.replies, |evs|)
            && s.log <= s'.log && s.replies <= s'.replies
            && CallsMade(sys, evs + [ev]) == |s'.log| && RepliesDue(evs + [ev]) == |s'.replies|
  {
    CountsAppend(sys, evs, ev);
    hide BarTranslate, CallsMade, RepliesDue, CallFrom;
    assert (evs + [ev])[..|evs|] == evs;
  }

  lemma {:induction false} SequentialBooks(sys: Sys, mem: seq<Byte>, evs: seq<Event>)
    requires Valid(sys)
    ensures var s := SeqRun(sys, mem, evs);
            && CallsMade(sys, evs) == |s.log| && RepliesDue(evs) == |s.replies|
            && forall k :: 0 <= k < |evs| ==> InBooks(sys, evs, s.log, s.replies, k)
  {
    if evs == [] {
    } else {
      var before, ev := evs[..|evs| - 1], evs[|evs| - 1];
      SequentialBooks(sys, mem, before);
      SeqRunSplit(sys, mem, evs);
      var s, s' := SeqRun(sys, mem, before), SeqRun(sys, mem, evs);
      assert before + [ev] == evs;
      hide SeqRun, SeqStep, CallsMade, RepliesDue, InBooks;
      LastInBooks(sys, before, ev, s);
      forall k | 0 <= k < |before| ensures InBooks(sys, evs, s'.log, s'.replies, k) {
        BooksGrow(sys, before, ev, s.log, s.replies, s'.log, s'.replies, k);
      }
    }
  }

  /** Every event that is over, in every reachable state, is in the books of libttsim's calls and of the
      completions sent, and nothing else is. */
  lemma {:induction false} EveryEventIsInTheBooks(sys: Sys, mem: seq<Byte>, labels: seq<Label>)
    requires Valid(sys)
    ensures var a := Run(sys, mem, labels).a;
            var evs := Finished(a);
            && CallsMade(sys, evs) == |a.hist.log| && RepliesDue(evs) == |a.hist.replies|
            && forall k :: 0 <= k < |evs| ==> InBooks(sys, evs, a.hist.log, a.hist.replies, k)
  {
    LooksSequential(sys, mem, labels);
    SequentialBooks(sys, mem, Finished(Run(sys, mem, labels).a));
    hide Run, SeqRun, InBooks, CallsMade, RepliesDue;
  }

  lemma {:induction false} ReplyHasEvent(evs: seq<Event>, i: nat) returns (k: nat)
    requires i < RepliesDue(evs)
    ensures k < |evs| && NeedsReply(evs[k]) && RepliesDue(evs[..k]) == i
  {
    var n := |evs| - 1;
    if i < RepliesDue(evs[..n]) {
      k := ReplyHasEvent(evs[..n], i);
      assert evs[..n][..k] == evs[..k];
    } else {
      k := n;
    }
  }

  /** What the host gets. The `i`-th completion it has received is that of the `i`-th request served that is owed
      one, whose own call libttsim has returned from; and it carries what `InBooks` says. */
  lemma {:induction false} CompletionCarriesItsAnswer(sys: Sys, mem: seq<Byte>, labels: seq<Label>, i: nat)
    returns (k: nat)
    requires Valid(sys) && i < |Run(sys, mem, labels).h.got|
    ensures var st := Run(sys, mem, labels);
            var evs := Finished(st.a);
            && k < |evs| && NeedsReply(evs[k]) && RepliesDue(evs[..k]) == i
            && st.h.got <= st.a.hist.replies && InBooks(sys, evs, st.a.hist.log, st.h.got, k)
  {
    EveryEventIsInTheBooks(sys, mem, labels);
    ExactlyOnce(sys, mem, labels);
    var st := Run(sys, mem, labels);
    var evs := Finished(st.a);
    hide Run, Target, CallsMade, RepliesIn, MmioIn, Tally, Requested, Owed, Keys, Finished;
    k := ReplyHasEvent(evs, i);
    hide RepliesDue;
    assert InBooks(sys, evs, st.a.hist.log, st.a.hist.replies, k);
    assert st.h.got[i] == st.a.hist.replies[i];
  }
}
