/** The device behind the adapter: any deterministic libttsim, and the sequential machine that the
    asynchronous system has to look like. */
module Device {
  import opened Link
  import opened HostMemory
  import opened Bars

  const MAX_MMIO_LEN := 64
  const MAX_CLOCKS_PER_CALL := 0x10_0000

  datatype Req = Req(isRead: bool, posted: bool, id: nat, bar: nat, offset: nat, len: nat, data: seq<Byte>)

  /** One entry into libttsim. */
  datatype Entry = MemRd(paddr: nat, len: nat) | MemWr(paddr: nat, data: seq<Byte>) | Clock(n: nat)

  /** What a running call wants next: a DMA transfer done for it, or to return. */
  datatype Action = Finish(data: seq<Byte>) | DmaRd(addr: nat, len: nat) | DmaWr(addr: nat, data: seq<Byte>)

  /** A completed call: its entry, what each of its DMA transfers told it, and what it returned. */
  datatype Record = Record(entry: Entry, told: seq<seq<Byte>>, data: seq<Byte>)

  /** A deterministic library: what a call does next depends on all completed calls, on its entry and on
      what its transfers have told it so far. `budget` bounds the transfers of one call. */
  datatype Lib = Lib(act: (seq<Record>, Entry, seq<seq<Byte>>) -> Action, budget: (seq<Record>, Entry) -> nat)

  /** Every call returns after finitely many transfers. */
  ghost predicate Terminates(lib: Lib) {
    forall log, e, told :: |told| >= lib.budget(log, e) ==> lib.act(log, e, told).Finish?
  }

  datatype Sys = Sys(sync: bool, dev: Wire, host: Wire, start: nat, psPerClock: nat, batch: nat,
                     maxChunk: nat, chip: Chip, bar4Override: nat, lib: Lib)

  /** What is assumed of the set-up. The code itself sees to the period, the batch, the chip and the upper bound
      on chunks; positive chunks and intervals, and a synchronized start at 0, are up to whoever starts it. */
  ghost predicate Valid(sys: Sys) {
    && sys.psPerClock > 0 && sys.batch > 0
    && 0 < sys.maxChunk <= 4096
    && IsChip(sys.chip)
    && Terminates(sys.lib)
    && sys.dev.interval > 0 && sys.host.interval > 0
    && (sys.sync ==> sys.start == 0)
  }

  function Translate(sys: Sys, r: Req): Option<nat> {
    BarTranslate(sys.chip, sys.bar4Override, r.bar, r.offset, r.len)
  }

  function MmioEntry(paddr: nat, r: Req): Entry {
    if r.isRead then MemRd(paddr, r.len) else MemWr(paddr, r.data)
  }

  /** The bytes a read reply carries: the zeroed buffer with the library's bytes laid over it. */
  function Fit(data: seq<Byte>, len: nat): (buf: seq<Byte>)
    ensures |buf| == len
  {
    seq(len, i requires 0 <= i => if i < |data| then data[i] else 0)
  }

  datatype Reply = RdDone(id: nat, data: seq<Byte>) | WrDone(id: nat)

  /** A completion without its data: its kind and the request it completes. */
  datatype Key = Key(isRead: bool, id: nat)

  function KeyOf(r: Reply): Key {
    Key(r.RdDone?, r.id)
  }

  /** The i-th completion completes the i-th request. */
  predicate Matched(issued: seq<Req>, got: seq<Reply>) {
    |got| <= |issued| &&
    forall i :: 0 <= i < |got| ==> KeyOf(got[i]) == Key(issued[i].isRead, issued[i].id)
  }

  /** The completions a served request gives rise to: none if it was posted. */
  function RepliesTo(r: Req, data: seq<Byte>): seq<Reply> {
    if r.isRead then [RdDone(r.id, Fit(data, r.len))]
    else if r.posted then []
    else [WrDone(r.id)]
  }

  // ---------------------------------------------------------------------------
  // The sequential machine: each call is atomic and its DMA acts on memory at once.

  datatype Event = Serve(req: Req) | Tick(n: nat)

  datatype SeqState = SeqState(log: seq<Record>, mem: seq<Byte>, replies: seq<Reply>)

  /** Run one call to its end from the point where it has been told `told`. */
  ghost function CallFrom(sys: Sys, log: seq<Record>, e: Entry, told: seq<seq<Byte>>, mem: seq<Byte>):
    (seq<seq<Byte>>, seq<Byte>, seq<Byte>)
    requires Valid(sys)
    decreases if |told| < sys.lib.budget(log, e) then sys.lib.budget(log, e) - |told| else 0
  {
    match sys.lib.act(log, e, told)
    case Finish(data) => (told, data, mem)
    case DmaRd(addr, len) =>
      CallFrom(sys, log, e, told + [ReadFrom(mem, sys.maxChunk, addr, len, 0)], mem)
    case DmaWr(addr, data) =>
      CallFrom(sys, log, e, told + [[]], WriteFrom(mem, sys.maxChunk, addr, data, 0))
  }

  /** The entry an event makes, unless it is a request outside every window. */
  function EntryOf(sys: Sys, ev: Event): Option<Entry> {
    match ev
    case Tick(n) => Some(Clock(n))
    case Serve(r) =>
      match Translate(sys, r)
      case None => None
      case Some(paddr) => Some(MmioEntry(paddr, r))
  }

  function EventReplies(ev: Event, data: seq<Byte>): seq<Reply> {
    if ev.Serve? then RepliesTo(ev.req, data) else []
  }

  ghost function SeqStep(sys: Sys, s: SeqState, ev: Event): SeqState
    requires Valid(sys)
  {
    match EntryOf(sys, ev)
    case None => s.(replies := s.replies + EventReplies(ev, []))
    case Some(e) => Returned(s.log, s.replies, ev, e, CallFrom(sys, s.log, e, [], s.mem))
  }

  /** The state after a call for `ev` has returned. */
  function Returned(log: seq<Record>, replies: seq<Reply>, ev: Event, e: Entry,
                    out: (seq<seq<Byte>>, seq<Byte>, seq<Byte>)): SeqState {
    SeqState(log + [Record(e, out.0, out.1)], out.2, replies + EventReplies(ev, out.1))
  }

  ghost function SeqRun(sys: Sys, mem: seq<Byte>, evs: seq<Event>): SeqState
    requires Valid(sys)
  {
    if evs == [] then SeqState([], mem, [])
    else SeqStep(sys, SeqRun(sys, mem, evs[..|evs| - 1]), evs[|evs| - 1])
  }
}
