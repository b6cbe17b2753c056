/** Chunked DMA: splitting a transfer is invisible as long as it stays inside the host memory window, and
    only then. */
module Chunking {
  import opened Link
  import opened HostMemory
  import opened Device
  import opened System
  import opened Timing
  import opened DmaSafety
  import opened Transparency
  import opened Arithmetic
  import opened Bytewise

  /** A write inside the window, done at once. */
  function Spliced(mem: seq<Byte>, addr: nat, data: seq<Byte>): seq<Byte>
    requires InWindow(mem, addr, |data|)
  {
    mem[..addr - MEM_BASE] + data + mem[addr - MEM_BASE + |data|..]
  }

  lemma NoWrap(paddr: nat, off: nat)
    requires paddr + off < TWO_64
    ensures Addr(paddr, off) == paddr + off
  {
  }

  lemma OneChunkRead(mem: seq<Byte>, maxChunk: nat, paddr: nat, size: nat, off: nat)
    requires maxChunk > 0 && off < size && MEM_BASE + |mem| <= TWO_64 && InWindow(mem, paddr, size)
    ensures var n := ChunkLen(maxChunk, size, off);
            var at := paddr - MEM_BASE + off;
            ReadFrom(mem, maxChunk, paddr, size, off) ==
            mem[at..at + n] + ReadFrom(mem, maxChunk, paddr, size, off + n)
  {
    hide Addr;
    NoWrap(paddr, off);
  }

  lemma SlicesJoin(mem: seq<Byte>, i: nat, j: nat, k: nat)
    requires i <= j <= k <= |mem|
    ensures mem[i..j] + mem[j..k] == mem[i..k]
  {
  }

  /** A chunked read inside the window returns the bytes of memory, in order, each once. */
  lemma {:induction false} ChunkedReadIsDirect(mem: seq<Byte>, maxChunk: nat, paddr: nat, size: nat, off: nat)
    requires maxChunk > 0 && off <= size && MEM_BASE + |mem| <= TWO_64 && InWindow(mem, paddr, size)
    ensures ReadFrom(mem, maxChunk, paddr, size, off) == mem[paddr - MEM_BASE + off..paddr - MEM_BASE + size]
    decreases size - off
  {
    hide Addr, ServeRead;
    if off < size {
      OneChunkRead(mem, maxChunk, paddr, size, off);
      var n, at := ChunkLen(maxChunk, size, off), paddr - MEM_BASE + off;
      ChunkedReadIsDirect(mem, maxChunk, paddr, size, off + n);
      SlicesJoin(mem, at, at + n, paddr - MEM_BASE + size);
    }
  }

  lemma SplicesJoin(mem: seq<Byte>, addr: nat, d: seq<Byte>, d': seq<Byte>)
    requires InWindow(mem, addr, |d| + |d'|)
    ensures |Spliced(mem, addr, d)| == |mem|
    ensures Spliced(Spliced(mem, addr, d), addr + |d|, d') == Spliced(mem, addr, d + d')
  {
  }

  lemma SpliceInTwo(mem: seq<Byte>, paddr: nat, data: seq<Byte>, off: nat, n: nat)
    requires off + n <= |data| && InWindow(mem, paddr, |data|)
    ensures var mem' := Spliced(mem, paddr + off, data[off..off + n]);
            && InWindow(mem', paddr, |data|) && |mem'| == |mem|
            && Spliced(mem', paddr + (off + n), data[off + n..]) == Spliced(mem, paddr + off, data[off..])
  {
    hide Spliced;
    var d, d' := data[off..off + n], data[off + n..];
    assert d + d' == data[off..];
    SplicesJoin(mem, paddr + off, d, d');
  }

  lemma SplicesNothing(mem: seq<Byte>, addr: nat)
    ensures InWindow(mem, addr, 0) ==> Spliced(mem, addr, []) == mem
  {
  }

  lemma OneChunkLands(mem: seq<Byte>, maxChunk: nat, paddr: nat, data: seq<Byte>, off: nat)
    requires maxChunk > 0 && off < |data| && MEM_BASE + |mem| <= TWO_64 && InWindow(mem, paddr, |data|)
    ensures var n := ChunkLen(maxChunk, |data|, off);
            WriteFrom(mem, maxChunk, paddr, data, off) ==
            WriteFrom(Spliced(mem, paddr + off, data[off..off + n]), maxChunk, paddr, data, off + n)
  {
    hide Addr;
    NoWrap(paddr, off);
  }

  /** A chunked write inside the window lands byte for byte and touches nothing else. */
  lemma {:induction false} ChunkedWriteIsDirect(mem: seq<Byte>, maxChunk: nat, paddr: nat, data: seq<Byte>, off: nat)
    requires maxChunk > 0 && off <= |data| && MEM_BASE + |mem| <= TWO_64 && InWindow(mem, paddr, |data|)
    ensures WriteFrom(mem, maxChunk, paddr, data, off) == Spliced(mem, paddr + off, data[off..])
    decreases |data| - off
  {
    hide Spliced, ServeWrite, Addr;
    if off == |data| {
      SplicesNothing(mem, paddr + off);
      assert data[off..] == [];
    } else {
      OneChunkLands(mem, maxChunk, paddr, data, off);
      hide WriteFrom;
      var n := ChunkLen(maxChunk, |data|, off);
      SpliceInTwo(mem, paddr, data, off, n);
      ChunkedWriteIsDirect(Spliced(mem, paddr + off, data[off..off + n]), maxChunk, paddr, data, off + n);
    }
  }

  /** Whether a write of any `n` bytes, read back, yields these bytes. */
  ghost predicate ReadsBack(mem: seq<Byte>, maxChunk: nat, maxChunk': nat, paddr: nat, n: nat)
    requires maxChunk > 0 && maxChunk' > 0
  {
    forall data: seq<Byte> | |data| == n ::
      ReadFrom(WriteFrom(mem, maxChunk, paddr, data, 0), maxChunk', paddr, n, 0) == data
  }

  lemma ChunkExtendsWindow(mem: seq<Byte>, paddr: nat, off: nat, n: nat)
    requires MEM_BASE + |mem| <= TWO_64 && paddr < TWO_64 && n > 0
    requires off > 0 ==> InWindow(mem, paddr, off)
    requires InWindow(mem, Addr(paddr, off), n)
    ensures InWindow(mem, paddr, off + n)
  {
  }

  /** A read that leaves the window shows it: some byte comes back as all ones, whatever is in memory. */
  lemma {:induction false} LeavingWindowShows(mem: seq<Byte>, maxChunk: nat, paddr: nat, size: nat, off: nat)
    returns (i: nat)
    requires maxChunk > 0 && off < size && MEM_BASE + |mem| <= TWO_64 && paddr < TWO_64
    requires off > 0 ==> InWindow(mem, paddr, off)
    requires !InWindow(mem, paddr, size)
    ensures i < |ReadFrom(mem, maxChunk, paddr, size, off)| == size - off
    ensures ReadFrom(mem, maxChunk, paddr, size, off)[i] == 0xFF
    decreases size - off
  {
    hide Addr, ReadFrom;
    var n := ChunkLen(maxChunk, size, off);
    ReadSize(mem, maxChunk, paddr, size, off);
    OneChunkFirstRead(mem, maxChunk, paddr, size, off);
    if InWindow(mem, Addr(paddr, off), n) {
      ChunkExtendsWindow(mem, paddr, off, n);
      var j := LeavingWindowShows(mem, maxChunk, paddr, size, off + n);
      i := n + j;
    } else {
      i := 0;
    }
  }

  /** What DmaMemWrite writes, DmaMemRead of the same range returns, for whatever bytes and chunk limits,
      exactly when the range lies in the host memory window. */
  lemma ReadsBackIffInWindow(mem: seq<Byte>, maxChunk: nat, maxChunk': nat, paddr: nat, n: nat)
    requires maxChunk > 0 && maxChunk' > 0 && n > 0 && paddr < TWO_64 && MEM_BASE + |mem| <= TWO_64
    ensures ReadsBack(mem, maxChunk, maxChunk', paddr, n) <==> InWindow(mem, paddr, n)
  {
    hide WriteFrom, ReadFrom;
    if InWindow(mem, paddr, n) {
      forall data: seq<Byte> | |data| == n
        ensures ReadFrom(WriteFrom(mem, maxChunk, paddr, data, 0), maxChunk', paddr, n, 0) == data
      {
        ChunkedWriteIsDirect(mem, maxChunk, paddr, data, 0);
        assert data[0..] == data;
        ChunkedReadIsDirect(Spliced(mem, paddr, data), maxChunk', paddr, n, 0);
      }
    } else {
      var zeros: seq<Byte> := seq(n, _ => 0);
      var mem' := WriteFrom(mem, maxChunk, paddr, zeros, 0);
      WriteKeepsSize(mem, maxChunk, paddr, zeros, 0);
      var i := LeavingWindowShows(mem', maxChunk', paddr, n, 0);
      assert zeros[i] == 0;
    }
  }

  // ---------------------------------------------------------------------------
  // The sequential machine without chunks

  /** A call whose DMA acts on memory directly, in one piece; None if a transfer leaves the window. */
  ghost function DirectCall(sys: Sys, log: seq<Record>, e: Entry, told: seq<seq<Byte>>, mem: seq<Byte>):
    Option<(seq<seq<Byte>>, seq<Byte>, seq<Byte>)>
    requires Valid(sys)
    decreases if |told| < sys.lib.budget(log, e) then sys.lib.budget(log, e) - |told| else 0
  {
    match sys.lib.act(log, e, told)
    case Finish(data) => Some((told, data, mem))
    case DmaRd(addr, len) =>
      if !InWindow(mem, addr, len) then None
      else DirectCall(sys, log, e, told + [mem[addr - MEM_BASE..addr - MEM_BASE + len]], mem)
    case DmaWr(addr, data) =>
      if !InWindow(mem, addr, |data|) then None
      else DirectCall(sys, log, e, told + [[]], Spliced(mem, addr, data))
  }

  ghost function DirectRun(sys: Sys, mem: seq<Byte>, evs: seq<Event>): Option<SeqState>
    requires Valid(sys)
  {
    if evs == [] then Some(SeqState([], mem, []))
    else
      var ev := evs[|evs| - 1];
      match DirectRun(sys, mem, evs[..|evs| - 1])
      case None => None
      case Some(s) =>
        match EntryOf(sys, ev)
        case None => Some(s.(replies := s.replies + EventReplies(ev, [])))
        case Some(e) =>
          match DirectCall(sys, s.log, e, [], s.mem)
          case None => None
          case Some(out) => Some(Returned(s.log, s.replies, ev, e, out))
  }

  /** The transfer that a call is about to make, chunked or in one piece. */
  lemma OneTransfer(sys: Sys, log: seq<Record>, e: Entry, told: seq<seq<Byte>>, mem: seq<Byte>)
    requires Valid(sys) && MEM_BASE + |mem| <= TWO_64
    requires DirectCall(sys, log, e, told, mem).Some? && !sys.lib.act(log, e, told).Finish?
    ensures |told| < sys.lib.budget(log, e)
    ensures match sys.lib.act(log, e, told)
            case Finish(_) => true
            case DmaRd(addr, len) =>
              var told' := told + [mem[addr - MEM_BASE..addr - MEM_BASE + len]];
              && CallFrom(sys, log, e, told, mem) == CallFrom(sys, log, e, told', mem)
              && DirectCall(sys, log, e, told, mem) == DirectCall(sys, log, e, told', mem)
            case DmaWr(addr, data) =>
              var mem' := Spliced(mem, addr, data);
              && CallFrom(sys, log, e, told, mem) == CallFrom(sys, log, e, told + [[]], mem')
              && DirectCall(sys, log, e, told, mem) == DirectCall(sys, log, e, told + [[]], mem')
              && |mem'| == |mem|
  {
    hide Spliced, ReadFrom, WriteFrom;
    match sys.lib.act(log, e, told)
    case DmaRd(addr, len) => ChunkedReadIsDirect(mem, sys.maxChunk, addr, len, 0);
    case DmaWr(addr, data) =>
      ChunkedWriteIsDirect(mem, sys.maxChunk, addr, data, 0);
      SplicesJoin(mem, addr, data, []);
      assert data[0..] == data;
  }

  lemma {:induction false} DirectCallIsCall(sys: Sys, log: seq<Record>, e: Entry, told: seq<seq<Byte>>, mem: seq<Byte>)
    requires Valid(sys) && MEM_BASE + |mem| <= TWO_64
    requires DirectCall(sys, log, e, told, mem).Some?
    ensures CallFrom(sys, log, e, told, mem) == DirectCall(sys, log, e, told, mem).value
    ensures |CallFrom(sys, log, e, told, mem).2| == |mem|
    decreases if |told| < sys.lib.budget(log, e) then sys.lib.budget(log, e) - |told| else 0
  {
    if !sys.lib.act(log, e, told).Finish? {
      OneTransfer(sys, log, e, told, mem);
      hide CallFrom, DirectCall, Spliced;
      match sys.lib.act(log, e, told)
      case DmaRd(addr, len) =>
        DirectCallIsCall(sys, log, e, told + [mem[addr - MEM_BASE..addr - MEM_BASE + len]], mem);
      case DmaWr(addr, data) => DirectCallIsCall(sys, log, e, told + [[]], Spliced(mem, addr, data));
    }
  }

  lemma {:induction false} DirectRunIsRun(sys: Sys, mem: seq<Byte>, evs: seq<Event>)
    requires Valid(sys) && MEM_BASE + |mem| <= TWO_64 && DirectRun(sys, mem, evs).Some?
    ensures SeqRun(sys, mem, evs) == DirectRun(sys, mem, evs).value
    ensures |SeqRun(sys, mem, evs).mem| == |mem|
  {
    if evs == [] {
    } else {
      var ev := evs[|evs| - 1];
      DirectRunIsRun(sys, mem, evs[..|evs| - 1]);
      SeqRunSplit(sys, mem, evs);
      var s := SeqRun(sys, mem, evs[..|evs| - 1]);
      if EntryOf(sys, ev).Some? {
        DirectCallIsCall(sys, s.log, EntryOf(sys, ev).value, [], s.mem);
      }
      hide SeqRun, CallFrom, DirectCall, Translate, Fit;
    }
  }

  /** Transparency down to memory. If the transfers of a run stay inside the window, the idle adapter, host
      memory and the completions sent are exactly those of a machine that moves each transfer in one piece:
      neither the chunk limit, nor the link, nor the interleaving can be seen. */
  lemma {:induction false} LooksDirect(sys: Sys, mem0: seq<Byte>, labels: seq<Label>)
    requires Valid(sys) && MEM_BASE + |mem0| <= TWO_64
    requires Run(sys, mem0, labels).a.pc.Idle?
    requires DirectRun(sys, mem0, Run(sys, mem0, labels).a.hist.events).Some?
    ensures var st := Run(sys, mem0, labels);
            DirectRun(sys, mem0, st.a.hist.events) == Some(SeqState(st.a.hist.log, st.h.mem, st.a.hist.replies))
  {
    LooksSequential(sys, mem0, labels);
    DirectRunIsRun(sys, mem0, Run(sys, mem0, labels).a.hist.events);
    hide Run, SeqRun, DirectRun;
  }
}
