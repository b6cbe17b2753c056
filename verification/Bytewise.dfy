/** Any chunked transfer, byte by byte, whether it lies in the host memory window, leaves it or wraps around. */
module Bytewise {
  import opened HostMemory
  import opened Arithmetic

  /** Whether the sub-operation that moves byte `j` of a transfer lies in the window in full. */
  predicate Lands(mem: seq<Byte>, maxChunk: nat, paddr: nat, size: nat, j: nat)
    requires maxChunk > 0 && j < size
  {
    var off := j - j % maxChunk;
    InWindow(mem, Addr(paddr, off), ChunkLen(maxChunk, size, off))
  }

  /** Where byte `j` of a transfer goes: an index into memory, unless out of its range. */
  function Index(paddr: nat, j: nat): int {
    Addr(paddr, j) - MEM_BASE
  }

  /** In numbers: memory begins at 1 GiB, addresses wrap around at 2^64, and a sub-operation is in the window if all
      of it is. */
  lemma WindowInNumbers(mem: seq<Byte>, paddr: nat, j: nat, len: nat)
    ensures Index(paddr, j) == (paddr + j) % 0x1_0000_0000_0000_0000 - 0x4000_0000
    ensures InWindow(mem, paddr, len) <==> 0x4000_0000 <= paddr && paddr + len <= 0x4000_0000 + |mem|
  {
  }

  lemma AddrStep(paddr: nat, off: nat, i: nat)
    requires Addr(paddr, off) + i < TWO_64
    ensures Addr(paddr, off + i) == Addr(paddr, off) + i
  {
    var x := paddr + off;
    var q := x / TWO_64;
    assert x == q * TWO_64 + x % TWO_64;
    DivisionIsUnique(x + i, TWO_64, q, x % TWO_64 + i);
  }

  /** No two bytes of a transfer have the same address. */
  lemma AddrInjective(paddr: nat, i: nat, j: nat)
    requires i < j < i + TWO_64
    ensures Addr(paddr, i) != Addr(paddr, j)
  {
    var x, y := paddr + i, paddr + j;
    assert x == (x / TWO_64) * TWO_64 + x % TWO_64 && y == (y / TWO_64) * TWO_64 + y % TWO_64;
    MultipleIsFar(y / TWO_64 - x / TWO_64, TWO_64);
  }

  /** A byte of the chunk at `off`: where it goes, and whether it lands. */
  lemma InChunk(mem: seq<Byte>, maxChunk: nat, paddr: nat, size: nat, off: nat, j: nat)
    requires maxChunk > 0 && off < size && off % maxChunk == 0 && off <= j < off + ChunkLen(maxChunk, size, off)
    requires MEM_BASE + |mem| <= TWO_64
    ensures var n := ChunkLen(maxChunk, size, off);
            && (Lands(mem, maxChunk, paddr, size, j) <==> InWindow(mem, Addr(paddr, off), n))
            && (InWindow(mem, Addr(paddr, off), n) ==>
                  Addr(paddr, j) == Addr(paddr, off) + (j - off) && 0 <= Index(paddr, j) < |mem|)
  {
    hide Addr;
    var q := off / maxChunk;
    assert off == q * maxChunk;
    DivisionIsUnique(j, maxChunk, q, j - off);
    if InWindow(mem, Addr(paddr, off), ChunkLen(maxChunk, size, off)) {
      AddrStep(paddr, off, j - off);
    }
  }

  lemma NextChunkStart(maxChunk: nat, size: nat, off: nat)
    requires maxChunk > 0 && off < size && off % maxChunk == 0
    ensures var n := ChunkLen(maxChunk, size, off); off + n < size ==> (off + n) % maxChunk == 0
  {
    var q := off / maxChunk;
    assert off == q * maxChunk && off + maxChunk == (q + 1) * maxChunk;
    DivisionIsUnique(off + maxChunk, maxChunk, q + 1, 0);
  }

  lemma {:induction false} ReadSize(mem: seq<Byte>, maxChunk: nat, paddr: nat, size: nat, off: nat)
    requires maxChunk > 0 && off <= size
    ensures |ReadFrom(mem, maxChunk, paddr, size, off)| == size - off
    decreases size - off
  {
    if off < size {
      ReadSize(mem, maxChunk, paddr, size, off + ChunkLen(maxChunk, size, off));
    }
  }

  lemma {:induction false} WriteKeepsSize(mem: seq<Byte>, maxChunk: nat, paddr: nat, data: seq<Byte>, off: nat)
    requires maxChunk > 0 && off <= |data|
    ensures |WriteFrom(mem, maxChunk, paddr, data, off)| == |mem|
    decreases |data| - off
  {
    if off < |data| {
      var n := ChunkLen(maxChunk, |data|, off);
      WriteKeepsSize(ServeWrite(mem, Addr(paddr, off), data[off..off + n]), maxChunk, paddr, data, off + n);
    }
  }

  // ---------------------------------------------------------------------------
  // Reads

  lemma OneChunkFirstRead(mem: seq<Byte>, maxChunk: nat, paddr: nat, size: nat, off: nat)
    requires maxChunk > 0 && off < size
    ensures var n := ChunkLen(maxChunk, size, off);
            ReadFrom(mem, maxChunk, paddr, size, off) ==
            ServeRead(mem, Addr(paddr, off), n) + ReadFrom(mem, maxChunk, paddr, size, off + n)
  {
    hide ServeRead, Addr;
  }

  lemma {:induction false} ReadFromAt(mem: seq<Byte>, maxChunk: nat, paddr: nat, size: nat, off: nat, j: nat)
    requires maxChunk > 0 && off <= j < size && off % maxChunk == 0 && MEM_BASE + |mem| <= TWO_64
    ensures |ReadFrom(mem, maxChunk, paddr, size, off)| == size - off
    ensures Lands(mem, maxChunk, paddr, size, j) ==> 0 <= Index(paddr, j) < |mem|
    ensures ReadFrom(mem, maxChunk, paddr, size, off)[j - off] ==
            if Lands(mem, maxChunk, paddr, size, j) then mem[Index(paddr, j)] else 0xFF
    decreases size - off
  {
    hide Addr, Lands, ReadFrom;
    var n := ChunkLen(maxChunk, size, off);
    ReadSize(mem, maxChunk, paddr, size, off);
    OneChunkFirstRead(mem, maxChunk, paddr, size, off);
    if j < off + n {
      InChunk(mem, maxChunk, paddr, size, off, j);
    } else {
      NextChunkStart(maxChunk, size, off);
      ReadFromAt(mem, maxChunk, paddr, size, off + n, j);
    }
  }

  /** Every chunked read, byte by byte: a byte comes out of memory, from its own address, exactly if its
      sub-operation lies in the window; otherwise it is all ones. */
  lemma {:induction false} ReadByteByByte(mem: seq<Byte>, maxChunk: nat, paddr: nat, size: nat)
    requires maxChunk > 0 && MEM_BASE + |mem| <= TWO_64
    ensures |ReadFrom(mem, maxChunk, paddr, size, 0)| == size
    ensures forall j: nat :: j < size ==>
              && (Lands(mem, maxChunk, paddr, size, j) ==> 0 <= Index(paddr, j) < |mem|)
              && ReadFrom(mem, maxChunk, paddr, size, 0)[j] ==
                 if Lands(mem, maxChunk, paddr, size, j) then mem[Index(paddr, j)] else 0xFF
  {
    hide Lands, Index, ReadFrom;
    ReadSize(mem, maxChunk, paddr, size, 0);
    forall j: nat | j < size
      ensures Lands(mem, maxChunk, paddr, size, j) ==> 0 <= Index(paddr, j) < |mem|
      ensures ReadFrom(mem, maxChunk, paddr, size, 0)[j] ==
              if Lands(mem, maxChunk, paddr, size, j) then mem[Index(paddr, j)] else 0xFF
    {
      ReadFromAt(mem, maxChunk, paddr, size, 0, j);
    }
  }

  // ---------------------------------------------------------------------------
  // Writes

  /** A write of the bytes from `off` on puts byte `j` at index `k` of memory of this size. */
  ghost predicate Puts(mem: seq<Byte>, maxChunk: nat, paddr: nat, size: nat, off: nat, j: nat, k: nat)
    requires maxChunk > 0
  {
    off <= j < size && Index(paddr, j) == k && Lands(mem, maxChunk, paddr, size, j)
  }

  lemma ServeWriteAt(mem: seq<Byte>, addr: nat, data: seq<Byte>, k: nat)
    requires k < |mem|
    ensures ServeWrite(mem, addr, data)[k] ==
            if InWindow(mem, addr, |data|) && addr - MEM_BASE <= k < addr - MEM_BASE + |data|
            then data[k - (addr - MEM_BASE)] else mem[k]
  {
  }

  /** What one sub-operation does to the byte at `k`. */
  lemma ChunkAt(mem: seq<Byte>, maxChunk: nat, paddr: nat, data: seq<Byte>, off: nat, k: nat)
    requires maxChunk > 0 && off < |data| && off % maxChunk == 0 && k < |mem| && MEM_BASE + |mem| <= TWO_64
    ensures var n := ChunkLen(maxChunk, |data|, off);
            var mem' := ServeWrite(mem, Addr(paddr, off), data[off..off + n]);
            && (forall j: nat :: j < off + n && Puts(mem, maxChunk, paddr, |data|, off, j, k) ==> mem'[k] == data[j])
            && ((forall j: nat :: j < off + n ==> !Puts(mem, maxChunk, paddr, |data|, off, j, k)) ==>
                  mem'[k] == mem[k])
  {
    hide Addr, Lands, ServeWrite;
    var n, at := ChunkLen(maxChunk, |data|, off), Addr(paddr, off);
    ServeWriteAt(mem, at, data[off..off + n], k);
    forall j: nat | off <= j < off + n
      ensures Lands(mem, maxChunk, paddr, |data|, j) <==> InWindow(mem, at, n)
      ensures InWindow(mem, at, n) ==> Index(paddr, j) == at + (j - off) - MEM_BASE
    {
      InChunk(mem, maxChunk, paddr, |data|, off, j);
    }
    if InWindow(mem, at, n) && at - MEM_BASE <= k < at - MEM_BASE + n {
      assert Puts(mem, maxChunk, paddr, |data|, off, off + (k - (at - MEM_BASE)), k);
    }
  }

  lemma PutsOnce(mem: seq<Byte>, maxChunk: nat, paddr: nat, size: nat, off: nat, i: nat, j: nat, k: nat)
    requires maxChunk > 0 && size <= TWO_64
    requires Puts(mem, maxChunk, paddr, size, off, i, k) && Puts(mem, maxChunk, paddr, size, off, j, k)
    ensures i == j
  {
    hide Lands, Addr;
    if i < j {
      AddrInjective(paddr, i, j);
    } else if j < i {
      AddrInjective(paddr, j, i);
    }
  }

  lemma OneChunkFirst(mem: seq<Byte>, maxChunk: nat, paddr: nat, data: seq<Byte>, off: nat)
    requires maxChunk > 0 && off <= |data|
    ensures WriteFrom(mem, maxChunk, paddr, data, off) ==
            if off == |data| then mem else
              var n := ChunkLen(maxChunk, |data|, off);
              WriteFrom(ServeWrite(mem, Addr(paddr, off), data[off..off + n]), maxChunk, paddr, data, off + n)
  {
    hide ServeWrite, Addr;
  }

  lemma PutsNothing(mem: seq<Byte>, maxChunk: nat, paddr: nat, size: nat, k: nat)
    requires maxChunk > 0
    ensures forall j: nat :: !Puts(mem, maxChunk, paddr, size, size, j, k)
  {
  }

  /** What the rest of a write puts anywhere is what the whole write does, but for the first chunk. */
  lemma RestPuts(mem: seq<Byte>, mem': seq<Byte>, maxChunk: nat, paddr: nat, size: nat, off: nat, next: nat, j: nat,
                 k: nat)
    requires maxChunk > 0 && |mem| == |mem'| && off <= next
    ensures Puts(mem', maxChunk, paddr, size, next, j, k) <==>
            next <= j && Puts(mem, maxChunk, paddr, size, off, j, k)
  {
    hide Lands, Addr;
    if j < size {
      LandsBySize(mem, mem', maxChunk, paddr, size, j);
    }
  }

  lemma {:induction false} WriteFromAt(mem: seq<Byte>, maxChunk: nat, paddr: nat, data: seq<Byte>, off: nat, k: nat)
    requires maxChunk > 0 && off <= |data| <= TWO_64 && (off < |data| ==> off % maxChunk == 0)
    requires k < |mem| && MEM_BASE + |mem| <= TWO_64
    ensures |WriteFrom(mem, maxChunk, paddr, data, off)| == |mem|
    ensures forall j: nat :: Puts(mem, maxChunk, paddr, |data|, off, j, k) ==>
                               WriteFrom(mem, maxChunk, paddr, data, off)[k] == data[j]
    ensures (forall j: nat :: !Puts(mem, maxChunk, paddr, |data|, off, j, k)) ==>
              WriteFrom(mem, maxChunk, paddr, data, off)[k] == mem[k]
    decreases |data| - off
  {
    hide WriteFrom, ServeWrite, Addr, Puts;
    WriteKeepsSize(mem, maxChunk, paddr, data, off);
    OneChunkFirst(mem, maxChunk, paddr, data, off);
    if off < |data| {
      var n := ChunkLen(maxChunk, |data|, off);
      var mem' := ServeWrite(mem, Addr(paddr, off), data[off..off + n]);
      ChunkAt(mem, maxChunk, paddr, data, off, k);
      NextChunkStart(maxChunk, |data|, off);
      var next := off + n;
      WriteFromAt(mem', maxChunk, paddr, data, next, k);
      forall j: nat
        ensures Puts(mem', maxChunk, paddr, |data|, next, j, k) <==>
                next <= j && Puts(mem, maxChunk, paddr, |data|, off, j, k)
      {
        RestPuts(mem, mem', maxChunk, paddr, |data|, off, next, j, k);
      }
      if j: nat :| Puts(mem, maxChunk, paddr, |data|, off, j, k) {
        forall i: nat | Puts(mem, maxChunk, paddr, |data|, off, i, k) ensures i == j {
          PutsOnce(mem, maxChunk, paddr, |data|, off, i, j, k);
        }
        assert next <= j || mem'[k] == data[j];
      } else {
        assert mem'[k] == mem[k];
      }
    } else {
      PutsNothing(mem, maxChunk, paddr, |data|, k);
    }
  }

  /** Whether a byte lands depends on no more than the size of memory. */
  lemma LandsBySize(mem: seq<Byte>, mem': seq<Byte>, maxChunk: nat, paddr: nat, size: nat, j: nat)
    requires maxChunk > 0 && j < size && |mem| == |mem'|
    ensures Lands(mem, maxChunk, paddr, size, j) == Lands(mem', maxChunk, paddr, size, j)
  {
    hide Addr;
  }

  /** Every chunked write, byte by byte: a byte lands, at its own address, exactly if its sub-operation lies in
      the window, and otherwise leaves what is there; memory that no byte is addressed to is untouched. */
  lemma {:induction false} WriteByteByByte(mem: seq<Byte>, maxChunk: nat, paddr: nat, data: seq<Byte>)
    requires maxChunk > 0 && |data| <= TWO_64 && MEM_BASE + |mem| <= TWO_64
    ensures |WriteFrom(mem, maxChunk, paddr, data, 0)| == |mem|
    ensures forall j: nat :: j < |data| ==>
              if Lands(mem, maxChunk, paddr, |data|, j)
              then 0 <= Index(paddr, j) < |mem| &&
                   WriteFrom(mem, maxChunk, paddr, data, 0)[Index(paddr, j)] == data[j]
              else 0 <= Index(paddr, j) < |mem| ==>
                     WriteFrom(mem, maxChunk, paddr, data, 0)[Index(paddr, j)] == mem[Index(paddr, j)]
    ensures forall k: nat :: k < |mem| && (forall j: nat :: j < |data| ==> Index(paddr, j) != k) ==>
              WriteFrom(mem, maxChunk, paddr, data, 0)[k] == mem[k]
  {
    hide WriteFrom, Lands, Addr;
    WriteKeepsSize(mem, maxChunk, paddr, data, 0);
    var mem' := WriteFrom(mem, maxChunk, paddr, data, 0);
    forall j: nat | j < |data|
      ensures if Lands(mem, maxChunk, paddr, |data|, j)
              then 0 <= Index(paddr, j) < |mem| && mem'[Index(paddr, j)] == data[j]
              else 0 <= Index(paddr, j) < |mem| ==> mem'[Index(paddr, j)] == mem[Index(paddr, j)]
    {
      ByteLandsOrNot(mem, maxChunk, paddr, data, j);
    }
    forall k: nat | k < |mem| && (forall j: nat :: j < |data| ==> Index(paddr, j) != k) ensures mem'[k] == mem[k] {
      WriteFromAt(mem, maxChunk, paddr, data, 0, k);
    }
  }

  lemma ByteLandsOrNot(mem: seq<Byte>, maxChunk: nat, paddr: nat, data: seq<Byte>, j: nat)
    requires maxChunk > 0 && j < |data| <= TWO_64 && MEM_BASE + |mem| <= TWO_64
    ensures |WriteFrom(mem, maxChunk, paddr, data, 0)| == |mem|
    ensures if Lands(mem, maxChunk, paddr, |data|, j)
            then 0 <= Index(paddr, j) < |mem| &&
                 WriteFrom(mem, maxChunk, paddr, data, 0)[Index(paddr, j)] == data[j]
            else 0 <= Index(paddr, j) < |mem| ==>
                   WriteFrom(mem, maxChunk, paddr, data, 0)[Index(paddr, j)] == mem[Index(paddr, j)]
  {
    hide WriteFrom, Lands, Addr;
    WriteKeepsSize(mem, maxChunk, paddr, data, 0);
    ReadFromAt(mem, maxChunk, paddr, |data|, 0, j);
    var k := Index(paddr, j);
    if 0 <= k < |mem| {
      WriteFromAt(mem, maxChunk, paddr, data, 0, k);
      if Lands(mem, maxChunk, paddr, |data|, j) {
        assert Puts(mem, maxChunk, paddr, |data|, 0, j, k);
      } else {
        forall i: nat ensures !Puts(mem, maxChunk, paddr, |data|, 0, i, k) {
          if i < j {
            AddrInjective(paddr, i, j);
          } else if j < i < |data| {
            AddrInjective(paddr, j, i);
          }
        }
      }
    }
  }
}
