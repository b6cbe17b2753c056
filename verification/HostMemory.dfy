/** Host memory as the probe serves it, and the chunked transfers the adapter makes out of it. */
module HostMemory {
  import opened Arithmetic

  type Byte = bv8

  const MEM_BASE := 0x4000_0000

  /** Every byte of [addr, addr + len) lies in the window backed by `mem`. */
  predicate InWindow(mem: seq<Byte>, addr: nat, len: nat) {
    addr >= MEM_BASE && addr - MEM_BASE <= |mem| && len <= |mem| - (addr - MEM_BASE)
  }

  /** What the probe answers to a DMA read: memory, or all ones outside the window. */
  function ServeRead(mem: seq<Byte>, addr: nat, len: nat): (data: seq<Byte>)
    ensures |data| == len
  {
    if InWindow(mem, addr, len) then mem[addr - MEM_BASE..addr - MEM_BASE + len] else seq(len, _ => 0xFF)
  }

  /** What a DMA write leaves in memory; one outside the window is dropped (yet still acknowledged). */
  function ServeWrite(mem: seq<Byte>, addr: nat, data: seq<Byte>): (mem': seq<Byte>)
    ensures |mem'| == |mem|
  {
    if InWindow(mem, addr, |data|) then
      mem[..addr - MEM_BASE] + data + mem[addr - MEM_BASE + |data|..]
    else
      mem
  }

  /** Address arithmetic is on uint64_t. */
  function Addr(paddr: nat, off: nat): nat {
    (paddr + off) % TWO_64
  }

  function ChunkLen(maxChunk: nat, size: nat, off: nat): (n: nat)
    requires maxChunk > 0 && off <= size
    ensures n <= maxChunk && off + n <= size
    ensures off < size ==> n > 0
  {
    if size - off > maxChunk then maxChunk else size - off
  }

  /** The number of sub-operations a transfer of `size` bytes is split into. */
  function Chunks(maxChunk: nat, size: nat): nat
    requires maxChunk > 0
  {
    (size + maxChunk - 1) / maxChunk
  }

  /** What a chunked read returns for the part of the transfer from `off` on. */
  function ReadFrom(mem: seq<Byte>, maxChunk: nat, paddr: nat, size: nat, off: nat): seq<Byte>
    requires maxChunk > 0 && off <= size
    decreases size - off
  {
    if off == size then [] else
      var n := ChunkLen(maxChunk, size, off);
      ServeRead(mem, Addr(paddr, off), n) + ReadFrom(mem, maxChunk, paddr, size, off + n)
  }

  /** What a chunked write leaves in memory once the part from `off` on is done. */
  function WriteFrom(mem: seq<Byte>, maxChunk: nat, paddr: nat, data: seq<Byte>, off: nat): seq<Byte>
    requires maxChunk > 0 && off <= |data|
    decreases |data| - off
  {
    if off == |data| then mem else
      var n := ChunkLen(maxChunk, |data|, off);
      WriteFrom(ServeWrite(mem, Addr(paddr, off), data[off..off + n]), maxChunk, paddr, data, off + n)
  }
}
