module Bars {
  import opened Link
  import opened Arithmetic

  datatype Chip = Chip(deviceId: nat, bar0Base: nat, bar0Size: nat, bar2Base: nat, bar2Size: nat,
                       bar4Base: nat, bar4Size: nat)

  const BAR0_BASE := 0x1_0000_0000
  const BAR2_BASE := 0x1_2000_0000
  const BAR4_BASE := 0x8_0000_0000
  const MIB := 0x10_0000
  const GIB := 0x4000_0000

  const WORMHOLE := Chip(0x401E, BAR0_BASE, 512 * MIB, BAR2_BASE, MIB, BAR4_BASE, 32 * MIB)
  const BLACKHOLE := Chip(0xB140, BAR0_BASE, 512 * MIB, BAR2_BASE, MIB, BAR4_BASE, 32 * GIB)

  /** The base and size of a window; a non-zero override replaces BAR4's size. */
  function Window(chip: Chip, bar4Override: nat, bar: nat): Option<(nat, nat)> {
    if bar == 0 then Some((chip.bar0Base, chip.bar0Size))
    else if bar == 2 then Some((chip.bar2Base, chip.bar2Size))
    else if bar == 4 then Some((chip.bar4Base, if bar4Override != 0 then bar4Override else chip.bar4Size))
    else None
  }

  /** The physical address libttsim decodes for (bar, offset), on uint64_t arithmetic. */
  function BarTranslate(chip: Chip, bar4Override: nat, bar: nat, offset: nat, len: nat): Option<nat> {
    match Window(chip, bar4Override, bar)
    case None => None
    case Some((base, size)) =>
      if offset > size || len > size - offset then None else Some((base + offset) % TWO_64)
  }

  predicate IsChip(chip: Chip) {
    chip == WORMHOLE || chip == BLACKHOLE
  }

  /** An access is accepted exactly when it fits its window; a non-empty accepted access lies in the
      window byte for byte and neither end of it wraps around. */
  lemma AcceptedStaysInWindow(chip: Chip, bar4Override: nat, bar: nat, offset: nat, len: nat)
    requires IsChip(chip) && BAR4_BASE + bar4Override <= TWO_64 && offset < TWO_64
    ensures var w := Window(chip, bar4Override, bar);
            var paddr := BarTranslate(chip, bar4Override, bar, offset, len);
            && (paddr.Some? <==> w.Some? && offset + len <= w.value.1)
            && (paddr.Some? && len > 0 ==>
                  && paddr.value == w.value.0 + offset
                  && paddr.value + len <= w.value.0 + w.value.1 <= TWO_64)
  {
    var w := Window(chip, bar4Override, bar);
    if w.Some? && offset + len <= w.value.1 && len > 0 {
      assert (w.value.0 + offset) % TWO_64 == w.value.0 + offset;
    }
  }

  /** The windows are disjoint: two non-empty accepted accesses that share even one byte go to the same
      BAR, and their offsets differ by as much as their addresses do. */
  lemma AddressDeterminesAccess(chip: Chip, bar4Override: nat, bar: nat, offset: nat, len: nat,
                                bar': nat, offset': nat, len': nat, byte: nat)
    requires IsChip(chip) && BAR4_BASE + bar4Override <= TWO_64 && offset < TWO_64 && offset' < TWO_64
    requires BarTranslate(chip, bar4Override, bar, offset, len).Some?
    requires BarTranslate(chip, bar4Override, bar', offset', len').Some?
    requires var p := BarTranslate(chip, bar4Override, bar, offset, len).value;
             var p' := BarTranslate(chip, bar4Override, bar', offset', len').value;
             p <= byte < p + len && p' <= byte < p' + len'
    ensures bar == bar'
    ensures BarTranslate(chip, bar4Override, bar, offset, len).value - offset ==
            BarTranslate(chip, bar4Override, bar', offset', len').value - offset'
  {
    AcceptedStaysInWindow(chip, bar4Override, bar, offset, len);
    AcceptedStaysInWindow(chip, bar4Override, bar', offset', len');
  }

  /** Empty accesses are the exception: the end of BAR0 is the start of BAR2. */
  lemma EmptyAccessIsAmbiguous(chip: Chip, bar4Override: nat)
    requires IsChip(chip)
    ensures BarTranslate(chip, bar4Override, 0, chip.bar0Size, 0) ==
            BarTranslate(chip, bar4Override, 2, 0, 0) == Some(BAR2_BASE)
  {
    assert BAR2_BASE % TWO_64 == BAR2_BASE;
  }

  /** The memory map, in numbers: BAR0 is 512 MiB at 4 GiB, BAR2 is 1 MiB right behind it, BAR4 is at 32 GiB and has
      the size of the override, if there is one, else that of the chip: 32 MiB or 32 GiB. */
  lemma MemoryMap(chip: Chip, bar4Override: nat, bar: nat, offset: nat, len: nat)
    requires IsChip(chip) && 0x8_0000_0000 + bar4Override <= TWO_64 && offset < TWO_64 && len > 0
    ensures var size4 := if bar4Override > 0 then bar4Override
                         else if chip.deviceId == 0x401E then 0x200_0000 else 0x8_0000_0000;
            BarTranslate(chip, bar4Override, bar, offset, len) ==
            if bar == 0 && offset + len <= 0x2000_0000 then Some(0x1_0000_0000 + offset)
            else if bar == 2 && offset + len <= 0x10_0000 then Some(0x1_2000_0000 + offset)
            else if bar == 4 && offset + len <= size4 then Some(0x8_0000_0000 + offset)
            else None
  {
    AcceptedStaysInWindow(chip, bar4Override, bar, offset, len);
  }
}
