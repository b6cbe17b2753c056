/** The idle fast path: two chip-wide counters that let an idle clock skip the sweep over all tiles. */
module FastPath {
  import opened Link
  import opened Bits
  import opened InstFifo
  import opened Arithmetic

  const WORD := 32

  datatype Tile = Tile(cores: nat, pipes: nat, fifos: seq<Ring>)

  /** The chip as it was: tiles, the activity mask of the eth cores, and everything else (memories, registers),
      encoded as a number. */
  datatype Chip = Chip(tiles: seq<Tile>, eth: nat, rest: nat)

  /** The chip with the two counters, both uint32_t. */
  datatype FastChip = FastChip(chip: Chip, rv32: nat, pipes: nat)

  /** The four places that change a mask, the eth branch of the first of them, and any change to the rest. */
  datatype Op = SetCore(tile: nat, core: nat, active: bool) | SetEth(core: nat, active: bool)
              | Push(tile: nat, pipe: nat, inst: nat) | Pop(tile: nat, pipe: nat) | SetRest(rest: nat)

  function WithBit(mask: nat, i: nat, active: bool): nat {
    if active then Or(mask, Shifted(i)) else AndNot(mask, Shifted(i))
  }

  /** Operations that address something that exists. */
  predicate Addresses(c: Chip, op: Op) {
    match op
    case SetCore(t, core, _) => t < |c.tiles| && core < WORD
    case SetEth(core, _) => core < 64
    case Push(t, pipe, _) => t < |c.tiles| && pipe < |c.tiles[t].fifos|
    case Pop(t, pipe) => t < |c.tiles| && pipe < |c.tiles[t].fifos|
    case SetRest(_) => true
  }

  function WithTile(c: Chip, t: nat, tile: Tile): Chip
    requires t < |c.tiles|
  {
    c.(tiles := c.tiles[t := tile])
  }

  function Pushed(tile: Tile, pipe: nat, inst: nat): Tile
    requires pipe < |tile.fifos| && RingOk(tile.fifos[pipe])
  {
    tile.(fifos := tile.fifos[pipe := Stored(tile.fifos[pipe], inst)], pipes := Or(tile.pipes, Shifted(pipe)))
  }

  function Popped(tile: Tile, pipe: nat): Tile
    requires pipe < |tile.fifos| && RingOk(tile.fifos[pipe])
  {
    var r := Dropped(tile.fifos[pipe]);
    tile.(fifos := tile.fifos[pipe := r],
          pipes := if r.rd == r.wr then AndNot(tile.pipes, Shifted(pipe)) else tile.pipes)
  }

  predicate RingsOk(c: Chip) {
    forall t, p :: 0 <= t < |c.tiles| && 0 <= p < |c.tiles[t].fifos| ==> RingOk(c.tiles[t].fifos[p])
  }

  /** One operation; None if it ends the simulation. Only active pipes are popped. */
  function Apply(c: Chip, op: Op): (c': Option<Chip>)
    requires RingsOk(c)
    ensures c'.Some? ==> RingsOk(c'.value) && |c'.value.tiles| == |c.tiles|
  {
    if !Addresses(c, op) then None
    else match op
      case SetCore(t, core, active) =>
        Some(WithTile(c, t, c.tiles[t].(cores := WithBit(c.tiles[t].cores, core, active))))
      case SetEth(core, active) => Some(c.(eth := WithBit(c.eth, core, active)))
      case Push(t, pipe, inst) =>
        var tile := Pushed(c.tiles[t], pipe, inst);
        if tile.fifos[pipe].wr == tile.fifos[pipe].rd then None else Some(WithTile(c, t, tile))
      case Pop(t, pipe) =>
        if !Bit(c.tiles[t].pipes, pipe) then Some(c) else Some(WithTile(c, t, Popped(c.tiles[t], pipe)))
      case SetRest(rest) => Some(c.(rest := rest))
  }

  /** What the patch adds to the counters for the operation, on uint32_t. */
  function Count(f: FastChip, op: Op): (f': FastChip)
    requires Addresses(f.chip, op) && RingsOk(f.chip)
    ensures f'.chip == f.chip
  {
    match op
    case SetCore(t, core, active) =>
      var before := f.chip.tiles[t].cores;
      f.(rv32 := (f.rv32 + Popcount(WithBit(before, core, active)) - Popcount(before)) % TWO_32)
    case SetEth(_, _) => f
    case SetRest(_) => f
    case Push(t, pipe, _) =>
      if Bit(f.chip.tiles[t].pipes, pipe) then f else f.(pipes := (f.pipes + 1) % TWO_32)
    case Pop(t, pipe) =>
      if Bit(f.chip.tiles[t].pipes, pipe) &&
         Dropped(f.chip.tiles[t].fifos[pipe]).rd == f.chip.tiles[t].fifos[pipe].wr
      then f.(pipes := (f.pipes - 1) % TWO_32) else f
  }

  function ApplyFast(f: FastChip, op: Op): Option<FastChip>
    requires RingsOk(f.chip)
  {
    match Apply(f.chip, op)
    case None => None
    case Some(c) => Some(Count(f, op).(chip := c))
  }

  function ApplyAll(c: Chip, ops: seq<Op>): (c': Option<Chip>)
    requires RingsOk(c)
    ensures c'.Some? ==> RingsOk(c'.value) && |c'.value.tiles| == |c.tiles|
    decreases |ops|
  {
    if ops == [] then Some(c)
    else match Apply(c, ops[0])
      case None => None
      case Some(c') => ApplyAll(c', ops[1..])
  }

  function ApplyAllFast(f: FastChip, ops: seq<Op>): (f': Option<FastChip>)
    requires RingsOk(f.chip)
    ensures f'.Some? ==> RingsOk(f'.value.chip) && |f'.value.chip.tiles| == |f.chip.tiles|
    decreases |ops|
  {
    if ops == [] then Some(f)
    else match ApplyFast(f, ops[0])
      case None => None
      case Some(f') => ApplyAllFast(f', ops[1..])
  }

  // ---------------------------------------------------------------------------
  // Clocking

  /** What clocking one Tensix tile, or one eth core, does: some sequence of the operations, on any tiles,
      that may depend on everything in the chip but the counters. */
  datatype Model = Model(tile: (Chip, nat) -> seq<Op>, eth: (Chip, nat) -> seq<Op>)

  /** Clocking a tile with no active core and no active pipe does nothing. */
  ghost predicate IdleTilesRest(m: Model) {
    forall c: Chip, t: nat :: t < |c.tiles| && c.tiles[t].cores == 0 && c.tiles[t].pipes == 0 ==> m.tile(c, t) == []
  }

  function Sweep(m: Model, c: Chip, t: nat): (c': Option<Chip>)
    requires RingsOk(c) && t <= |c.tiles|
    ensures c'.Some? ==> RingsOk(c'.value) && |c'.value.tiles| == |c.tiles|
    decreases |c.tiles| - t
  {
    if t == |c.tiles| then Some(c)
    else match ApplyAll(c, m.tile(c, t))
      case None => None
      case Some(c') => Sweep(m, c', t + 1)
  }

  function SweepFast(m: Model, f: FastChip, t: nat): (f': Option<FastChip>)
    requires RingsOk(f.chip) && t <= |f.chip.tiles|
    ensures f'.Some? ==> RingsOk(f'.value.chip) && |f'.value.chip.tiles| == |f.chip.tiles|
    decreases |f.chip.tiles| - t
  {
    if t == |f.chip.tiles| then Some(f)
    else match ApplyAllFast(f, m.tile(f.chip, t))
      case None => None
      case Some(f') => SweepFast(m, f', t + 1)
  }

  /** Clock the eth cores in `cores`, in order. */
  function EthSweep(m: Model, c: Chip, cores: seq<nat>): (c': Option<Chip>)
    requires RingsOk(c)
    ensures c'.Some? ==> RingsOk(c'.value) && |c'.value.tiles| == |c.tiles|
    decreases |cores|
  {
    if cores == [] then Some(c)
    else match ApplyAll(c, m.eth(c, cores[0]))
      case None => None
      case Some(c') => EthSweep(m, c', cores[1..])
  }

  function EthSweepFast(m: Model, f: FastChip, cores: seq<nat>): (f': Option<FastChip>)
    requires RingsOk(f.chip)
    ensures f'.Some? ==> RingsOk(f'.value.chip) && |f'.value.chip.tiles| == |f.chip.tiles|
    decreases |cores|
  {
    if cores == [] then Some(f)
    else match ApplyAllFast(f, m.eth(f.chip, cores[0]))
      case None => None
      case Some(f') => EthSweepFast(m, f', cores[1..])
  }

  /** clock_current_chip without the patch: sweep every tile, then the active eth cores. */
  function Clock(m: Model, c: Chip): (c': Option<Chip>)
    requires RingsOk(c)
    ensures c'.Some? ==> RingsOk(c'.value) && |c'.value.tiles| == |c.tiles|
  {
    match Sweep(m, c, 0)
    case None => None
    case Some(c') => EthSweep(m, c', Positions(c'.eth, 0))
  }

  /** clock_current_chip with it: no sweep if both counters are zero. */
  function ClockFast(m: Model, f: FastChip): (f': Option<FastChip>)
    requires RingsOk(f.chip)
    ensures f'.Some? ==> RingsOk(f'.value.chip) && |f'.value.chip.tiles| == |f.chip.tiles|
  {
    match if f.rv32 == 0 && f.pipes == 0 then Some(f) else SweepFast(m, f, 0)
    case None => None
    case Some(f') => EthSweepFast(m, f', Positions(f'.chip.eth, 0))
  }

  // ---------------------------------------------------------------------------
  // The counters agree with the masks

  function SumCores(tiles: seq<Tile>): nat {
    if tiles == [] then 0 else SumCores(tiles[..|tiles| - 1]) + Popcount(tiles[|tiles| - 1].cores)
  }

  function SumPipes(tiles: seq<Tile>): nat {
    if tiles == [] then 0 else SumPipes(tiles[..|tiles| - 1]) + Popcount(tiles[|tiles| - 1].pipes)
  }

  /** The masks are words, and a pipe is active exactly when its FIFO holds something. */
  ghost predicate Healthy(tile: Tile) {
    && tile.cores < Shifted(WORD) && tile.pipes < Shifted(WORD) && |tile.fifos| <= WORD
    && forall p :: 0 <= p < |tile.fifos| ==>
         RingOk(tile.fifos[p]) && (Bit(tile.pipes, p) <==> Contents(tile.fifos[p]) != [])
  }

  ghost predicate AllHealthy(c: Chip) {
    forall t :: 0 <= t < |c.tiles| ==> Healthy(c.tiles[t])
  }

  /** The counters are the sums of the popcounts of the masks, on uint32_t and for any number of tiles. */
  ghost predicate Agrees(f: FastChip) {
    && AllHealthy(f.chip)
    && f.rv32 == SumCores(f.chip.tiles) % TWO_32
    && f.pipes == SumPipes(f.chip.tiles) % TWO_32
  }

  /** So few tiles that neither sum can reach 2^32. */
  predicate Fits(c: Chip) {
    |c.tiles| * WORD < TWO_32
  }

  lemma {:induction false} SumUpdate(tiles: seq<Tile>, t: nat, tile: Tile)
    requires t < |tiles|
    ensures SumCores(tiles[t := tile]) == SumCores(tiles) - Popcount(tiles[t].cores) + Popcount(tile.cores)
    ensures SumPipes(tiles[t := tile]) == SumPipes(tiles) - Popcount(tiles[t].pipes) + Popcount(tile.pipes)
  {
    hide Popcount;
    var n := |tiles| - 1;
    if t == n {
      assert tiles[t := tile][..n] == tiles[..n];
    } else {
      assert tiles[t := tile][..n] == tiles[..n][t := tile];
      SumUpdate(tiles[..n], t, tile);
    }
  }

  /** How large the sums can be, and that each bounds every tile's share of it. */
  lemma {:induction false} SumBounds(tiles: seq<Tile>)
    requires forall t :: 0 <= t < |tiles| ==> Healthy(tiles[t])
    ensures SumCores(tiles) <= |tiles| * WORD && SumPipes(tiles) <= |tiles| * WORD
    ensures forall t :: 0 <= t < |tiles| ==>
              Popcount(tiles[t].cores) <= SumCores(tiles) && Popcount(tiles[t].pipes) <= SumPipes(tiles)
  {
    hide Popcount, Contents, Shifted;
    if tiles != [] {
      var n := |tiles| - 1;
      SumBounds(tiles[..n]);
      assert Healthy(tiles[n]);
      WordBounds(tiles[n].cores, WORD, 0);
      WordBounds(tiles[n].pipes, WORD, 0);
      forall t | 0 <= t < |tiles|
        ensures Popcount(tiles[t].cores) <= SumCores(tiles) && Popcount(tiles[t].pipes) <= SumPipes(tiles)
      {
        assert t < n ==> tiles[..n][t] == tiles[t];
      }
    }
  }

  lemma WithBitKeepsWord(mask: nat, i: nat, active: bool)
    requires mask < Shifted(WORD) && i < WORD
    ensures WithBit(mask, i, active) < Shifted(WORD)
  {
    WordBounds(mask, WORD, i);
    ClearBit(mask, i);
  }

  /** A push leaves the tile healthy and makes its pipe active. */
  lemma PushKeepsHealthy(tile: Tile, pipe: nat, inst: nat)
    requires Healthy(tile) && pipe < |tile.fifos|
    requires Pushed(tile, pipe, inst).fifos[pipe].wr != tile.fifos[pipe].rd
    ensures Healthy(Pushed(tile, pipe, inst))
    ensures Popcount(Pushed(tile, pipe, inst).pipes) == Popcount(tile.pipes) + if Bit(tile.pipes, pipe) then 0 else 1
  {
    hide Shifted, Popcount, Contents, Bit;
    SetBit(tile.pipes, pipe);
    WordBounds(tile.pipes, WORD, pipe);
    MeetMeansEmpty(tile.fifos[pipe]);
    StoreAppends(tile.fifos[pipe], inst);
    forall p | 0 <= p < |tile.fifos| && p != pipe
      ensures Bit(Or(tile.pipes, Shifted(pipe)), p) == Bit(tile.pipes, p)
    {
      SetBitFrame(tile.pipes, pipe, p);
    }
  }

  /** Popping an active pipe leaves the tile healthy; the pipe is inactive afterwards if it ran empty. */
  lemma PopKeepsHealthy(tile: Tile, pipe: nat)
    requires Healthy(tile) && pipe < |tile.fifos| && Bit(tile.pipes, pipe)
    ensures Healthy(Popped(tile, pipe))
    ensures Popcount(Popped(tile, pipe).pipes) ==
            Popcount(tile.pipes) - if Dropped(tile.fifos[pipe]).rd == tile.fifos[pipe].wr then 1 else 0
  {
    hide Shifted, Popcount, Contents, Bit;
    ClearBit(tile.pipes, pipe);
    MeetMeansEmpty(Dropped(tile.fifos[pipe]));
    DropTakesHead(tile.fifos[pipe]);
    forall p | 0 <= p < |tile.fifos| && p != pipe
      ensures Bit(AndNot(tile.pipes, Shifted(pipe)), p) == Bit(tile.pipes, p)
    {
      ClearBitFrame(tile.pipes, pipe, p);
    }
  }

  lemma WrapAdd(x: int, d: int)
    ensures (x % TWO_32 + d) % TWO_32 == (x + d) % TWO_32
  {
    var q := x / TWO_32;
    assert x == q * TWO_32 + x % TWO_32;
    AddMultiple(x % TWO_32 + d, q);
  }

  lemma AddMultiple(x: int, q: int)
    ensures (x + q * TWO_32) % TWO_32 == x % TWO_32
  {
  }

  lemma SmallMod(x: int)
    ensures 0 <= x < TWO_32 ==> x % TWO_32 == x
  {
  }

  /** Counter agreement, at every operation and so in the middle of a sweep as well. */
  lemma OperationKeepsAgreement(f: FastChip, op: Op)
    requires Agrees(f) && RingsOk(f.chip) && ApplyFast(f, op).Some?
    ensures Agrees(ApplyFast(f, op).value)
  {
    hide Shifted, Popcount, Contents, Bit, Healthy, RingOk, Pushed, Popped, SumCores, SumPipes, Stored, Dropped;
    match op
    case SetCore(t, core, active) => SetCoreKeepsAgreement(f, t, core, active);
    case SetEth(core, active) =>
    case SetRest(rest) =>
    case Push(t, pipe, inst) => PushKeepsAgreement(f, t, pipe, inst);
    case Pop(t, pipe) => PopKeepsAgreement(f, t, pipe);
  }

  lemma SetCoreKeepsAgreement(f: FastChip, t: nat, core: nat, active: bool)
    requires Agrees(f) && RingsOk(f.chip) && t < |f.chip.tiles| && core < WORD
    ensures ApplyFast(f, SetCore(t, core, active)).Some?
    ensures Agrees(ApplyFast(f, SetCore(t, core, active)).value)
  {
    hide Shifted, Popcount, Contents, Bit, RingOk, SumCores, SumPipes, WithBit;
    var tiles := f.chip.tiles;
    var tile := tiles[t].(cores := WithBit(tiles[t].cores, core, active));
    assert Healthy(tiles[t]);
    WithBitKeepsWord(tiles[t].cores, core, active);
    SumUpdate(tiles, t, tile);
    WrapAdd(SumCores(tiles), Popcount(tile.cores) - Popcount(tiles[t].cores));
  }

  lemma PushKeepsAgreement(f: FastChip, t: nat, pipe: nat, inst: nat)
    requires Agrees(f) && RingsOk(f.chip) && ApplyFast(f, Push(t, pipe, inst)).Some?
    ensures Agrees(ApplyFast(f, Push(t, pipe, inst)).value)
  {
    hide Shifted, Popcount, Contents, Bit, RingOk, SumCores, SumPipes;
    var tiles := f.chip.tiles;
    assert Healthy(tiles[t]);
    var tile := Pushed(tiles[t], pipe, inst);
    PushKeepsHealthy(tiles[t], pipe, inst);
    SumUpdate(tiles, t, tile);
    PushUnchanged(tiles[t], pipe, inst);
    hide Healthy, Pushed;
    WrapAdd(SumPipes(tiles), 1);
  }

  lemma PushUnchanged(tile: Tile, pipe: nat, inst: nat)
    requires pipe < |tile.fifos| && RingOk(tile.fifos[pipe])
    ensures Pushed(tile, pipe, inst).cores == tile.cores
    ensures Pushed(tile, pipe, inst).fifos[pipe].rd == tile.fifos[pipe].rd
  {
  }

  lemma PopKeepsAgreement(f: FastChip, t: nat, pipe: nat)
    requires Agrees(f) && RingsOk(f.chip) && ApplyFast(f, Pop(t, pipe)).Some?
    ensures Agrees(ApplyFast(f, Pop(t, pipe)).value)
  {
    hide Shifted, Popcount, Contents, Bit, RingOk, SumCores, SumPipes;
    var tiles := f.chip.tiles;
    if Bit(tiles[t].pipes, pipe) {
      assert Healthy(tiles[t]);
      var tile := Popped(tiles[t], pipe);
      PopKeepsHealthy(tiles[t], pipe);
      SumUpdate(tiles, t, tile);
      WrapAdd(SumPipes(tiles), -1);
    }
  }

  /** On a chip that fits, the counters are the sums themselves, and neither the increment nor the unguarded
      decrement of the pipe counter wraps around: it moves by one exactly when a pipe becomes active or runs
      empty. */
  lemma PipesNeverWrap(f: FastChip, op: Op)
    requires Agrees(f) && RingsOk(f.chip) && Fits(f.chip) && ApplyFast(f, op).Some?
    ensures f.rv32 == SumCores(f.chip.tiles) && f.pipes == SumPipes(f.chip.tiles)
    ensures Count(f, op).pipes == f.pipes +
            match op
            case Push(t, pipe, _) => if Bit(f.chip.tiles[t].pipes, pipe) then 0 else 1
            case Pop(t, pipe) =>
              if Contents(f.chip.tiles[t].fifos[pipe]) != [] && Contents(Dropped(f.chip.tiles[t].fifos[pipe])) == []
              then -1 else 0
            case _ => 0
  {
    assert Addresses(f.chip, op);
    hide Shifted, Popcount, Contents, Bit, RingOk, SumCores, SumPipes, Pushed, Dropped, Apply;
    SumsFit(f.chip);
    match op {
      case Push(t, pipe, inst) => PushedSum(f, t, pipe, inst);
      case Pop(t, pipe) => PoppedSum(f, t, pipe);
      case _ =>
    }
  }

  /** A pop that empties a pipe leaves something for the decrement to take. */
  lemma PoppedSum(f: FastChip, t: nat, pipe: nat)
    requires Agrees(f) && RingsOk(f.chip) && Fits(f.chip) && t < |f.chip.tiles| && pipe < |f.chip.tiles[t].fifos|
    ensures var fifo := f.chip.tiles[t].fifos[pipe];
            Count(f, Pop(t, pipe)).pipes ==
            f.pipes - if Contents(fifo) != [] && Contents(Dropped(fifo)) == [] then 1 else 0
  {
    hide Shifted, Popcount, Contents, Bit, RingOk, SumCores, SumPipes, Dropped;
    var tiles := f.chip.tiles;
    SumsFit(f.chip);
    assert Healthy(tiles[t]);
    MeetMeansEmpty(Dropped(tiles[t].fifos[pipe]));
    DropLeavesWr(tiles[t].fifos[pipe]);
    SumBounds(tiles);
    if Bit(tiles[t].pipes, pipe) {
      PopKeepsHealthy(tiles[t], pipe);
      hide Popped;
      SmallMod(f.pipes - 1);
    }
  }

  lemma DropLeavesWr(r: Ring)
    requires RingOk(r)
    ensures Dropped(r).wr == r.wr && |Dropped(r).buf| == |r.buf|
  {
  }

  lemma SumsFit(c: Chip)
    requires AllHealthy(c) && Fits(c)
    ensures SumCores(c.tiles) % TWO_32 == SumCores(c.tiles) < TWO_32
    ensures SumPipes(c.tiles) % TWO_32 == SumPipes(c.tiles) < TWO_32
  {
    hide SumCores, SumPipes, Healthy;
    SumBounds(c.tiles);
    SmallMod(SumCores(c.tiles));
    SmallMod(SumPipes(c.tiles));
  }

  /** A push that makes a pipe active leaves room for the increment. */
  lemma PushedSum(f: FastChip, t: nat, pipe: nat, inst: nat)
    requires Agrees(f) && RingsOk(f.chip) && Fits(f.chip) && ApplyFast(f, Push(t, pipe, inst)).Some?
    ensures Count(f, Push(t, pipe, inst)).pipes == f.pipes + if Bit(f.chip.tiles[t].pipes, pipe) then 0 else 1
  {
    hide Shifted, Popcount, Contents, Bit, RingOk, SumCores, SumPipes;
    var tiles := f.chip.tiles;
    assert Healthy(tiles[t]);
    PushKeepsHealthy(tiles[t], pipe, inst);
    PushUnchanged(tiles[t], pipe, inst);
    SumUpdate(tiles, t, Pushed(tiles[t], pipe, inst));
    SumsFit(f.chip);
    assert AllHealthy(WithTile(f.chip, t, Pushed(tiles[t], pipe, inst)));
    SumsFit(WithTile(f.chip, t, Pushed(tiles[t], pipe, inst)));
    hide Healthy, Pushed;
    SmallMod(f.pipes + 1);
  }

  // ---------------------------------------------------------------------------
  // What the operations do, bit by bit and queue by queue

  /** Everything but the tile `t`. */
  predicate SameElsewhere(c: Chip, c': Chip, t: nat) {
    && |c'.tiles| == |c.tiles| && c'.eth == c.eth && c'.rest == c.rest
    && forall u :: 0 <= u < |c.tiles| && u != t ==> c'.tiles[u] == c.tiles[u]
  }

  /** Of one mask, bit `i` becomes `active` and no other bit changes. */
  ghost predicate OnlyBit(mask: nat, mask': nat, i: nat, active: bool) {
    (Bit(mask', i) <==> active) && forall j: nat :: j != i ==> (Bit(mask', j) <==> Bit(mask, j))
  }

  lemma WithBitSwitches(mask: nat, i: nat, active: bool)
    ensures OnlyBit(mask, WithBit(mask, i, active), i, active)
  {
    hide Bit, Or, AndNot, Shifted;
    SetBit(mask, i);
    ClearBit(mask, i);
    forall j: nat | j != i
      ensures Bit(Or(mask, Shifted(i)), j) == Bit(mask, j) == Bit(AndNot(mask, Shifted(i)), j)
    {
      SetBitFrame(mask, i, j);
      ClearBitFrame(mask, i, j);
    }
  }

  /** Activating or deactivating a core switches its bit and changes nothing else. */
  lemma SetCoreSwitches(c: Chip, t: nat, core: nat, active: bool)
    requires RingsOk(c) && t < |c.tiles| && core < 32
    ensures match Apply(c, SetCore(t, core, active))
            case None => false
            case Some(c') =>
              && SameElsewhere(c, c', t) && OnlyBit(c.tiles[t].cores, c'.tiles[t].cores, core, active)
              && c'.tiles[t].pipes == c.tiles[t].pipes && c'.tiles[t].fifos == c.tiles[t].fifos
  {
    hide WithBit, OnlyBit, RingOk;
    WithBitSwitches(c.tiles[t].cores, core, active);
  }

  /** The same for an eth core and the chip-wide mask. */
  lemma SetEthSwitches(c: Chip, core: nat, active: bool)
    requires RingsOk(c) && core < 64
    ensures match Apply(c, SetEth(core, active))
            case None => false
            case Some(c') => c'.tiles == c.tiles && c'.rest == c.rest && OnlyBit(c.eth, c'.eth, core, active)
  {
    hide WithBit, OnlyBit, RingOk;
    WithBitSwitches(c.eth, core, active);
  }

  /** A push puts its instruction at the end of the FIFO of its pipe, makes the pipe active and changes nothing
      else; it ends the simulation exactly if that FIFO has but one slot left. */
  lemma PushAppends(c: Chip, t: nat, pipe: nat, inst: nat)
    requires RingsOk(c) && t < |c.tiles| && pipe < |c.tiles[t].fifos|
    ensures match Apply(c, Push(t, pipe, inst))
            case None => |Contents(c.tiles[t].fifos[pipe])| == |c.tiles[t].fifos[pipe].buf| - 1
            case Some(c') =>
              var tile, tile' := c.tiles[t], c'.tiles[t];
              && SameElsewhere(c, c', t) && tile'.cores == tile.cores && |tile'.fifos| == |tile.fifos|
              && (forall p :: 0 <= p < |tile.fifos| && p != pipe ==> tile'.fifos[p] == tile.fifos[p])
              && Contents(tile'.fifos[pipe]) == Contents(tile.fifos[pipe]) + [inst]
              && |Contents(tile.fifos[pipe])| < |tile.fifos[pipe].buf| - 1
              && OnlyBit(tile.pipes, tile'.pipes, pipe, true)
  {
    hide Contents, OnlyBit, Or, Shifted, Next;
    MeetMeansEmpty(c.tiles[t].fifos[pipe]);
    StoreAppends(c.tiles[t].fifos[pipe], inst);
    WithBitSwitches(c.tiles[t].pipes, pipe, true);
  }

  /** A pop of an active pipe takes the first instruction out of its FIFO, deactivates the pipe exactly if that was
      the last one, and changes nothing else; an inactive pipe is left alone. */
  lemma PopTakesFirst(c: Chip, t: nat, pipe: nat)
    requires RingsOk(c) && AllHealthy(c) && t < |c.tiles| && pipe < |c.tiles[t].fifos|
    ensures match Apply(c, Pop(t, pipe))
            case None => false
            case Some(c') =>
              var tile, tile' := c.tiles[t], c'.tiles[t];
              var q := Contents(tile.fifos[pipe]);
              if q == [] then c' == c
              else
                && SameElsewhere(c, c', t) && tile'.cores == tile.cores && |tile'.fifos| == |tile.fifos|
                && (forall p :: 0 <= p < |tile.fifos| && p != pipe ==> tile'.fifos[p] == tile.fifos[p])
                && Contents(tile'.fifos[pipe]) == q[1..]
                && OnlyBit(tile.pipes, tile'.pipes, pipe, |q| > 1)
  {
    hide Contents, OnlyBit, AndNot, Shifted, Bit, Next;
    var tile := c.tiles[t];
    assert Healthy(tile);
    if Contents(tile.fifos[pipe]) != [] {
      DropTakesHead(tile.fifos[pipe]);
      MeetMeansEmpty(Dropped(tile.fifos[pipe]));
      WithBitSwitches(tile.pipes, pipe, false);
      SameBits(tile.pipes, pipe);
    }
  }

  lemma SameBits(mask: nat, i: nat)
    requires Bit(mask, i)
    ensures OnlyBit(mask, mask, i, true)
  {
  }

  // ---------------------------------------------------------------------------
  // What the sweeps do, tile by tile and operation by operation

  /** The chip before each of some operations and after the last. */
  ghost predicate Chain(ops: seq<Op>, cs: seq<Chip>) {
    |cs| == |ops| + 1 && (forall i :: 0 <= i < |cs| ==> RingsOk(cs[i])) &&
    forall i :: 0 <= i < |ops| ==> Apply(cs[i], ops[i]) == Some(cs[i + 1])
  }

  /** Carrying out operations is carrying out each of them once, in order. */
  lemma {:induction false} AllInOrder(c: Chip, ops: seq<Op>) returns (cs: seq<Chip>)
    requires RingsOk(c) && ApplyAll(c, ops).Some?
    ensures Chain(ops, cs) && cs[0] == c && ApplyAll(c, ops) == Some(cs[|ops|])
    decreases |ops|
  {
    hide Apply, RingOk;
    if ops == [] {
      cs := [c];
    } else {
      var rest := AllInOrder(Apply(c, ops[0]).value, ops[1..]);
      cs := [c] + rest;
      assert forall i :: 0 < i < |cs| ==> cs[i] == rest[i - 1];
      assert forall i :: 0 < i < |ops| ==> ops[i] == ops[1..][i - 1];
    }
  }

  /** The chip before each tile, from `t` on, is clocked and after the last. */
  ghost predicate TileByTile(m: Model, cs: seq<Chip>, t: nat, n: nat) {
    && t <= n && |cs| == n - t + 1 && (forall i :: 0 <= i < |cs| ==> RingsOk(cs[i]))
    && forall i :: 0 <= i < n - t ==> ApplyAll(cs[i], m.tile(cs[i], t + i)) == Some(cs[i + 1])
  }

  /** A sweep clocks every tile once, in order, each on what the ones before it have left. */
  lemma {:induction false} EveryTileOnce(m: Model, c: Chip, t: nat) returns (cs: seq<Chip>)
    requires RingsOk(c) && t <= |c.tiles| && Sweep(m, c, t).Some?
    ensures TileByTile(m, cs, t, |c.tiles|) && cs[0] == c && Sweep(m, c, t) == Some(cs[|cs| - 1])
    decreases |c.tiles| - t
  {
    hide ApplyAll, RingOk;
    if t == |c.tiles| {
      cs := [c];
    } else {
      var rest := EveryTileOnce(m, ApplyAll(c, m.tile(c, t)).value, t + 1);
      cs := [c] + rest;
      assert forall i :: 0 < i < |cs| ==> cs[i] == rest[i - 1];
      forall i | 0 < i < |c.tiles| - t ensures ApplyAll(cs[i], m.tile(cs[i], t + i)) == Some(cs[i + 1]) {
        assert ApplyAll(rest[i - 1], m.tile(rest[i - 1], t + 1 + (i - 1))) == Some(rest[i]);
      }
    }
  }

  /** The eth cores of a list are clocked once each, in the order of the list. */
  lemma {:induction false} EveryCoreOnce(m: Model, c: Chip, cores: seq<nat>) returns (cs: seq<Chip>)
    requires RingsOk(c) && EthSweep(m, c, cores).Some?
    ensures |cs| == |cores| + 1 && (forall i :: 0 <= i < |cs| ==> RingsOk(cs[i]))
    ensures forall i :: 0 <= i < |cores| ==> ApplyAll(cs[i], m.eth(cs[i], cores[i])) == Some(cs[i + 1])
    ensures cs[0] == c && EthSweep(m, c, cores) == Some(cs[|cores|])
    decreases |cores|
  {
    hide ApplyAll, RingOk;
    if cores == [] {
      cs := [c];
    } else {
      var rest := EveryCoreOnce(m, ApplyAll(c, m.eth(c, cores[0])).value, cores[1..]);
      cs := [c] + rest;
      assert forall i :: 0 < i < |cs| ==> cs[i] == rest[i - 1];
      assert forall i :: 0 < i < |cores| ==> cores[i] == cores[1..][i - 1];
    }
  }

  /** A clock clocks every tile once, in order, and then the eth cores that are active by then, each once and in
      ascending order. */
  lemma ClockInOrder(m: Model, c: Chip) returns (tiles: seq<Chip>, eths: seq<Chip>, cores: seq<nat>)
    requires RingsOk(c) && Clock(m, c).Some?
    ensures TileByTile(m, tiles, 0, |c.tiles|) && tiles[0] == c
    ensures forall i: nat :: i in cores <==> Bit(tiles[|c.tiles|].eth, i)
    ensures forall i, j :: 0 <= i < j < |cores| ==> cores[i] < cores[j]
    ensures |eths| == |cores| + 1 && eths[0] == tiles[|c.tiles|]
    ensures forall i :: 0 <= i < |eths| ==> RingsOk(eths[i])
    ensures forall i :: 0 <= i < |cores| ==> ApplyAll(eths[i], m.eth(eths[i], cores[i])) == Some(eths[i + 1])
    ensures Clock(m, c) == Some(eths[|cores|])
  {
    hide ApplyAll, RingOk, Bit, Positions;
    tiles := EveryTileOnce(m, c, 0);
    var mask := tiles[|c.tiles|].eth;
    cores := Positions(mask, 0);
    PositionsAscend(mask, 0);
    forall i: nat ensures i in cores <==> Bit(mask, i) { PositionsAreBits(mask, 0, i); }
    eths := EveryCoreOnce(m, tiles[|c.tiles|], cores);
  }

  /** The skip is one: with both counters zero, what the fast clock does has nothing to do with any tile. */
  lemma IdleClockSkipsSweep(m: Model, m': Model, f: FastChip)
    requires RingsOk(f.chip) && f.rv32 == 0 && f.pipes == 0 && m.eth == m'.eth
    ensures ClockFast(m, f) == ClockFast(m', f)
  {
    hide ApplyAllFast, RingOk;
    OnlyEthMatters(m, m', f, Positions(f.chip.eth, 0));
  }

  lemma {:induction false} OnlyEthMatters(m: Model, m': Model, f: FastChip, cores: seq<nat>)
    requires RingsOk(f.chip) && m.eth == m'.eth
    ensures EthSweepFast(m, f, cores) == EthSweepFast(m', f, cores)
    decreases |cores|
  {
    hide ApplyAllFast, RingOk;
    if cores != [] && ApplyAllFast(f, m.eth(f.chip, cores[0])).Some? {
      OnlyEthMatters(m, m', ApplyAllFast(f, m.eth(f.chip, cores[0])).value, cores[1..]);
    }
  }

  // ---------------------------------------------------------------------------
  // The fast path preserves meaning

  /** Zero counters mean that no core and no pipe is active on any tile, on a chip that fits. */
  lemma ZeroMeansIdle(f: FastChip)
    requires Agrees(f) && Fits(f.chip) && f.rv32 == 0 && f.pipes == 0
    ensures forall t :: 0 <= t < |f.chip.tiles| ==> f.chip.tiles[t].cores == 0 && f.chip.tiles[t].pipes == 0
  {
    var tiles := f.chip.tiles;
    SumBounds(tiles);
    SumsFit(f.chip);
    forall t | 0 <= t < |tiles| ensures tiles[t].cores == 0 && tiles[t].pipes == 0 {
      PopcountZero(tiles[t].cores);
      PopcountZero(tiles[t].pipes);
    }
  }

  /** Sweeping an idle chip changes nothing. */
  lemma {:induction false} IdleSweepIsNothing(m: Model, c: Chip, t: nat)
    requires IdleTilesRest(m) && RingsOk(c) && t <= |c.tiles|
    requires forall i :: 0 <= i < |c.tiles| ==> c.tiles[i].cores == 0 && c.tiles[i].pipes == 0
    ensures Sweep(m, c, t) == Some(c)
    decreases |c.tiles| - t
  {
    if t < |c.tiles| {
      assert m.tile(c, t) == [];
      IdleSweepIsNothing(m, c, t + 1);
    }
  }

  /** The original chip and the fast one are both over, or they hold the same and the counters agree. */
  ghost predicate Together(c: Option<Chip>, f: Option<FastChip>) {
    match f
    case None => c == None
    case Some(f) => c == Some(f.chip) && Agrees(f)
  }

  lemma {:induction false} OperationsAgree(f: FastChip, ops: seq<Op>)
    requires Agrees(f) && RingsOk(f.chip)
    ensures Together(ApplyAll(f.chip, ops), ApplyAllFast(f, ops))
    decreases |ops|
  {
    if ops != [] {
      if ApplyFast(f, ops[0]).Some? {
        OperationKeepsAgreement(f, ops[0]);
        hide Agrees, Apply, Count;
        OperationsAgree(ApplyFast(f, ops[0]).value, ops[1..]);
      }
    }
  }

  lemma {:induction false} SweepsAgree(m: Model, f: FastChip, t: nat)
    requires Agrees(f) && RingsOk(f.chip) && t <= |f.chip.tiles|
    ensures Together(Sweep(m, f.chip, t), SweepFast(m, f, t))
    decreases |f.chip.tiles| - t
  {
    hide Agrees;
    if t < |f.chip.tiles| {
      OperationsAgree(f, m.tile(f.chip, t));
      match ApplyAllFast(f, m.tile(f.chip, t))
      case None =>
      case Some(f') => SweepsAgree(m, f', t + 1);
    }
  }

  lemma {:induction false} EthSweepsAgree(m: Model, f: FastChip, cores: seq<nat>)
    requires Agrees(f) && RingsOk(f.chip)
    ensures Together(EthSweep(m, f.chip, cores), EthSweepFast(m, f, cores))
    decreases |cores|
  {
    hide Agrees;
    if cores != [] {
      OperationsAgree(f, m.eth(f.chip, cores[0]));
      match ApplyAllFast(f, m.eth(f.chip, cores[0]))
      case None =>
      case Some(f') => EthSweepsAgree(m, f', cores[1..]);
    }
  }

  lemma ClocksAgree(m: Model, f: FastChip)
    requires IdleTilesRest(m) && Agrees(f) && RingsOk(f.chip) && Fits(f.chip)
    ensures Together(Clock(m, f.chip), ClockFast(m, f))
  {
    SweepsAgree(m, f, 0);
    if f.rv32 == 0 && f.pipes == 0 {
      ZeroMeansIdle(f);
      IdleSweepIsNothing(m, f.chip, 0);
      EthSweepsAgree(m, f, Positions(f.chip.eth, 0));
    } else {
      hide Agrees;
      match SweepFast(m, f, 0)
      case None =>
      case Some(f') => EthSweepsAgree(m, f', Positions(f'.chip.eth, 0));
    }
  }

  /** What may happen to a chip from outside: a clock, or one of the operations. */
  datatype Command = DoClock | Do(op: Op)

  function RunChip(m: Model, c: Chip, cmds: seq<Command>): (c': Option<Chip>)
    requires RingsOk(c)
    ensures c'.Some? ==> RingsOk(c'.value) && |c'.value.tiles| == |c.tiles|
  {
    if cmds == [] then Some(c)
    else match RunChip(m, c, cmds[..|cmds| - 1])
      case None => None
      case Some(c') => if cmds[|cmds| - 1].DoClock? then Clock(m, c') else Apply(c', cmds[|cmds| - 1].op)
  }

  function RunFast(m: Model, f: FastChip, cmds: seq<Command>): (f': Option<FastChip>)
    requires RingsOk(f.chip)
    ensures f'.Some? ==> RingsOk(f'.value.chip) && |f'.value.chip.tiles| == |f.chip.tiles|
  {
    if cmds == [] then Some(f)
    else match RunFast(m, f, cmds[..|cmds| - 1])
      case None => None
      case Some(f') => if cmds[|cmds| - 1].DoClock? then ClockFast(m, f') else ApplyFast(f', cmds[|cmds| - 1].op)
  }

  /** The fast path preserves meaning. On a chip that fits and for any sequence of clocks, core activations,
      pushes and pops, the chip with the counters and the skip ends when the original does, and otherwise holds
      exactly what the original holds, with counters that still agree. */
  lemma {:induction false} FastPathIsInvisible(m: Model, f: FastChip, cmds: seq<Command>)
    requires IdleTilesRest(m) && Agrees(f) && RingsOk(f.chip) && Fits(f.chip)
    ensures Together(RunChip(m, f.chip, cmds), RunFast(m, f, cmds))
  {
    hide Agrees, ClockFast, Clock, Apply, Count;
    if cmds != [] {
      FastPathIsInvisible(m, f, cmds[..|cmds| - 1]);
      match RunFast(m, f, cmds[..|cmds| - 1])
      case None =>
      case Some(f') =>
        if cmds[|cmds| - 1].DoClock? {
          ClocksAgree(m, f');
        } else {
          OperationsAgree(f', [cmds[|cmds| - 1].op]);
          SingleOperation(f', cmds[|cmds| - 1].op);
        }
    }
  }

  lemma SingleOperation(f: FastChip, op: Op)
    requires RingsOk(f.chip)
    ensures ApplyAll(f.chip, [op]) == Apply(f.chip, op) && ApplyAllFast(f, [op]) == ApplyFast(f, op)
  {
    hide Apply, Count;
    assert [op][1..] == [];
  }

  /** The chip after reset: nothing active, FIFOs empty, counters zero. */
  ghost predicate Reset(f: FastChip) {
    && f.rv32 == 0 && f.pipes == 0
    && forall t :: 0 <= t < |f.chip.tiles| ==>
         && f.chip.tiles[t].cores == 0 && f.chip.tiles[t].pipes == 0 && |f.chip.tiles[t].fifos| <= WORD
         && forall p :: 0 <= p < |f.chip.tiles[t].fifos| ==>
              RingOk(f.chip.tiles[t].fifos[p]) && Contents(f.chip.tiles[t].fifos[p]) == []
  }

  lemma ResetAgrees(f: FastChip)
    requires Reset(f)
    ensures Agrees(f) && RingsOk(f.chip)
  {
    hide Contents;
    forall t | 0 <= t < |f.chip.tiles| ensures Healthy(f.chip.tiles[t]) {
      forall p: nat ensures !Bit(0, p) { ZeroBit(p); }
    }
    IdleSums(f.chip.tiles);
  }

  lemma {:induction false} IdleSums(tiles: seq<Tile>)
    requires forall t :: 0 <= t < |tiles| ==> tiles[t].cores == 0 && tiles[t].pipes == 0
    ensures SumCores(tiles) == 0 && SumPipes(tiles) == 0
  {
    if tiles != [] {
      IdleSums(tiles[..|tiles| - 1]);
    }
  }

  // ---------------------------------------------------------------------------
  // The patched code, updating the chip in place

  class ChipSim {
    const tiles: array<Tile>           // g_t_tiles
    var eth: nat                       // g_rv32_cores_active
    var rest: nat                      // everything else
    var activeRv32: nat                // g_t_active_rv32
    var activePipes: nat               // g_t_active_pipes

    ghost function View(): FastChip
      reads this, tiles
    {
      FastChip(Chip(tiles[..], eth, rest), activeRv32, activePipes)
    }

    ghost predicate Valid()
      reads this, tiles
    {
      Agrees(View()) && RingsOk(View().chip)
    }

    constructor (tiles: array<Tile>, rest: nat)
      requires Reset(FastChip(Chip(tiles[..], 0, rest), 0, 0))
      ensures Valid() && this.tiles == tiles && View() == FastChip(Chip(tiles[..], 0, rest), 0, 0)
    {
      this.tiles := tiles;
      this.rest, eth, activeRv32, activePipes := rest, 0, 0, 0;
      new;
      ResetAgrees(View());
    }

    /** ttsim_rv32_set_core_active for a Tensix tile. */
    method SetCoreActive(t: nat, core: nat, active: bool)
      requires Valid() && t < tiles.Length && core < WORD
      modifies this`activeRv32, tiles
      ensures Valid() && Some(View()) == ApplyFast(old(View()), SetCore(t, core, active))
      ensures OnlyBit(old(tiles[t].cores), tiles[t].cores, core, active)
    {
      OperationKeepsAgreement(View(), SetCore(t, core, active));
      WithBitSwitches(tiles[t].cores, core, active);
      hide Agrees, Shifted, Popcount, Bit, Or, AndNot, OnlyBit;
      var tile := tiles[t];
      var before := tile.cores;
      var after := if active then Or(before, Shifted(core)) else AndNot(before, Shifted(core));
      tiles[t] := tile.(cores := after);
      activeRv32 := (activeRv32 + Popcount(after) - Popcount(before)) % TWO_32;
    }

    /** Push an instruction; false if that fills the FIFO, which the simulator does not support. */
    method PushInst(t: nat, pipe: nat, inst: nat) returns (ok: bool)
      requires Valid() && t < tiles.Length && pipe < |tiles[t].fifos|
      modifies this`activePipes, tiles
      ensures ok == ApplyFast(old(View()), Push(t, pipe, inst)).Some?
      ensures ok ==> Valid() && Some(View()) == ApplyFast(old(View()), Push(t, pipe, inst))
    {
      if ApplyFast(View(), Push(t, pipe, inst)).Some? {
        OperationKeepsAgreement(View(), Push(t, pipe, inst));
      }
      hide Agrees, Shifted, Popcount, Bit, Or, Next;
      var tile := tiles[t];
      var fifo := Stored(tile.fifos[pipe], inst);
      if !Bit(tile.pipes, pipe) {
        activePipes := (activePipes + 1) % TWO_32;
      }
      tiles[t] := tile.(fifos := tile.fifos[pipe := fifo], pipes := Or(tile.pipes, Shifted(pipe)));
      return fifo.wr != fifo.rd;
    }

    /** The sweep has executed the instruction at the head of an active pipe. */
    method PopInst(t: nat, pipe: nat)
      requires Valid() && t < tiles.Length && pipe < |tiles[t].fifos|
      modifies this`activePipes, tiles
      ensures Valid() && Some(View()) == ApplyFast(old(View()), Pop(t, pipe))
      ensures Fits(View().chip) ==> activePipes <= old(activePipes)
    {
      OperationKeepsAgreement(View(), Pop(t, pipe));
      if Fits(View().chip) { PoppedSum(View(), t, pipe); }
      hide Agrees, Shifted, Popcount, Bit, AndNot, Dropped, Contents;
      var tile := tiles[t];
      if Bit(tile.pipes, pipe) {
        var fifo := Dropped(tile.fifos[pipe]);
        DropLeavesWr(tile.fifos[pipe]);
        var pipes := tile.pipes;
        if fifo.rd == fifo.wr {
          pipes := AndNot(pipes, Shifted(pipe));
          activePipes := (activePipes - 1) % TWO_32;
        }
        tiles[t] := tile.(fifos := tile.fifos[pipe := fifo], pipes := pipes);
        assert tiles[..] == old(tiles[..])[t := Popped(tile, pipe)];
      } else {
        assert tiles[..] == old(tiles[..]);
      }
    }

    /** Carry out what clocking a tile or core comes to. */
    method Execute(ops: seq<Op>) returns (ok: bool)
      requires Valid()
      modifies this, tiles
      ensures ok == ApplyAllFast(old(View()), ops).Some?
      ensures ok ==> Valid() && Some(View()) == ApplyAllFast(old(View()), ops)
    {
      hide Agrees, Apply, Count;
      for i := 0 to |ops|
        invariant Valid() && ApplyAllFast(View(), ops[i..]) == ApplyAllFast(old(View()), ops)
      {
        ok := ExecuteOne(ops[i]);
        assert ops[i..][0] == ops[i] && ops[i..][1..] == ops[i + 1..];
        if !ok {
          return false;
        }
      }
      return true;
    }

    method ExecuteOne(op: Op) returns (ok: bool)
      requires Valid()
      modifies this, tiles
      ensures ok == ApplyFast(old(View()), op).Some?
      ensures ok ==> Valid() && Some(View()) == ApplyFast(old(View()), op)
    {
      ok := true;
      match op {
        case SetCore(t, core, active) =>
          if t >= tiles.Length || core >= WORD { return false; }
          SetCoreActive(t, core, active);
        case SetEth(core, active) =>
          if core >= 64 { return false; }
          eth := WithBit(eth, core, active);
        case SetRest(all) => rest := all;
        case Push(t, pipe, inst) =>
          if t >= tiles.Length || pipe >= |tiles[t].fifos| { return false; }
          ok := PushInst(t, pipe, inst);
        case Pop(t, pipe) =>
          if t >= tiles.Length || pipe >= |tiles[t].fifos| { return false; }
          PopInst(t, pipe);
      }
    }

    /** clock_current_chip, patched. */
    method ClockCurrentChip(m: Model) returns (ok: bool)
      requires Valid()
      modifies this, tiles
      ensures ok == ClockFast(m, old(View())).Some?
      ensures ok ==> Valid() && Some(View()) == ClockFast(m, old(View()))
      ensures IdleTilesRest(m) && Fits(old(View()).chip) ==>
                && ok == Clock(m, old(View()).chip).Some?
                && (ok ==> Some(View().chip) == Clock(m, old(View()).chip))
    {
      if IdleTilesRest(m) && Fits(View().chip) { ClocksAgree(m, View()); }
      hide Agrees;
      if activeRv32 != 0 || activePipes != 0 {
        ok := SweepTiles(m);
        if !ok {
          return;
        }
      }
      ok := ClockEthCores(m);
    }

    method SweepTiles(m: Model) returns (ok: bool)
      requires Valid()
      modifies this, tiles
      ensures ok == SweepFast(m, old(View()), 0).Some?
      ensures ok ==> Valid() && Some(View()) == SweepFast(m, old(View()), 0)
    {
      hide Agrees;
      for t := 0 to tiles.Length
        invariant Valid() && SweepFast(m, View(), t) == SweepFast(m, old(View()), 0)
      {
        ok := Execute(m.tile(Now(), t));
        if !ok {
          return false;
        }
      }
      return true;
    }

    /** Walk the set bits of the mask as it is on entry; what the cores do to the mask counts from the next clock. */
    method ClockEthCores(m: Model) returns (ok: bool)
      requires Valid()
      modifies this, tiles
      ensures ok == EthSweepFast(m, old(View()), Positions(old(eth), 0)).Some?
      ensures ok ==> Valid() && Some(View()) == EthSweepFast(m, old(View()), Positions(old(eth), 0))
    {
      hide Agrees;
      var mask := eth;
      while mask != 0
        invariant Valid()
        invariant EthSweepFast(m, View(), Positions(mask, 0)) ==
                  EthSweepFast(m, old(View()), Positions(old(eth), 0))
        decreases mask
      {
        ClearLowest(mask, 0);
        var rest := And(mask, mask - 1);
        assert Positions(mask, 0)[0] == Ctz(mask) && Positions(mask, 0)[1..] == Positions(rest, 0);
        ok := Execute(m.eth(Now(), Ctz(mask)));
        if !ok {
          return false;
        }
        mask := rest;
      }
      return true;
    }

    function Now(): Chip
      reads this, tiles
    {
      Chip(tiles[..], eth, rest)
    }
  }
}
