/** How many tiles the idle fast path is good for: exactly as many as cannot wrap the first counter. */
module FastPathLimit {
  import opened Link
  import opened Bits
  import opened InstFifo
  import opened FastPath
  import opened Arithmetic

  /** With this many tiles, all their cores active, the first counter reads zero. */
  const FULL := 0x800_0000

  /** An active tile counts in the rest of the chip how often it was clocked; an idle one does nothing. */
  const BUSY := Model((c: Chip, t: nat) => if t < |c.tiles| && c.tiles[t].cores != 0 then [SetRest(c.rest + 1)] else [],
                      (c: Chip, core: nat) => [])

  /** Whatever chip of `n` tiles one starts from, and whatever happens to it, the fast chip holds what the
      original holds, and ends when it does. */
  ghost predicate Equivalent(n: nat) {
    forall m: Model, f: FastChip, cmds: seq<Command> |
      IdleTilesRest(m) && Reset(f) && RingsOk(f.chip) && |f.chip.tiles| == n :: Same(m, f, cmds)
  }

  predicate Same(m: Model, f: FastChip, cmds: seq<Command>)
    requires RingsOk(f.chip)
  {
    RunChip(m, f.chip, cmds) == match RunFast(m, f, cmds) case None => None case Some(f') => Some(f'.chip)
  }

  // ---------------------------------------------------------------------------
  // Activating core after core

  const ASLEEP := Tile(0, 0, [])

  function Asleep(n: nat): FastChip {
    FastChip(Chip(seq(n, _ => ASLEEP), 0, 0), 0, 0)
  }

  /** Both chips have come to `f`, in which `t` tiles are fully active and the next has `i` active cores. */
  ghost predicate Filled(n: nat, cmds: seq<Command>, f: FastChip, t: nat, i: nat) {
    && RingsOk(Asleep(n).chip) && RingsOk(f.chip) && Agrees(f)
    && RunFast(BUSY, Asleep(n), cmds) == Some(f) && RunChip(BUSY, Asleep(n).chip, cmds) == Some(f.chip)
    && f.chip.eth == 0 && |f.chip.tiles| == n && t <= n && i <= WORD
    && (forall u :: 0 <= u < n ==> f.chip.tiles[u].pipes == 0)
    && (forall u :: 0 <= u < t ==> Popcount(f.chip.tiles[u].cores) == WORD)
    && (forall u :: t < u < n ==> f.chip.tiles[u].cores == 0)
    && (t < n ==> f.chip.tiles[t].cores < Shifted(i) && Popcount(f.chip.tiles[t].cores) == i)
  }

  lemma {:induction false} HighBitClear(m: nat, i: nat)
    requires m < Shifted(i)
    ensures !Bit(m, i)
  {
    if i > 0 {
      HighBitClear(m / 2, i - 1);
    }
  }

  lemma NextCore(m: nat, i: nat)
    requires m < Shifted(i)
    ensures Or(m, Shifted(i)) < Shifted(i + 1) && Popcount(Or(m, Shifted(i))) == Popcount(m) + 1
  {
    HighBitClear(m, i);
    SetBit(m, i);
    WordBounds(m, i + 1, i);
  }

  lemma OneMore(m: Model, f: FastChip, cmds: seq<Command>, cmd: Command)
    requires RingsOk(f.chip)
    ensures RunFast(m, f, cmds + [cmd]) ==
            match RunFast(m, f, cmds)
            case None => None
            case Some(f') => if cmd.DoClock? then ClockFast(m, f') else ApplyFast(f', cmd.op)
    ensures RunChip(m, f.chip, cmds + [cmd]) ==
            match RunChip(m, f.chip, cmds)
            case None => None
            case Some(c) => if cmd.DoClock? then Clock(m, c) else Apply(c, cmd.op)
  {
    assert (cmds + [cmd])[..|cmds|] == cmds;
    hide ClockFast, Clock, ApplyFast, Apply;
  }

  lemma FillCore(n: nat, cmds: seq<Command>, f: FastChip, t: nat, i: nat) returns (f': FastChip)
    requires Filled(n, cmds, f, t, i) && t < n && i < WORD
    ensures Filled(n, cmds + [Do(SetCore(t, i, true))], f', t, i + 1)
  {
    var op := SetCore(t, i, true);
    OneMore(BUSY, Asleep(n), cmds, Do(op));
    SetCoreKeepsAgreement(f, t, i, true);
    hide Agrees, Popcount, Shifted, RunFast, RunChip, Or, RingOk;
    NextCore(f.chip.tiles[t].cores, i);
    f' := ApplyFast(f, op).value;
  }

  lemma FillTile(n: nat, cmds: seq<Command>, f: FastChip, t: nat)
    requires Filled(n, cmds, f, t, WORD) && t < n
    ensures Filled(n, cmds, f, t + 1, 0)
  {
    hide Agrees, RunFast, RunChip, RingOk;
  }

  lemma {:induction false} Fill(n: nat, cmds: seq<Command>, f: FastChip, t: nat, i: nat)
    returns (cmds': seq<Command>, f': FastChip)
    requires Filled(n, cmds, f, t, i) && t <= FULL <= n && i <= (if t == FULL then 0 else WORD)
    ensures Filled(n, cmds', f', FULL, 0)
    decreases FULL - t, WORD - i
  {
    hide Filled;
    if t == FULL {
      cmds', f' := cmds, f;
    } else if i == WORD {
      FillTile(n, cmds, f, t);
      cmds', f' := Fill(n, cmds, f, t + 1, 0);
    } else {
      var g := FillCore(n, cmds, f, t, i);
      cmds', f' := Fill(n, cmds + [Do(SetCore(t, i, true))], g, t, i + 1);
    }
  }

  lemma AsleepIsFilled(n: nat)
    requires n > 0
    ensures Reset(Asleep(n)) && Filled(n, [], Asleep(n), 0, 0)
  {
    ResetAgrees(Asleep(n));
  }

  // ---------------------------------------------------------------------------
  // The counter wraps

  /** The sum over `t` full tiles followed by sleeping ones. */
  lemma {:induction false} FilledSum(tiles: seq<Tile>, t: nat)
    requires forall u :: 0 <= u < |tiles| ==> Popcount(tiles[u].cores) == (if u < t then WORD else 0)
    requires forall u :: 0 <= u < |tiles| ==> tiles[u].pipes == 0
    ensures SumCores(tiles) == (if t <= |tiles| then t else |tiles|) * WORD && SumPipes(tiles) == 0
  {
    if tiles != [] {
      FilledSum(tiles[..|tiles| - 1], t);
    }
  }

  lemma LooksIdle(n: nat, cmds: seq<Command>, f: FastChip)
    requires Filled(n, cmds, f, FULL, 0)
    ensures f.rv32 == 0 && f.pipes == 0
  {
    hide RunFast, RunChip, AllHealthy;
    FilledSum(f.chip.tiles, FULL);
  }

  lemma RestChanges(c: Chip, rest: nat)
    requires RingsOk(c)
    ensures Apply(c, SetRest(rest)) == Some(c.(rest := rest))
  {
  }

  lemma NoOperation(c: Chip)
    requires RingsOk(c)
    ensures ApplyAll(c, []) == Some(c)
  {
  }

  lemma BusyTile(c: Chip, t: nat)
    requires RingsOk(c) && t < |c.tiles|
    ensures ApplyAll(c, BUSY.tile(c, t)) ==
            Some(if c.tiles[t].cores != 0 then c.(rest := c.rest + 1) else c)
  {
    hide ApplyAll, Apply, RingOk;
    SingleOperation(FastChip(c, 0, 0), SetRest(c.rest + 1));
    RestChanges(c, c.rest + 1);
    NoOperation(c);
  }

  /** The sweep notices every active tile it still has to come to. */
  lemma {:induction false} BusySweep(c: Chip, t: nat)
    requires RingsOk(c) && t <= |c.tiles|
    ensures Sweep(BUSY, c, t).Some?
    ensures Sweep(BUSY, c, t).value.rest >= c.rest && Sweep(BUSY, c, t).value.eth == c.eth
    ensures t < |c.tiles| && c.tiles[t].cores != 0 ==> Sweep(BUSY, c, t).value.rest > c.rest
    decreases |c.tiles| - t
  {
    if t < |c.tiles| {
      BusyTile(c, t);
      hide ApplyAll;
      BusySweep(if c.tiles[t].cores != 0 then c.(rest := c.rest + 1) else c, t + 1);
    }
  }

  /** From a chip that only looks idle, the skip loses a sweep that does something. */
  lemma SkipShows(n: nat, cmds: seq<Command>, f: FastChip)
    requires Filled(n, cmds, f, FULL, 0) && n > 0
    ensures !Same(BUSY, Asleep(n), cmds + [DoClock])
  {
    LooksIdle(n, cmds, f);
    OneMore(BUSY, Asleep(n), cmds, DoClock);
    PopcountZero(f.chip.tiles[0].cores);
    BusySweep(f.chip, 0);
    hide RunFast, RunChip, Agrees, Sweep, SweepFast, RingOk, Popcount;
    NoPositions(0);
  }

  lemma BusyTilesRest()
    ensures IdleTilesRest(BUSY)
  {
  }

  /** Equivalence, exactly: the fast path cannot be told from the original, for any device model in which idle
      tiles do nothing and any run from reset, if and only if the chip has fewer than 2^27 tiles. */
  lemma {:induction false} EquivalentIff(n: nat)
    ensures Equivalent(n) <==> n * WORD < TWO_32
  {
    if n * WORD < TWO_32 {
      forall m: Model, f: FastChip, cmds: seq<Command> |
        IdleTilesRest(m) && Reset(f) && RingsOk(f.chip) && |f.chip.tiles| == n
        ensures Same(m, f, cmds)
      {
        ResetAgrees(f);
        FastPathIsInvisible(m, f, cmds);
      }
    } else {
      AsleepIsFilled(n);
      var cmds, f := Fill(n, [], Asleep(n), 0, 0);
      SkipShows(n, cmds, f);
      BusyTilesRest();
      hide Same, Reset, Filled;
    }
  }
}
