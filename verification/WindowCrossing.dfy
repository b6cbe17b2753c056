/** Clocking through a synchronized window: what repeated RunClocks calls do when nothing else happens. */
module WindowCrossing {
  import opened Link
  import opened Device
  import opened System
  import opened Timing
  import opened Arithmetic

  /** One RunClocks call during which libttsim does no DMA. */
  function RunOnce(sys: Sys, a: Dev): Dev
    requires sys.psPerClock > 0
  {
    var b := BeginClocks(sys, a);
    if b.pc.InCall? && b.pc.job.Batch? then EndBatch(sys, b, b.pc.job.n, b.pc.job.at) else b
  }

  /** It is what the adapter does from the acting phase of its main loop, with nothing queued, until it is back
      in that loop: one step, or two if libttsim is entered and returns at once. */
  lemma RunOnceIsRunClocks(sys: Sys, s: Side, pick: nat, pick': nat)
    requires sys.psPerClock > 0 && sys.maxChunk > 0 && !s.a.flags.stopped && !s.a.flags.fault
    requires s.a.pc == Idle(Acting) && s.a.mmioQ == []
    requires forall n :: sys.lib.act(s.a.hist.log, Clock(n), []).Finish?
    ensures var s1 := AStep(sys, s, pick);
            var s2 := if s1.a.pc.InCall? then AStep(sys, s1, pick') else s1;
            var b := RunOnce(sys, s.a);
            s2.a.port == b.port && s2.a.pc == b.pc && s2.a.stats == b.stats && s2.rx == s.rx && s2.tx == s.tx
  {
    hide Deadline, Capped, PhaseStep, PumpAct, BeginMmio, Continue, Answer;
  }

  /** The adapter after calling RunClocks until it stands at its deadline, the calls that ran clock steps and
      those that jumped. */
  function Cross(sys: Sys, a: Dev): (Dev, nat, nat)
    requires sys.sync && sys.psPerClock > 0 && a.pc.Idle? && a.port.now <= Deadline(sys.dev, a.port)
    decreases Deadline(sys.dev, a.port) - a.port.now
  {
    RunOnceAdvances(sys, a);
    if a.port.now == Deadline(sys.dev, a.port) then (a, 0, 0)
    else
      var (end, calls, jumps) := Cross(sys, RunOnce(sys, a));
      if RunOnce(sys, a).stats.clocks > a.stats.clocks then (end, calls + 1, jumps) else (end, calls, jumps + 1)
  }

  function Steps(sys: Sys, a: Dev): nat
    requires sys.psPerClock > 0 && a.port.now <= Deadline(sys.dev, a.port)
  {
    (Deadline(sys.dev, a.port) - a.port.now) / sys.psPerClock
  }

  function Remainder(sys: Sys, a: Dev): nat
    requires sys.psPerClock > 0 && a.port.now <= Deadline(sys.dev, a.port)
  {
    (Deadline(sys.dev, a.port) - a.port.now) % sys.psPerClock
  }

  /** A call short of the deadline runs as many steps as fit, up to the cap, or jumps if none fits; it always
      moves, and never past the deadline. */
  lemma RunOnceAdvances(sys: Sys, a: Dev)
    requires sys.sync && sys.psPerClock > 0 && a.pc.Idle? && a.port.now <= Deadline(sys.dev, a.port)
    ensures var b := RunOnce(sys, a);
            && b.pc.Idle? && Deadline(sys.dev, b.port) == Deadline(sys.dev, a.port)
            && b.port.now <= Deadline(sys.dev, a.port)
            && (a.port.now < Deadline(sys.dev, a.port) ==>
                  if Steps(sys, a) > 0 then
                    b.port.now == a.port.now + Capped(Steps(sys, a)) * sys.psPerClock > a.port.now &&
                    b.stats.clocks == a.stats.clocks + Capped(Steps(sys, a))
                  else b.port.now == Deadline(sys.dev, a.port) && b.stats.clocks == a.stats.clocks)
  {
    if a.port.now < Deadline(sys.dev, a.port) {
      BatchInWindow(Deadline(sys.dev, a.port) - a.port.now, sys.psPerClock);
      hide Capped;
      if Steps(sys, a) > 0 {
        Positive(Steps(sys, a), sys.psPerClock);
      }
    }
  }

  lemma Positive(n: nat, ps: nat)
    requires n > 0 && ps > 0
    ensures Capped(n) > 0 && Capped(n) * ps > 0
  {
  }

  /** Taking `k` steps off a window takes `k` off the steps that fit it and leaves the remainder alone. */
  lemma StepsOff(w: nat, ps: nat, k: nat)
    requires ps > 0 && k <= w / ps
    ensures k * ps <= w && (w - k * ps) / ps == w / ps - k && (w - k * ps) % ps == w % ps
  {
    assert w == (w / ps) * ps + w % ps;
    assert (w / ps - k) * ps == (w / ps) * ps - k * ps;
    var r := w - k * ps;
    DivisionIsUnique(r, ps, w / ps - k, w % ps);
  }

  /** How many calls of at most the cap it takes to run `n` steps. */
  function Calls(n: nat): nat {
    (n + MAX_CLOCKS_PER_CALL - 1) / MAX_CLOCKS_PER_CALL
  }

  lemma OneCallLess(n: nat)
    requires n > 0
    ensures Calls(n) == 1 + Calls(n - Capped(n))
  {
  }

  /** Window crossing. With no DMA and nothing arriving, the calls land exactly on the deadline; they run
      exactly the clock steps that fit the window, in the fewest calls the cap allows; and there is one jump
      more if and only if the steps leave a remainder. */
  lemma {:induction false} CrossesWindow(sys: Sys, a: Dev)
    requires sys.sync && sys.psPerClock > 0 && a.pc.Idle? && a.port.now <= Deadline(sys.dev, a.port)
    ensures var (end, calls, jumps) := Cross(sys, a);
            && end.port.now == Deadline(sys.dev, a.port)
            && end.stats.clocks == a.stats.clocks + Steps(sys, a)
            && calls == Calls(Steps(sys, a))
            && jumps == if Remainder(sys, a) != 0 then 1 else 0
    decreases Deadline(sys.dev, a.port) - a.port.now
  {
    RunOnceAdvances(sys, a);
    if a.port.now < Deadline(sys.dev, a.port) {
      var w, b := Deadline(sys.dev, a.port) - a.port.now, RunOnce(sys, a);
      CrossesWindow(sys, b);
      hide RunOnce, Deadline, Calls, Capped;
      if Steps(sys, a) > 0 {
        CappedFits(Steps(sys, a));
        StepsOff(w, sys.psPerClock, Capped(Steps(sys, a)));
        OneCallLess(Steps(sys, a));
      } else {
        NoneFits(w, sys.psPerClock);
      }
    }
  }

  lemma CappedFits(n: nat)
    requires n > 0
    ensures 0 < Capped(n) <= n
  {
  }

  lemma NoneFits(w: nat, ps: nat)
    requires ps > 0 && w > 0 && w / ps == 0
    ensures w % ps == w
  {
  }
}
