/** Convergence of the acquire phase with the default configuration and a
    reference clock running at host rate: from any initial phase the error
    shrinks without changing sign, and the loop is locked within two windows. */
module DcAcquire {
  import opened Arith
  import opened DcLoop
  import opened DcProofs

  // ---- the error magnitude as a sequence -----------------------------------

  /** Magnitude after one proportional step of at most cycle/20. */
  function Shrunk(a: nat, cycle: nat): (r: nat)
    ensures r <= a && (a >= 8 && cycle >= 20 ==> r < a) && (a < 8 ==> r == a) && (r == 0 <==> a == 0)
  {
    a - (if a / 8 < cycle / 20 then a / 8 else cycle / 20)
  }

  function Shrink(a: nat, cycle: nat, n: nat): (r: nat)
    ensures r <= a
  {
    if n == 0 then a else Shrunk(Shrink(a, cycle, n - 1), cycle)
  }

  /** What is left above 10 ns. */
  function Excess(a: nat): nat {
    if a <= 10 then 0 else a - 10
  }

  ghost predicate Contracting(x: seq<nat>) {
    forall i | 0 <= i < |x| - 1 :: 10 * x[i + 1] <= 9 * x[i]
  }

  /** Seven steps at least halve a contracting sequence. */
  lemma SevenHalve(x: seq<nat>, i: nat)
    requires Contracting(x) && i + 7 < |x|
    ensures 2 * x[i + 7] <= x[i]
  {
    assert 10 * x[i + 1] <= 9 * x[i] && 10 * x[i + 2] <= 9 * x[i + 1] && 10 * x[i + 3] <= 9 * x[i + 2];
    assert 10 * x[i + 4] <= 9 * x[i + 3] && 10 * x[i + 5] <= 9 * x[i + 4] && 10 * x[i + 6] <= 9 * x[i + 5];
    assert 10 * x[i + 7] <= 9 * x[i + 6];
  }

  lemma NinetyOneSteps(x: seq<nat>, i: nat)
    requires Contracting(x) && i + 91 < |x|
    ensures 8192 * x[i + 91] <= x[i]
  {
    SevenHalve(x, i); SevenHalve(x, i + 7); SevenHalve(x, i + 14); SevenHalve(x, i + 21); SevenHalve(x, i + 28);
    SevenHalve(x, i + 35); SevenHalve(x, i + 42); SevenHalve(x, i + 49); SevenHalve(x, i + 56); SevenHalve(x, i + 63);
    SevenHalve(x, i + 70); SevenHalve(x, i + 77); SevenHalve(x, i + 84);
  }

  /** The excesses of the first n steps. */
  ghost function Excesses(a: nat, cycle: nat, n: nat): (x: seq<nat>)
    requires cycle >= 800 && a <= (cycle + 1) / 2
    ensures |x| == n + 1 && x[0] == Excess(a) && x[n] == Excess(Shrink(a, cycle, n)) && Contracting(x)
  {
    if n == 0 then [Excess(a)]
    else
      Excesses(a, cycle, n - 1) + [Excess(Shrink(a, cycle, n))]
  }

  /** After 98 steps the magnitude is inside the lock window. */
  lemma SmallAfter98(a: nat, cycle: nat)
    requires cycle >= 800 && a <= (cycle + 1) / 2
    ensures Shrink(a, cycle, 98) < cycle / 100
  {
    NinetyOneSteps(Excesses(a, cycle, 91), 0);
    assert 8192 * Excess(Shrink(a, cycle, 91)) <= Excess(a);
    if cycle < 16384 {
      var b := Shrink(a, cycle, 91);
      assert b <= 10;
      ShrinkOnward(a, cycle, 94, 4);
      LastSteps(a, cycle, 91);
    } else {
      ShrinkOnward(a, cycle, 91, 7);
    }
  }

  lemma LastSteps(a: nat, cycle: nat, n: nat)
    requires cycle >= 20 && Shrink(a, cycle, n) <= 10
    ensures Shrink(a, cycle, n + 3) <= 7
  {
    assert Shrink(a, cycle, n + 1) <= 9;
    assert Shrink(a, cycle, n + 2) <= 8;
  }

  lemma {:induction false} ShrinkOnward(a: nat, cycle: nat, n: nat, m: nat)
    ensures Shrink(a, cycle, n + m) <= Shrink(a, cycle, n)
  {
    if m > 0 {
      ShrinkOnward(a, cycle, n, m - 1);
    }
  }

  // ---- the closed loop -----------------------------------------------------

  /** The next cycle: both clocks advance by the cycle plus the adjustment. */
  function Cycled(d: Loop): Loop
    requires CfgOk(d.cfg)
  {
    var step := d.cfg.cycle + d.servo.adjust;
    Updated(d, d.clock.prevLo + step, d.clock.prevHost + step)
  }

  /** Locked now or after one of the next n cycles. */
  predicate LockedBy(d: Loop, n: nat)
    requires CfgOk(d.cfg)
    decreases n
  {
    d.phase.Locked? || (n > 0 && LockedBy(Cycled(d), n - 1))
  }

  /** What the controller answers to an error while the integrator is frozen: its
      share `off` of the output is a constant. */
  function Answer(e: int, cycle: nat, off: int): int {
    var u, most := -(TDiv(e, 8) + off), cycle / 20;
    if u > most then most else if u < -most then -most else u
  }

  /** The error closes in on the point where both shares cancel, by at least the
      clamped eighth, and never crosses it; without an integral share by exactly
      that. */
  lemma AnswerClosesIn(e: int, cycle: nat, off: int)
    requires cycle >= 800
    ensures var z, z1 := e + 8 * off, e + Answer(e, cycle, off) + 8 * off;
            && (z >= 0 ==> 0 <= z1 <= z) && (z <= 0 ==> z <= z1 <= 0)
            && Abs(z1) <= Shrunk(Abs(z), cycle) && (off == 0 ==> Abs(z1) == Shrunk(Abs(z), cycle))
  {
  }

  /** The default gains and limits, for a cycle that fits the 32-bit counter. */
  ghost predicate DefaultLoop(c: Cfg) {
    && c.cycle >= 800 && 0 <= c.setpoint < c.cycle && 21 * c.cycle < 20 * 0x1_0000_0000
    && c.kp == 8 && c.ki == 256 && c.maxAdjust == c.cycle / 20
    && c.lockWindow == c.cycle / 100 && c.lockSamples == 100 && c.gate == 0
  }

  /** e is the error of phase x, k cycles away from it. */
  ghost predicate OnGrid(c: Cfg, x: int, e: int, k: int) {
    e == x - c.setpoint + k * c.cycle && -(c.cycle / 2) < e <= c.cycle - c.cycle / 2
  }

  /** In acquire, with the output computed from the current error and the frozen
      integrator, and the point where they cancel within half a cycle. */
  ghost predicate Tracking(d: Loop, k: int, off: int) {
    && DefaultLoop(d.cfg) && d.phase.Acquire? && TDiv(d.servo.integ, 256) == off && 16 * Abs(off) + 16 <= d.cfg.cycle
    && 0 <= d.clock.prevLo < 0x1_0000_0000
    && OnGrid(d.cfg, d.clock.ext - d.clock.sync0, d.servo.err, k)
    && d.servo.adjust == Answer(d.servo.err, d.cfg.cycle, off)
  }

  lemma OnGridIsError(c: Cfg, x: int, e: int, k: int)
    requires CfgOk(c) && OnGrid(c, x, e, k)
    ensures PhaseError(c, x) == e
  {
    PhaseErrorMeaning(c, x);
    DivModUnique(e - (x - c.setpoint), c.cycle, k, 0);
    CongruentEqual(e, PhaseError(c, x), x - c.setpoint, c.cycle);
  }

  lemma ErrorIsOnGrid(c: Cfg, x: int) returns (k: int)
    requires CfgOk(c)
    ensures OnGrid(c, x, PhaseError(c, x), k)
  {
    PhaseErrorMeaning(c, x);
    k := (PhaseError(c, x) - (x - c.setpoint)) / c.cycle;
  }

  /** The clocks moved by the same step: the sample is taken (the gate is off)
      and the unwrapped time moves by the step. */
  lemma StepIsTaken(d: Loop, step: int)
    requires CfgOk(d.cfg) && d.cfg.gate == 0 && !d.phase.Unanchored?
    requires 0 <= d.clock.prevLo < 0x1_0000_0000 && 0 < step < 0x1_0000_0000
    ensures var lo, host := Lo(d.clock.prevLo + step), d.clock.prevHost + step;
            && Unwrapped(d.clock, lo, host).ext == d.clock.ext + step
            && Updated(d, d.clock.prevLo + step, host) == Taken(d.(gate := d.gate.(run := 0, rejected := false)),
                lo, host)
  {
    var a := Sample(d.clock.prevLo, d.clock.prevHost);
    var b := Sample(d.clock.prevLo + step, d.clock.prevHost + step);
    DeltaExactIff(d.clock, a, b);
  }

  /** The default controller's answer in acquire. */
  lemma DefaultAnswer(c: Cfg, s: Servo, e: int, off: int)
    requires DefaultLoop(c) && TDiv(s.integ, 256) == off
    ensures var r := Controlled(c, false, s, e);
            r.integ == s.integ && r.err == e && r.adjust == Answer(e, c.cycle, off)
  {
  }

  lemma TakenIs(d: Loop, lo: int, host: int, clock: Clock, e: int)
    requires CfgOk(d.cfg) && d.phase.Acquire? && clock == Unwrapped(d.clock, lo, host)
    requires e == PhaseError(d.cfg, clock.ext - clock.sync0)
    ensures Taken(d, lo, host) == Supervised(d.(clock := clock, servo := Controlled(d.cfg, false, d.servo, e)))
  {
  }

  lemma StaysInHalf(e: int, cycle: nat, off: int)
    requires cycle >= 800 && 16 * Abs(off) + 16 <= cycle && -(cycle / 2) < e <= cycle - cycle / 2
    ensures -(cycle / 2) < e + Answer(e, cycle, off) <= cycle - cycle / 2
  {
    AnswerClosesIn(e, cycle, off);
  }

  /** The error of the next sample. */
  lemma NextError(c: Cfg, x: int, e: int, k: int, off: int, adj: int, x1: int)
    requires CfgOk(c) && c.cycle >= 800 && 16 * Abs(off) + 16 <= c.cycle && OnGrid(c, x, e, k)
    requires adj == Answer(e, c.cycle, off) && x1 == x + c.cycle + adj
    ensures PhaseError(c, x1) == e + adj && OnGrid(c, x1, e + adj, k - 1)
  {
    StaysInHalf(e, c.cycle, off);
    assert (k - 1) * c.cycle == k * c.cycle - c.cycle by { Distribute(k, 1, c.cycle); }
    OnGridIsError(c, x1, e + adj, k - 1);
  }

  lemma StepRange(e: int, cycle: nat, off: int)
    requires cycle >= 800 && 21 * cycle < 20 * 0x1_0000_0000
    ensures 0 < cycle + Answer(e, cycle, off) < 0x1_0000_0000
  {
  }

  /** The next sample's clock; the gate is off, so the sample is taken. */
  lemma NextClock(d: Loop, step: int) returns (g: Gate, lo: int, host: int)
    requires CfgOk(d.cfg) && d.cfg.gate == 0 && d.phase.Acquire? && 0 <= d.clock.prevLo < 0x1_0000_0000
    requires step == d.cfg.cycle + d.servo.adjust && 0 < step < 0x1_0000_0000
    ensures Cycled(d) == Taken(d.(gate := g), lo, host) && 0 <= lo < 0x1_0000_0000
    ensures Unwrapped(d.clock, lo, host).ext == d.clock.ext + step
  {
    StepIsTaken(d, step);
    g, lo, host := d.gate.(run := 0, rejected := false), Lo(d.clock.prevLo + step), d.clock.prevHost + step;
  }

  /** The next sample, unwrapped, still tracks. */
  lemma TracksNext(d: Loop, k: int, off: int, e: int, x: int, b: Loop)
    requires Tracking(d, k, off) && e == d.servo.err + d.servo.adjust && x == b.clock.ext - b.clock.sync0
    requires x == d.clock.ext - d.clock.sync0 + d.cfg.cycle + d.servo.adjust && 0 <= b.clock.prevLo < 0x1_0000_0000
    requires b.cfg == d.cfg && b.phase == d.phase && b.servo == Controlled(d.cfg, false, d.servo, e)
    ensures PhaseError(d.cfg, x) == e && Tracking(b, k - 1, off) && b.servo.err == e
  {
    NextError(d.cfg, d.clock.ext - d.clock.sync0, d.servo.err, k, off, d.servo.adjust, x);
    DefaultAnswer(d.cfg, d.servo, e, off);
  }

  /** The next cycle up to lock supervision. */
  lemma BeforeSupervision(d: Loop, k: int, off: int) returns (b: Loop)
    requires Tracking(d, k, off)
    ensures Cycled(d) == Supervised(b) && Tracking(b, k - 1, off) && b.cfg == d.cfg && b.win == d.win
    ensures b.servo.err == d.servo.err + d.servo.adjust
  {
    var e := d.servo.err + d.servo.adjust;
    StepRange(d.servo.err, d.cfg.cycle, off);
    var g, lo, host := NextClock(d, d.cfg.cycle + d.servo.adjust);
    var clock := Unwrapped(d.clock, lo, host);
    b := d.(gate := g, clock := clock, servo := Controlled(d.cfg, false, d.servo, e));
    TracksNext(d, k, off, e, clock.ext - clock.sync0, b);
    TakenIs(d.(gate := g), lo, host, clock, e);
  }

  lemma SupervisedTracks(b: Loop, k: int, off: int)
    requires Tracking(b, k, off)
    ensures var r := Supervised(b);
            && r.servo == b.servo && (r.phase.Locked? || Tracking(r, k, off))
            && WindowStep(b.cfg, b.win, b.servo.err, r)
  {
  }

  /** How supervision moves the window: it grows to 99 samples, and at the
      hundredth the loop locks exactly if the mean is inside the lock window. */
  ghost predicate WindowStep(c: Cfg, w: Window, e: int, r: Loop) {
    && (w.n + 1 < 100 ==> r.phase.Acquire? && r.win.n == w.n + 1 && r.win.sum == w.sum + e)
    && (w.n + 1 == 100 ==>
          && r.win.n == 0 && r.win.sum == 0
          && (r.phase.Locked? <==> Abs(TDiv(w.sum + e, 100)) < c.cycle / 100))
  }

  /** One cycle of the acquire phase: the error moves by the adjustment and the
      window advances. */
  lemma CycledAdvances(d: Loop, k: int, off: int)
    requires Tracking(d, k, off)
    ensures var r := Cycled(d);
            && r.servo.err == d.servo.err + d.servo.adjust && r.cfg == d.cfg
            && (r.phase.Locked? || Tracking(r, k - 1, off)) && WindowStep(d.cfg, d.win, r.servo.err, r)
  {
    var b := BeforeSupervision(d, k, off);
    SupervisedTracks(b, k - 1, off);
  }

  /** From start-up: the error keeps its sign, and its magnitude shrinks (strictly
      from 8 ns on). */
  lemma CycledTracks(d: Loop, k: int)
    requires Tracking(d, k, 0)
    ensures var r := Cycled(d);
            && Abs(r.servo.err) == Shrunk(Abs(d.servo.err), d.cfg.cycle)
            && (d.servo.err > 0 <==> r.servo.err > 0) && (d.servo.err < 0 <==> r.servo.err < 0)
            && (r.phase.Locked? || Tracking(r, k - 1, 0))
            && WindowStep(d.cfg, d.win, r.servo.err, r)
  {
    CycledAdvances(d, k, 0);
    AnswerClosesIn(d.servo.err, d.cfg.cycle, 0);
  }

  // ---- two windows ---------------------------------------------------------

  function Times(n: nat, b: int): int {
    if n == 0 then 0 else Times(n - 1, b) + b
  }

  lemma {:induction false} TimesIsProduct(n: nat, b: int)
    ensures Times(n, b) == n * b
  {
    if n > 0 {
      TimesIsProduct(n - 1, b);
    }
  }

  /** Error and window n cycles after a first sample of magnitude a. */
  ghost predicate Numbers(r: Loop, a: nat, n: nat) {
    && r.cfg.cycle >= 800 && Abs(r.servo.err) == Shrink(a, r.cfg.cycle, n)
    && r.win.n == (if n < 99 then n + 1 else n - 99)
    && (n >= 99 ==> Abs(r.win.sum) <= Times(n - 99, r.cfg.cycle / 100 - 1))
  }

  /** A window step from those numbers leads to the next ones. */
  lemma NumbersStep(p: Loop, r: Loop, a: nat, n: nat)
    requires n < 198 && p.cfg == r.cfg && p.cfg.cycle >= 800 && a <= (p.cfg.cycle + 1) / 2
    requires Numbers(p, a, n) && WindowStep(p.cfg, p.win, r.servo.err, r) && r.phase.Acquire?
    requires Abs(r.servo.err) == Shrunk(Abs(p.servo.err), p.cfg.cycle)
    ensures Numbers(r, a, n + 1)
  {
    if n >= 99 {
      ErrorInWindow(a, p.cfg.cycle, n + 1);
    }
  }

  lemma ErrorInWindow(a: nat, cycle: nat, n: nat)
    requires n >= 98 && cycle >= 800 && a <= (cycle + 1) / 2
    ensures Shrink(a, cycle, n) <= cycle / 100 - 1
  {
    SmallAfter98(a, cycle);
    ShrinkOnward(a, cycle, 98, n - 98);
  }

  lemma ProgressStep(p: Loop, k: int, a: nat, n: nat)
    requires Tracking(p, k, 0) && Numbers(p, a, n) && n < 198 && a <= (p.cfg.cycle + 1) / 2
    ensures var r := Cycled(p); r.phase.Locked? || (Tracking(r, k - 1, 0) && Numbers(r, a, n + 1))
  {
    CycledTracks(p, k);
    var r := Cycled(p);
    if !r.phase.Locked? {
      NumbersStep(p, r, a, n);
    }
  }

  /** The mean of the second window is inside the lock window. */
  lemma SecondWindowLocks(p: Loop, k: int, a: nat)
    requires Tracking(p, k, 0) && Numbers(p, a, 198) && a <= (p.cfg.cycle + 1) / 2
    ensures Cycled(p).phase.Locked?
  {
    CycledTracks(p, k);
    ErrorInWindow(a, p.cfg.cycle, 199);
    InsideCloses(p.cfg, p.win, Cycled(p).servo.err, Cycled(p));
  }

  /** A window of errors inside the lock window locks as it closes. */
  lemma InsideCloses(c: Cfg, w: Window, e: int, r: Loop)
    requires c.cycle >= 800 && WindowStep(c, w, e, r) && w.n == 99
    requires Abs(w.sum) <= Times(99, c.cycle / 100 - 1) && Abs(e) <= c.cycle / 100 - 1
    ensures r.phase.Locked?
  {
    MeanInside(w.sum, e, c.cycle / 100 - 1);
  }

  lemma MeanInside(sum: int, e: int, b: nat)
    requires Abs(sum) <= Times(99, b) && Abs(e) <= b
    ensures Abs(TDiv(sum + e, 100)) <= b
  {
    TimesIsProduct(99, b);
  }

  /** From cycle n of the way, 199 - n more cycles are enough. */
  lemma {:induction false} LocksFrom(p: Loop, k: int, a: nat, n: nat)
    requires Tracking(p, k, 0) && Numbers(p, a, n) && n <= 198 && a <= (p.cfg.cycle + 1) / 2
    ensures LockedBy(p, 199 - n)
    decreases 198 - n
  {
    if n == 198 {
      SecondWindowLocks(p, k, a);
    } else {
      ProgressStep(p, k, a, n);
      if !Cycled(p).phase.Locked? {
        LocksFrom(Cycled(p), k - 1, a, n + 1);
      }
    }
  }

  /** The first sample taken in acquire, at the start of a window. */
  lemma FirstSample(a: Loop, first: Sample, off: int) returns (k: int)
    requires DefaultLoop(a.cfg) && a.phase.Acquire? && a.win.n == 0 && a.win.sum == 0
    requires TDiv(a.servo.integ, 256) == off && 16 * Abs(off) + 16 <= a.cfg.cycle && Lo(first.ref) != a.clock.prevLo
    ensures var d := Updated(a, first.ref, first.host);
            Tracking(d, k, off) && d.cfg == a.cfg && d.win.n == 1 && d.win.sum == d.servo.err
  {
    var g := a.gate.(run := 0, rejected := false);
    var clock := Unwrapped(a.clock, Lo(first.ref), first.host);
    var e := PhaseError(a.cfg, clock.ext - clock.sync0);
    k := ErrorIsOnGrid(a.cfg, clock.ext - clock.sync0);
    DefaultAnswer(a.cfg, a.servo, e, off);
    TakenIs(a.(gate := g), Lo(first.ref), first.host, clock, e);
    var b := a.(gate := g, clock := clock, servo := Controlled(a.cfg, false, a.servo, e));
    SupervisedTracks(b, k, off);
  }

  /** From any initial phase the loop has locked by sample 200. */
  lemma LockedWithin200(cycle: int, setpoint: int, anchor: Sample, sync0: int, first: Sample)
    requires cycle >= 800 && 21 * cycle < 20 * 0x1_0000_0000
    requires Lo(first.ref) != Lo(anchor.ref)
    ensures var a := Anchored(Initial(DefaultCfg(cycle, setpoint)), anchor.ref, sync0, anchor.host);
            LockedBy(Updated(a, first.ref, first.host), 199)
  {
    var a := Anchored(Initial(DefaultCfg(cycle, setpoint)), anchor.ref, sync0, anchor.host);
    var d := Updated(a, first.ref, first.host);
    var k := FirstSample(a, first, 0);
    LocksFrom(d, k, Abs(d.servo.err), 0);
  }
}
