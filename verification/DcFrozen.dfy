/** Acquisition with an integrator that is not zero: a re-anchor and an unlock keep
    it, and it stays frozen until the loop locks.  Its share of the output moves the
    point where the loop comes to rest away from the setpoint. */
module DcFrozen {
  import opened DcLoop
  import opened DcAcquire

  /** The largest error at which an integral share leaves the loop at rest. */
  function Farthest(off: int): nat {
    8 * Abs(off) + 7
  }

  // ---- near the point of rest after 221 cycles -----------------------------

  lemma ShrunkMonotone(a: nat, b: nat, cycle: nat)
    requires a <= b
    ensures Shrunk(a, cycle) <= Shrunk(b, cycle)
  {
  }

  lemma {:induction false} ShrinkFirst(a: nat, cycle: nat, n: nat)
    ensures Shrink(a, cycle, n + 1) == Shrink(Shrunk(a, cycle), cycle, n)
  {
    if n == 0 {
      assert Shrink(a, cycle, 0) == a;
    } else {
      ShrinkFirst(a, cycle, n - 1);
    }
  }

  lemma TwoHundredSteps(x: seq<nat>)
    requires Contracting(x) && |x| == 218 && x[0] < 0x8000_0000
    ensures x[217] == 0
  {
    NinetyOneSteps(x, 0);
    NinetyOneSteps(x, 91);
    SevenHalve(x, 182); SevenHalve(x, 189); SevenHalve(x, 196); SevenHalve(x, 203); SevenHalve(x, 210);
  }

  /** One step brings what a small share adds back within half a cycle. */
  lemma WithinHalf(a: nat, cycle: nat)
    requires cycle >= 800 && a <= (cycle + 1) / 2 + cycle / 100
    ensures Shrunk(a, cycle) <= (cycle + 1) / 2
  {
  }

  lemma SevenAfter221(a: nat, cycle: nat, n: nat)
    requires cycle >= 800 && 21 * cycle < 20 * 0x1_0000_0000 && a <= (cycle + 1) / 2 + cycle / 100 && n >= 221
    ensures Shrink(a, cycle, n) <= 7
  {
    var b := Shrunk(a, cycle);
    WithinHalf(a, cycle);
    TwoHundredSteps(Excesses(b, cycle, 217));
    LastSteps(b, cycle, 217);
    ShrinkFirst(a, cycle, 220);
    ShrinkOnward(a, cycle, 221, n - 221);
  }

  // ---- four windows --------------------------------------------------------

  /** How full the window is n cycles after its first sample. */
  function Filled(n: nat): int {
    if n < 99 then n + 1 else if n < 199 then n - 99 else if n < 299 then n - 199 else n - 299
  }

  /** Error and window n cycles after a first sample a away from rest: from cycle 300
      on the sum is that of errors inside the lock window. */
  ghost predicate Nearing(r: Loop, off: int, a: nat, n: nat) {
    && r.cfg.cycle >= 800 && Abs(r.servo.err + 8 * off) <= Shrink(a, r.cfg.cycle, n)
    && r.win.n == Filled(n) && (n >= 299 ==> InsideSum(r.cfg, r.win.sum, n - 299))
  }

  /** A sum of m errors inside the lock window. */
  ghost predicate InsideSum(c: Cfg, sum: int, m: nat)
    requires c.cycle >= 800
  {
    Abs(sum) <= Times(m, c.cycle / 100 - 1)
  }

  lemma InsideSumNext(c: Cfg, sum: int, e: int, m: nat)
    requires c.cycle >= 800 && InsideSum(c, sum, m) && Abs(e) <= c.cycle / 100 - 1
    ensures InsideSum(c, sum + e, m + 1)
  {
  }

  /** What the way needs: a small enough share, and a start within half a cycle. */
  ghost predicate Small(cycle: nat, off: int, a: nat) {
    && cycle >= 800 && 21 * cycle < 20 * 0x1_0000_0000 && Farthest(off) < cycle / 100
    && a <= (cycle + 1) / 2 + cycle / 100
  }

  lemma InsideAfter221(e: int, cycle: nat, off: int, a: nat, n: nat)
    requires Small(cycle, off, a) && n >= 221 && Abs(e + 8 * off) <= Shrink(a, cycle, n)
    ensures Abs(e) <= cycle / 100 - 1
  {
    SevenAfter221(a, cycle, n);
  }

  lemma ErrorNears(p: Loop, r: Loop, off: int, a: nat, n: nat)
    requires p.cfg == r.cfg && Nearing(p, off, a, n) && p.servo.adjust == Answer(p.servo.err, p.cfg.cycle, off)
    requires r.servo.err == p.servo.err + p.servo.adjust
    ensures Abs(r.servo.err + 8 * off) <= Shrink(a, r.cfg.cycle, n + 1)
  {
    AnswerClosesIn(p.servo.err, p.cfg.cycle, off);
    ShrunkMonotone(Abs(p.servo.err + 8 * off), Shrink(a, p.cfg.cycle, n), p.cfg.cycle);
  }

  lemma NearingStep(p: Loop, r: Loop, off: int, a: nat, n: nat)
    requires Nearing(p, off, a, n) && Small(p.cfg.cycle, off, a) && n < 398 && p.cfg == r.cfg
    requires Abs(r.servo.err + 8 * off) <= Shrink(a, r.cfg.cycle, n + 1)
    requires WindowStep(p.cfg, p.win, r.servo.err, r) && r.phase.Acquire?
    ensures Nearing(r, off, a, n + 1)
  {
    if n >= 299 {
      InsideAfter221(r.servo.err, r.cfg.cycle, off, a, n + 1);
      InsideSumNext(p.cfg, p.win.sum, r.servo.err, n - 299);
    }
  }

  lemma Nears(p: Loop, k: int, off: int, a: nat, n: nat)
    requires Tracking(p, k, off) && Nearing(p, off, a, n) && Small(p.cfg.cycle, off, a) && n < 398
    ensures var r := Cycled(p); r.phase.Locked? || (Tracking(r, k - 1, off) && Nearing(r, off, a, n + 1))
  {
    CycledAdvances(p, k, off);
    var r := Cycled(p);
    if !r.phase.Locked? {
      ErrorNears(p, r, off, a, n);
      NearingStep(p, r, off, a, n);
    }
  }

  lemma FourthCloses(p: Loop, r: Loop, off: int, a: nat)
    requires Nearing(p, off, a, 398) && Small(p.cfg.cycle, off, a) && p.cfg == r.cfg
    requires p.servo.adjust == Answer(p.servo.err, p.cfg.cycle, off) && r.servo.err == p.servo.err + p.servo.adjust
    requires WindowStep(p.cfg, p.win, r.servo.err, r)
    ensures r.phase.Locked?
  {
    ErrorNears(p, r, off, a, 398);
    InsideAfter221(r.servo.err, p.cfg.cycle, off, a, 399);
    InsideCloses(p.cfg, p.win, r.servo.err, r);
  }

  lemma FourthWindowLocks(p: Loop, k: int, off: int, a: nat)
    requires Tracking(p, k, off) && Nearing(p, off, a, 398) && Small(p.cfg.cycle, off, a)
    ensures Cycled(p).phase.Locked?
  {
    CycledAdvances(p, k, off);
    FourthCloses(p, Cycled(p), off, a);
  }

  lemma {:induction false} FrozenLocksFrom(p: Loop, k: int, off: int, a: nat, n: nat)
    requires Tracking(p, k, off) && Nearing(p, off, a, n) && Small(p.cfg.cycle, off, a) && n <= 398
    ensures LockedBy(p, 399 - n)
    decreases 398 - n
  {
    if n == 398 {
      FourthWindowLocks(p, k, off, a);
    } else {
      Nears(p, k, off, a, n);
      if !Cycled(p).phase.Locked? {
        FrozenLocksFrom(Cycled(p), k - 1, off, a, n + 1);
      }
    }
  }

  // ---- at rest outside the lock window -------------------------------------

  /** At rest: the two shares cancel, and every error of the window so far is the
      present one. */
  ghost predicate AtRest(d: Loop, off: int) {
    TDiv(d.servo.err, 8) == -off && Abs(d.servo.err) >= d.cfg.cycle / 100 && AllSame(d.win, d.servo.err)
  }

  ghost predicate AllSame(w: Window, e: int) {
    w.n < 100 && w.sum == Times(w.n, e)
  }

  lemma MeanOfSame(e: int)
    ensures TDiv(Times(99, e) + e, 100) == e
  {
    TimesIsProduct(99, e);
  }

  lemma SameAgain(c: Cfg, w: Window, e: int, r: Loop)
    requires AllSame(w, e) && WindowStep(c, w, e, r) && Abs(e) >= c.cycle / 100
    ensures !r.phase.Locked? && AllSame(r.win, e)
  {
    MeanOfSame(e);
  }

  lemma RestsOn(d: Loop, k: int, off: int)
    requires Tracking(d, k, off) && AtRest(d, off)
    ensures Tracking(Cycled(d), k - 1, off) && AtRest(Cycled(d), off)
  {
    CycledAdvances(d, k, off);
    assert d.servo.adjust == 0;
    SameAgain(d.cfg, d.win, d.servo.err, Cycled(d));
  }

  /** It never locks. */
  lemma {:induction false} NeverLocks(d: Loop, k: int, off: int, n: nat)
    requires Tracking(d, k, off) && AtRest(d, off)
    ensures !LockedBy(d, n)
    decreases n
  {
    if n == 0 {
    } else {
      RestsOn(d, k, off);
      NeverLocks(Cycled(d), k - 1, off, n - 1);
    }
  }

  // ---- which integrators lock ----------------------------------------------

  /** Acquiring with the default gains, at the start of a window: after an anchor, a
      re-anchor or an unlock. */
  ghost predicate Acquiring(a: Loop) {
    DefaultLoop(a.cfg) && a.phase.Acquire? && a.win.n == 0 && a.win.sum == 0 && 0 <= a.clock.prevLo < 0x1_0000_0000
  }

  /** How far to the next time with that error. */
  lemma StepTo(c: Cfg, x: int, e: int) returns (step: int, q: int)
    requires c.cycle > 0
    ensures 1 <= step <= c.cycle && e == x + step - c.setpoint + q * c.cycle
  {
    var want := e + c.setpoint - x - 1;
    q, step := want / c.cycle, want % c.cycle + 1;
    assert want == q * c.cycle + want % c.cycle;
  }

  /** A sample can arrive with any error. */
  lemma SampleWithError(a: Loop, e: int) returns (first: Sample)
    requires Acquiring(a) && -(a.cfg.cycle / 2) < e <= a.cfg.cycle - a.cfg.cycle / 2
    ensures Lo(first.ref) != a.clock.prevLo && Updated(a, first.ref, first.host).servo.err == e
  {
    var x := a.clock.ext - a.clock.sync0;
    var step, q := StepTo(a.cfg, x, e);
    OnGridIsError(a.cfg, x + step, e, q);
    StepHasError(a, step, e);
    first := Sample(a.clock.prevLo + step, a.clock.prevHost + step);
    DiffersBy(a.clock.prevLo, step);
  }

  lemma StepHasError(a: Loop, step: int, e: int)
    requires Acquiring(a) && 0 < step < 0x1_0000_0000 && PhaseError(a.cfg, a.clock.ext - a.clock.sync0 + step) == e
    ensures Updated(a, a.clock.prevLo + step, a.clock.prevHost + step).servo.err == e
  {
    var g, lo, host := a.gate.(run := 0, rejected := false), Lo(a.clock.prevLo + step), a.clock.prevHost + step;
    var clock := Unwrapped(a.clock, lo, host);
    StepIsTaken(a, step);
    assert clock.ext - clock.sync0 == a.clock.ext - a.clock.sync0 + step;
    TakenIs(a.(gate := g), lo, host, clock, e);
  }

  lemma DiffersBy(lo: int, step: int)
    requires 0 <= lo < 0x1_0000_0000 && 0 < step < 0x1_0000_0000
    ensures Lo(lo + step) != lo
  {
  }

  lemma SmallShareLocks(a: Loop, off: int, first: Sample)
    requires Acquiring(a) && off == TDiv(a.servo.integ, 256) && Farthest(off) < a.cfg.cycle / 100
    requires Lo(first.ref) != a.clock.prevLo
    ensures LockedBy(Updated(a, first.ref, first.host), 399)
  {
    var d := Updated(a, first.ref, first.host);
    var k := FirstSample(a, first, off);
    FrozenLocksFrom(d, k, off, Abs(d.servo.err + 8 * off), 0);
  }

  /** The end of the resting range away from the setpoint. */
  function FarEnd(off: int): int {
    if off > 0 then -8 * off - 7 else -8 * off + 7
  }

  lemma RestsAtFarEnd(off: int)
    ensures TDiv(FarEnd(off), 8) == -off && Abs(FarEnd(off)) == Farthest(off)
  {
  }

  /** From a sample at the far end of the resting range the loop never locks. */
  lemma LargeShareStalls(a: Loop, off: int) returns (first: Sample)
    requires Acquiring(a) && off == TDiv(a.servo.integ, 256) && 16 * Abs(off) + 16 <= a.cfg.cycle
    requires Farthest(off) >= a.cfg.cycle / 100
    ensures Lo(first.ref) != a.clock.prevLo && forall n: nat :: !LockedBy(Updated(a, first.ref, first.host), n)
  {
    var e := FarEnd(off);
    RestsAtFarEnd(off);
    first := SampleWithError(a, e);
    var k := FirstSample(a, first, off);
    var d := Updated(a, first.ref, first.host);
    assert Times(1, e) == Times(0, e) + e;
    forall n: nat ensures !LockedBy(d, n) {
      NeverLocks(d, k, off, n);
    }
  }

  /** With an integral share whose point of rest lies within half a cycle, the loop
      has locked by sample 400 from every phase if and only if the whole resting range
      lies inside the lock window; otherwise there is a phase from which it never
      locks. */
  lemma FrozenLocksIff(a: Loop, off: int)
    requires Acquiring(a) && off == TDiv(a.servo.integ, 256) && 16 * Abs(off) + 16 <= a.cfg.cycle
    ensures (forall first: Sample | Lo(first.ref) != a.clock.prevLo ::
               LockedBy(Updated(a, first.ref, first.host), 399)) <==> Farthest(off) < a.cfg.cycle / 100
    ensures Farthest(off) >= a.cfg.cycle / 100 ==>
              exists first: Sample | Lo(first.ref) != a.clock.prevLo ::
                forall n: nat :: !LockedBy(Updated(a, first.ref, first.host), n)
  {
    if Farthest(off) < a.cfg.cycle / 100 {
      forall first: Sample | Lo(first.ref) != a.clock.prevLo
        ensures LockedBy(Updated(a, first.ref, first.host), 399)
      {
        SmallShareLocks(a, off, first);
      }
    } else {
      var first := LargeShareStalls(a, off);
      assert !LockedBy(Updated(a, first.ref, first.host), 399);
    }
  }

  /** An input: at 1 ms with an integral share of 20000 ns, an error of -160000 ns is
      answered with no adjustment, for ever. */
  lemma FrozenInput(a: Loop, first: Sample, n: nat)
    requires Acquiring(a) && a.cfg.cycle == 1000000 && a.servo.integ == 256 * 20000
    requires Lo(first.ref) != a.clock.prevLo && Updated(a, first.ref, first.host).servo.err == -160000
    ensures Updated(a, first.ref, first.host).servo.adjust == 0 && !LockedBy(Updated(a, first.ref, first.host), n)
  {
    var d := Updated(a, first.ref, first.host);
    var k := FirstSample(a, first, 20000);
    assert Times(1, d.servo.err) == Times(0, d.servo.err) + d.servo.err;
    NeverLocks(d, k, 20000, n);
  }
}
