/** What the phase lock guarantees over whole runs: exact unwrapping, few refused
    samples, a true phase error, and bounded control. */
module DcProofs {
  import opened Arith
  import opened DcLoop

  // ---- exact unwrapping ----------------------------------------------------

  /** Reference and host time since `a` differ by at most half a counter range. */
  ghost predicate Close(a: Sample, b: Sample) {
    -0x8000_0000 < (b.ref - a.ref) - (b.host - a.host) <= 0x8000_0000
  }

  /** The elapsed time is found exactly if and only if the clocks stayed close. */
  lemma DeltaExactIff(c: Clock, a: Sample, b: Sample)
    requires c.prevLo == Lo(a.ref) && c.prevHost == a.host
    ensures Delta(c, Lo(b.ref), b.host) == b.ref - a.ref <==> Close(a, b)
  {
  }

  /** The last sample of a run that was used, starting from the anchor. */
  ghost function LastUsed(d: Loop, anchor: Sample, ss: seq<Sample>): Sample
    requires CfgOk(d.cfg)
  {
    if ss == [] then anchor
    else
      var pre, s := ss[..|ss| - 1], ss[|ss| - 1];
      if Accepts(Run(d, pre), s.ref, s.host) then s else LastUsed(d, anchor, pre)
  }

  /** Each used sample was close to the one used before it. */
  ghost predicate WellTimed(d: Loop, anchor: Sample, ss: seq<Sample>)
    requires CfgOk(d.cfg)
  {
    ss == [] ||
    var pre, s := ss[..|ss| - 1], ss[|ss| - 1];
    WellTimed(d, anchor, pre)
    && (Accepts(Run(d, pre), s.ref, s.host) ==> Close(LastUsed(d, anchor, pre), s))
  }

  /** After every prefix the unwrapped time is reference time up to the constant
      fixed at the anchor. */
  ghost predicate ExactThroughout(d: Loop, anchor: Sample, ss: seq<Sample>)
    requires CfgOk(d.cfg)
  {
    && Run(d, ss).clock.ext - LastUsed(d, anchor, ss).ref == d.clock.ext - anchor.ref
    && (ss == [] || ExactThroughout(d, anchor, ss[..|ss| - 1]))
  }

  /** The last used sample is the one the loop remembers. */
  lemma {:induction false} RunRemembers(d: Loop, anchor: Sample, ss: seq<Sample>)
    requires CfgOk(d.cfg) && d.clock.prevLo == Lo(anchor.ref) && d.clock.prevHost == anchor.host
    ensures var r := Run(d, ss); var a := LastUsed(d, anchor, ss);
            r.clock.prevLo == Lo(a.ref) && r.clock.prevHost == a.host && r.clock.sync0 == d.clock.sync0
  {
    if ss == [] {
    } else {
      RunRemembers(d, anchor, ss[..|ss| - 1]);
    }
  }

  /** Over whole runs with gaps of any length and any number of 32-bit wraps,
      the unwrapped time is exact throughout if and only if each used sample
      was close to the one before. */
  lemma {:induction false} UnwrapExactIff(d: Loop, anchor: Sample, ss: seq<Sample>)
    requires CfgOk(d.cfg) && d.clock.prevLo == Lo(anchor.ref) && d.clock.prevHost == anchor.host
    ensures ExactThroughout(d, anchor, ss) <==> WellTimed(d, anchor, ss)
  {
    if ss == [] {
    } else {
      var pre, s := ss[..|ss| - 1], ss[|ss| - 1];
      UnwrapExactIff(d, anchor, pre);
      RunRemembers(d, anchor, pre);
      DeltaExactIff(Run(d, pre).clock, LastUsed(d, anchor, pre), s);
    }
  }

  /** Every crossing of a multiple of 2^32 is counted, in either direction, and
      nothing else is. */
  lemma {:induction false} WrapsAreCounted(d: Loop, ss: seq<Sample>)
    requires CfgOk(d.cfg)
    ensures var r := Run(d, ss);
            r.clock.wraps - d.clock.wraps == r.clock.ext / 0x1_0000_0000 - d.clock.ext / 0x1_0000_0000
  {
    if ss == [] {
    } else {
      WrapsAreCounted(d, ss[..|ss| - 1]);
    }
  }

  // ---- the reply-age gate --------------------------------------------------

  /** A run of samples that are new but all refused for their age. */
  ghost predicate AllRefused(d: Loop, fs: seq<Sample>)
    requires CfgOk(d.cfg)
  {
    fs == [] ||
    var pre, s := fs[..|fs| - 1], fs[|fs| - 1];
    AllRefused(d, pre) && Lo(s.ref) != Run(d, pre).clock.prevLo && !Accepts(Run(d, pre), s.ref, s.host)
  }

  /** How many refusals in a row the configuration allows. */
  function MostRefusals(c: Cfg): nat {
    if c.gate <= 0 then 0 else if c.gateReuse <= 0 then RESYNC - 1 else RESYNC_REUSE - 1
  }

  lemma {:induction false} GateCounts(d: Loop, ss: seq<Sample>)
    requires CfgOk(d.cfg) && d.gate.run <= MostRefusals(d.cfg) && !d.phase.Unanchored?
    ensures var r := Run(d, ss);
            && r.gate.run <= MostRefusals(d.cfg) && !r.phase.Unanchored?
            && (AllRefused(d, ss) ==> r.gate.run == d.gate.run + |ss|)
  {
    if ss == [] {
    } else {
      GateCounts(d, ss[..|ss| - 1]);
    }
  }

  /** The gate never locks the reference out: from the anchor on, at any time, at
      most that many new samples in a row are refused, whatever they carry. */
  lemma RefusalsAreFew(d: Loop, es: seq<Sample>, fs: seq<Sample>)
    requires CfgOk(d.cfg) && d.gate.run <= MostRefusals(d.cfg) && !d.phase.Unanchored? && AllRefused(Run(d, es), fs)
    ensures |fs| <= MostRefusals(d.cfg)
  {
    GateCounts(d, es);
    GateCounts(Run(d, es), fs);
  }

  // ---- the phase error -----------------------------------------------------

  /** e is the representative of x - setpoint modulo the cycle in a window of exactly
      one cycle around zero. */
  predicate IsPhase(c: Cfg, x: int, e: int)
    requires c.cycle > 0
  {
    -(c.cycle / 2) < e <= c.cycle - c.cycle / 2 && (e - (x - c.setpoint)) % c.cycle == 0
  }

  lemma PhaseErrorMeaning(c: Cfg, x: int)
    requires CfgOk(c)
    ensures IsPhase(c, x, PhaseError(c, x))
  {
    var e := PhaseError(c, x);
    var ph, q := x % c.cycle, x / c.cycle;
    assert x == q * c.cycle + ph;
    assert TDiv(-c.cycle, 2) == -(c.cycle / 2);
    var k := if e == ph - c.setpoint then 0 else if e == ph - c.setpoint - c.cycle then -1 else 1;
    assert e == ph - c.setpoint + k * c.cycle;
    assert e - (x - c.setpoint) == (k - q) * c.cycle + 0 by { Distribute(k, q, c.cycle); }
    DivModUnique(e - (x - c.setpoint), c.cycle, k - q, 0);
  }

  lemma Distribute(a: int, b: int, d: int)
    ensures (a - b) * d == a * d - b * d
  {
  }

  /** After the anchor, an exactly unwrapped sample's error is the true phase of
      the frame against the SYNC0 event, with no jump at a wrap. */
  lemma ErrorIsTruePhase(c: Cfg, d: Loop, anchor: Sample, sync0: int, ss: seq<Sample>, s: Sample, a: Loop, e: int)
    requires CfgOk(c) && d.cfg == c
    requires -0x8000_0000 <= sync0 - anchor.ref < 0x8000_0000 && a == Anchored(d, anchor.ref, sync0, anchor.host)
    requires WellTimed(a, anchor, ss + [s]) && Accepts(Run(a, ss), s.ref, s.host) && e == Run(a, ss + [s]).servo.err
    ensures IsPhase(c, s.ref - sync0, e)
  {
    var all := ss + [s];
    assert all[..|all| - 1] == ss;
    ErrorIsPhaseOf(d, anchor, sync0, all, s, a);
    PhaseErrorMeaning(c, s.ref - sync0);
  }

  lemma ErrorIsPhaseOf(d: Loop, anchor: Sample, sync0: int, ss: seq<Sample>, s: Sample, a: Loop)
    requires CfgOk(d.cfg) && ss != [] && s == ss[|ss| - 1]
    requires -0x8000_0000 <= sync0 - anchor.ref < 0x8000_0000 && a == Anchored(d, anchor.ref, sync0, anchor.host)
    requires WellTimed(a, anchor, ss) && Accepts(Run(a, ss[..|ss| - 1]), s.ref, s.host)
    ensures Run(a, ss).servo.err == PhaseError(d.cfg, s.ref - sync0)
  {
    PhaseIsTrue(d, anchor, sync0, ss, s, a);
    AcceptedError(Run(a, ss[..|ss| - 1]), s, Run(a, ss));
  }

  /** The error of an accepted sample is the phase error of its unwrapped time. */
  lemma AcceptedError(p: Loop, s: Sample, r: Loop)
    requires CfgOk(p.cfg) && Accepts(p, s.ref, s.host) && r == Updated(p, s.ref, s.host)
    ensures r.servo.err == PhaseError(p.cfg, r.clock.ext - r.clock.sync0)
  {
  }

  lemma PhaseIsTrue(d: Loop, anchor: Sample, sync0: int, ss: seq<Sample>, s: Sample, a: Loop)
    requires CfgOk(d.cfg) && ss != [] && s == ss[|ss| - 1]
    requires -0x8000_0000 <= sync0 - anchor.ref < 0x8000_0000 && a == Anchored(d, anchor.ref, sync0, anchor.host)
    requires WellTimed(a, anchor, ss) && Accepts(Run(a, ss[..|ss| - 1]), s.ref, s.host)
    ensures Run(a, ss).clock.ext - Run(a, ss).clock.sync0 == s.ref - sync0
  {
    AnchorSync0(d, anchor, sync0);
    UnwrapExactIff(a, anchor, ss);
    RunRemembers(a, anchor, ss);
  }

  lemma AnchorSync0(d: Loop, anchor: Sample, sync0: int)
    requires -0x8000_0000 <= sync0 - anchor.ref < 0x8000_0000
    ensures var a := Anchored(d, anchor.ref, sync0, anchor.host);
            a.clock.ext - a.clock.sync0 == anchor.ref - sync0
  {
  }

  // ---- bounded control -----------------------------------------------------

  /** Largest error magnitude for a cycle. */
  function MaxError(c: Cfg): int {
    (c.cycle + 1) / 2
  }

  function IntegLimit(c: Cfg): int
    requires CfgOk(c)
  {
    c.ki * (c.maxAdjust + MaxError(c) / c.kp + 1)
  }

  ghost predicate Bounded(d: Loop)
    requires CfgOk(d.cfg)
  {
    Abs(d.servo.integ) <= IntegLimit(d.cfg) && Abs(d.servo.adjust) <= d.cfg.maxAdjust
  }

  lemma DivMonotone(a: nat, b: nat, k: nat)
    requires a <= b && k > 0
    ensures a / k <= b / k
  {
    assert a == (a / k) * k + a % k && b == (b / k) * k + b % k;
    if a / k > b / k {
      Distribute(a / k, b / k, k);
      MulAtLeast(a / k - b / k, k);
    }
  }

  lemma BelowNextMultiple(x: nat, k: nat, q: nat)
    requires k > 0 && x / k <= q
    ensures x <= k * (q + 1)
  {
  }

  lemma TDivMagnitude(a: int, b: int)
    requires b > 0
    ensures Abs(TDiv(a, b)) == Abs(a) / b
  {
  }

  lemma ControlBounded(c: Cfg, locked: bool, s: Servo, e: int)
    requires CfgOk(c) && Abs(e) <= MaxError(c) && Abs(s.integ) <= IntegLimit(c)
    ensures var r := Controlled(c, locked, s, e); Abs(r.integ) <= IntegLimit(c) && Abs(r.adjust) <= c.maxAdjust
  {
    var integ := if locked then s.integ + e else s.integ;
    var qe, qi := TDiv(e, c.kp), TDiv(integ, c.ki);
    DivMonotone(Abs(e), MaxError(c), c.kp);
    assert Abs(qe) <= MaxError(c) / c.kp by { TDivMagnitude(e, c.kp); }
    if Abs(qe + qi) <= c.maxAdjust {
      assert Abs(integ) <= IntegLimit(c) by {
        TDivMagnitude(integ, c.ki);
        BelowNextMultiple(Abs(integ), c.ki, c.maxAdjust + MaxError(c) / c.kp);
      }
    }
  }

  lemma UpdateBounded(d: Loop, s: Sample)
    requires CfgOk(d.cfg) && Bounded(d)
    ensures Bounded(Updated(d, s.ref, s.host))
  {
    if Accepts(d, s.ref, s.host) {
      var g := Gated(d.cfg, d.gate, Miss(d.clock, Lo(s.ref), s.host));
      TakenBounded(d.(gate := g), Lo(s.ref), s.host);
    }
  }

  lemma TakenBounded(d: Loop, lo: int, host: int)
    requires CfgOk(d.cfg) && Bounded(d)
    ensures Bounded(Taken(d, lo, host))
  {
    var clock := Unwrapped(d.clock, lo, host);
    var e := PhaseError(d.cfg, clock.ext - clock.sync0);
    PhaseErrorMeaning(d.cfg, clock.ext - clock.sync0);
    ControlBounded(d.cfg, d.phase.Locked?, d.servo, e);
  }

  lemma {:induction false} RunBoundedFrom(d: Loop, ss: seq<Sample>)
    requires CfgOk(d.cfg) && Bounded(d)
    ensures Bounded(Run(d, ss))
  {
    if ss == [] {
    } else {
      RunBoundedFrom(d, ss[..|ss| - 1]);
      UpdateBounded(Run(d, ss[..|ss| - 1]), ss[|ss| - 1]);
    }
  }

  /** For any samples whatever, the integrator stays within what the clamp can
      express and the adjustment within the clamp, across re-anchors too. */
  lemma RunBounded(c: Cfg, anchors: seq<(Sample, int, seq<Sample>)>)
    requires CfgOk(c)
    ensures Bounded(RunAll(c, anchors))
  {
    if anchors != [] {
      RunBounded(c, anchors[..|anchors| - 1]);
      var (a, sync0, ss) := anchors[|anchors| - 1];
      RunBoundedFrom(Anchored(RunAll(c, anchors[..|anchors| - 1]), a.ref, sync0, a.host), ss);
    } else {
      assert Bounded(Initial(c)) by { LimitNonNegative(c); }
    }
  }

  lemma LimitNonNegative(c: Cfg)
    requires CfgOk(c)
    ensures IntegLimit(c) >= 0
  {
  }

  /** From start-up: any number of anchors, each followed by any samples. */
  function RunAll(c: Cfg, anchors: seq<(Sample, int, seq<Sample>)>): (r: Loop)
    requires CfgOk(c)
    ensures r.cfg == c
  {
    if anchors == [] then Initial(c)
    else
      var (a, sync0, ss) := anchors[|anchors| - 1];
      Run(Anchored(RunAll(c, anchors[..|anchors| - 1]), a.ref, sync0, a.host), ss)
  }

  /** With the default configuration the next deadline is between 19/20 and
      21/20 of a cycle after this one, whatever the bus delivers. */
  lemma DeadlinesAdvance(cycle: int, setpoint: int, anchors: seq<(Sample, int, seq<Sample>)>)
    requires cycle > 0
    ensures var step := cycle + RunAll(DefaultCfg(cycle, setpoint), anchors).servo.adjust;
            19 * cycle <= 20 * step <= 21 * cycle
  {
    RunBounded(DefaultCfg(cycle, setpoint), anchors);
  }
}
