/** The reply-age gate against its description: samples that look like an old
    reply read through a reused index are said not to count toward the short
    resynchronisation limit, but the code keeps one count for both. */
module DcGate {
  import opened DcLoop

  predicate OutOfGate(c: Cfg, smiss: int) {
    c.gate > 0 && Abs(smiss) > c.gate
  }

  predicate LooksReused(c: Cfg, smiss: int) {
    c.gateReuse > 0 && smiss < -2 * c.gate && Abs(smiss) <= c.gateReuse
  }

  /** The gate as described: `plain` counts the refusals of the current run that
      do not look like index reuse, `run` all of them. */
  datatype Described = Described(plain: nat, run: nat, rejected: bool)

  function Decide(c: Cfg, g: Described, smiss: int): Described {
    if !OutOfGate(c, smiss) then Described(0, 0, false)
    else if LooksReused(c, smiss) then
      if g.run + 1 < RESYNC_REUSE then Described(g.plain, g.run + 1, true) else Described(0, 0, false)
    else if g.plain + 1 < RESYNC then Described(g.plain + 1, g.run + 1, true)
    else Described(0, 0, false)
  }

  /** Both gates over the misses of successive new samples. */
  function DescribedRun(c: Cfg, ms: seq<int>): Described {
    if ms == [] then Described(0, 0, false) else Decide(c, DescribedRun(c, ms[..|ms| - 1]), ms[|ms| - 1])
  }

  function CodeRun(c: Cfg, ms: seq<int>): Gate {
    if ms == [] then Gate(0, false, 0, 0, 0) else Gated(c, CodeRun(c, ms[..|ms| - 1]), ms[|ms| - 1])
  }

  ghost predicate SameDecisions(c: Cfg, ms: seq<int>) {
    forall k | 0 <= k <= |ms| :: CodeRun(c, ms[..k]).rejected == DescribedRun(c, ms[..k]).rejected
  }

  /** A plain stray sample comes when fewer than two plain ones, but together with
      reuse at least two, have been refused in a row. */
  ghost predicate MixedAt(c: Cfg, ms: seq<int>, k: nat)
    requires k < |ms|
  {
    var g := DescribedRun(c, ms[..k]);
    OutOfGate(c, ms[k]) && !LooksReused(c, ms[k]) && g.plain + 1 < RESYNC <= g.run + 1
  }

  lemma {:induction false} RunsAgree(c: Cfg, ms: seq<int>)
    requires forall k | 0 <= k < |ms| :: !MixedAt(c, ms, k)
    ensures var d := DescribedRun(c, ms);
            CodeRun(c, ms).run == d.run && d.plain <= d.run && CodeRun(c, ms).rejected == d.rejected
  {
    if ms == [] {
    } else {
      var pre := ms[..|ms| - 1];
      forall k | 0 <= k < |pre| ensures !MixedAt(c, pre, k) {
        assert pre[..k] == ms[..k] && !MixedAt(c, ms, k);
      }
      RunsAgree(c, pre);
      assert !MixedAt(c, ms, |pre|);
    }
  }

  /** The first mixed sample is taken by the code and refused by the description. */
  lemma MixedDiffers(c: Cfg, ms: seq<int>, k: nat)
    requires k < |ms| && MixedAt(c, ms, k) && forall j | 0 <= j < k :: !MixedAt(c, ms, j)
    ensures !CodeRun(c, ms[..k + 1]).rejected && DescribedRun(c, ms[..k + 1]).rejected
  {
    var pre := ms[..k];
    forall j | 0 <= j < |pre| ensures !MixedAt(c, pre, j) {
      assert pre[..j] == ms[..j] && !MixedAt(c, ms, j);
    }
    RunsAgree(c, pre);
    assert ms[..k + 1][..k] == pre;
  }

  lemma {:induction false} FirstMixed(c: Cfg, ms: seq<int>, n: nat) returns (k: nat)
    requires n <= |ms| && exists j | 0 <= j < n :: MixedAt(c, ms, j)
    ensures k < n && MixedAt(c, ms, k) && forall j | 0 <= j < k :: !MixedAt(c, ms, j)
  {
    if exists j | 0 <= j < n - 1 :: MixedAt(c, ms, j) {
      k := FirstMixed(c, ms, n - 1);
    } else {
      k := n - 1;
    }
  }

  /** For every configuration and every run of samples, the code decides as
      described if and only if no plain stray sample comes in such a mixed run. */
  lemma DecidesAsDescribedIff(c: Cfg, ms: seq<int>)
    ensures SameDecisions(c, ms) <==> forall k | 0 <= k < |ms| :: !MixedAt(c, ms, k)
  {
    if forall k | 0 <= k < |ms| :: !MixedAt(c, ms, k) {
      forall k | 0 <= k <= |ms| ensures CodeRun(c, ms[..k]).rejected == DescribedRun(c, ms[..k]).rejected {
        forall j | 0 <= j < k ensures !MixedAt(c, ms[..k], j) {
          assert ms[..k][..j] == ms[..j] && !MixedAt(c, ms, j);
        }
        RunsAgree(c, ms[..k]);
      }
    } else {
      var k := FirstMixed(c, ms, |ms|);
      MixedDiffers(c, ms, k);
    }
  }

  lemma OneMoreMiss(c: Cfg, ms: seq<int>, m: int, all: seq<int>)
    requires all == ms + [m]
    ensures CodeRun(c, all) == Gated(c, CodeRun(c, ms), m)
    ensures DescribedRun(c, all) == Decide(c, DescribedRun(c, ms), m)
  {
    assert all[..|all| - 1] == ms;
  }

  lemma MixedMisses(c: Cfg, one: seq<int>, two: seq<int>, three: seq<int>)
    requires c.gate == 10 && c.gateReuse == 100
    requires one == [-50] && two == [-50, -50] && three == [-50, -50, 20]
    ensures CodeRun(c, one).rejected && CodeRun(c, two).rejected && !CodeRun(c, three).rejected
    ensures CodeRun(c, two).run == 2 && DescribedRun(c, three).rejected
  {
    assert one == [] + [-50] && two == one + [-50] && three == two + [20];
    OneMoreMiss(c, [], -50, one);
    OneMoreMiss(c, one, -50, two);
    OneMoreMiss(c, two, 20, three);
  }

  lemma OneMoreSample(d: Loop, ss: seq<Sample>, s: Sample, all: seq<Sample>)
    requires CfgOk(d.cfg) && all == ss + [s]
    ensures Run(d, all) == Updated(Run(d, ss), s.ref, s.host)
  {
    assert all[..|all| - 1] == ss;
  }

  /** A sample some way off the prediction, right after an anchor at time zero. */
  lemma MissOf(k: Clock, ref: int, host: int)
    requires k.prevLo == 0 && k.prevHost == 0 && 0 < ref < 0x8000_0000 && 0 <= host < 0x8000_0000
    ensures Lo(ref) == ref && Miss(k, ref, host) == ref - host
  {
  }

  /** Two old replies and then one stray sample: the first two are refused, the
      third is taken as a clock step, although it is the first of its kind and the
      description refuses it. */
  lemma MixedRunIsTaken(c: Cfg, a: Loop, first: Sample, second: Sample, third: Sample)
    requires CfgOk(c) && c.gate == 10 && c.gateReuse == 100 && a == Anchored(Initial(c), 0, 0, 0)
    requires first == Sample(950, 1000) && second == Sample(1950, 2000) && third == Sample(3020, 3000)
    ensures Run(a, [first, second]).clock == a.clock && Run(a, [first, second]).gate.implausible == 2
    ensures var r := Run(a, [first, second, third]); r.clock.samples == 1 && r.clock.ext == 3020 && r.gate.resyncs == 1
    ensures DescribedRun(c, [950 - 1000, 1950 - 2000, 3020 - 3000]).rejected
  {
    MixedMisses(c, [-50], [-50, -50], [-50, -50, 20]);
    MissOf(a.clock, 950, 1000);
    OneMoreSample(a, [], first, [first]);
    var r1 := Run(a, [first]);
    assert r1.clock == a.clock && r1.gate == Gate(1, true, 1, 0, 0);
    MissOf(a.clock, 1950, 2000);
    OneMoreSample(a, [first], second, [first, second]);
    var r2 := Run(a, [first, second]);
    assert r2.clock == a.clock && r2.gate == Gate(2, true, 2, 0, 0);
    MissOf(a.clock, 3020, 3000);
    OneMoreSample(a, [first, second], third, [first, second, third]);
  }
}
