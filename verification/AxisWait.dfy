/** The bounded wait around the walk-down, for all axes together. */
module AxisWait {
  import opened Axis
  import opened AxisPlant
  import opened AxisShutdown

  /** What is asked at each test of the loop. */
  predicate AllDown(axes: seq<Axis>, busLost: bool) {
    busLost || forall i | 0 <= i < |axes| :: Down(axes[i])
  }

  datatype Wait = NotAsked | Waiting(t0: nat) | Done(inTime: bool, ticks: nat)

  /** One call at a loop test: the new state and whether to keep cycling. */
  function KeepCycling(w: Wait, tick: nat, allDown: bool, maxTicks: nat): (Wait, bool) {
    if w.Done? then (w, false)
    else
      var t0 := match w case Waiting(t) => t case _ => tick;
      if allDown then (Done(true, if tick >= t0 then tick - t0 else 0), false)
      else if tick - t0 >= maxTicks then (Done(false, tick - t0), false)
      else (Waiting(t0), true)
  }

  /** The wait from a tick on, with the axes reported down or not at each test. */
  function WaitFrom(w: Wait, tick: nat, downs: seq<bool>, maxTicks: nat): (Wait, bool)
    decreases |downs|
  {
    if downs == [] then (w, true)
    else
      var (v, again) := KeepCycling(w, tick, downs[0], maxTicks);
      if !again then (v, false) else WaitFrom(v, tick + 1, downs[1..], maxTicks)
  }

  ghost predicate DownBefore(downs: seq<bool>, n: nat) {
    exists k | 0 <= k < |downs| && k <= n :: downs[k]
  }

  /** Whatever the drives do, the loop leaves after at most maxTicks + 1 tests, and
      it reports success exactly if the axes were down at a test in that time. */
  lemma {:induction false} WaitEnds(w: Wait, tick: nat, downs: seq<bool>, maxTicks: nat, t0: nat)
    requires t0 <= tick <= t0 + maxTicks && (w == Waiting(t0) || (w.NotAsked? && tick == t0))
    requires |downs| > t0 + maxTicks - tick
    ensures var (v, again) := WaitFrom(w, tick, downs, maxTicks);
            !again && v.Done? && v.ticks <= maxTicks && (v.inTime <==> DownBefore(downs, t0 + maxTicks - tick))
    decreases |downs|
  {
    var n := t0 + maxTicks - tick;
    var (v, again) := KeepCycling(w, tick, downs[0], maxTicks);
    if again {
      WaitEnds(v, tick + 1, downs[1..], maxTicks, t0);
      if DownBefore(downs[1..], n - 1) {
        var k :| 0 <= k < |downs[1..]| && k <= n - 1 && downs[1..][k];
        assert downs[k + 1];
      }
      if DownBefore(downs, n) {
        var k :| 0 <= k < |downs| && k <= n && downs[k];
        assert downs[1..][k - 1];
      }
    }
  }

  // ---- obeying drives end it in time ---------------------------------------

  /** One axis of the machine: its configuration, its plant when shutdown is asked
      for, and what happens at it from then on, tick by tick. */
  datatype Station = Station(c: Cfg, p: Plant, ticks: seq<seq<Happening>>)

  /** Any setpoints, any commands but a quick stop, and then a cycle whose frames
      arrive both ways. */
  predicate GoodTick(hs: seq<Happening>) {
    && hs != [] && Good(hs[|hs| - 1])
    && forall k | 0 <= k < |hs| - 1 :: hs[k].Push? || (hs[k].Order? && hs[k].op != Quick)
  }

  function Flat(ticks: seq<seq<Happening>>): seq<Happening> {
    if ticks == [] then [] else ticks[0] + Flat(ticks[1..])
  }

  function AxisAt(x: Station, k: nat): Axis
    requires PointsShape(x.p.world.axis.pp) && k <= |x.ticks|
  {
    After(x.c, ShutDown(x.c, x.p), Flat(x.ticks[..k])).world.axis
  }

  /** A plant out of any run, and ticks whose frames all arrive. */
  ghost predicate Obeys(x: Station) {
    && (exists d0, before :: x.p == After(x.c, PowerOn(x.c, d0), before))
    && forall k | 0 <= k < |x.ticks| :: GoodTick(x.ticks[k])
  }

  /** The tests of the loop, one per tick. */
  ghost predicate TestsOf(xs: seq<Station>, downs: seq<bool>) {
    && (forall i | 0 <= i < |xs| :: Obeys(xs[i]) && |downs| <= |xs[i].ticks| + 1)
    && forall k | 0 <= k < |downs| ::
         downs[k] <==> AllDown(seq(|xs|, i requires 0 <= i < |xs| => AxisAt(xs[i], k)), false)
  }

  lemma {:induction false} GoodCyclesOfBoth(xs: seq<Happening>, ys: seq<Happening>)
    ensures GoodCycles(xs + ys) == GoodCycles(xs) + GoodCycles(ys)
  {
    if xs == [] {
      assert xs + ys == ys;
    } else {
      assert (xs + ys)[1..] == xs[1..] + ys;
      GoodCyclesOfBoth(xs[1..], ys);
    }
  }

  lemma {:induction false} FlatIsGood(ticks: seq<seq<Happening>>)
    requires forall k | 0 <= k < |ticks| :: GoodTick(ticks[k])
    ensures GoodCycles(Flat(ticks)) >= |ticks| && BusUp(Flat(ticks)) && NoQuick(Flat(ticks))
  {
    if ticks == [] {
    } else {
      var hs := ticks[0];
      FlatIsGood(ticks[1..]);
      GoodCyclesOfBoth(hs, Flat(ticks[1..]));
      GoodCyclesOfBoth(hs[..|hs| - 1], [hs[|hs| - 1]]);
      assert hs == hs[..|hs| - 1] + [hs[|hs| - 1]];
    }
  }

  /** Without a quick stop an axis that is shut down stays so. */
  lemma {:induction false} StaysDisabled(c: Cfg, p: Plant, hs: seq<Happening>)
    requires Stopping(p) && TargetOf(p) == Disabled && NoQuick(hs)
    ensures Stopping(After(c, p, hs)) && TargetOf(After(c, p, hs)) == Disabled
    decreases |hs|
  {
    if hs == [] {
    } else {
      NextMoves(c, p, hs[0]);
      StaysDisabled(c, Next(c, p, hs[0]), hs[1..]);
    }
  }

  lemma {:induction false} AfterBoth(c: Cfg, p: Plant, xs: seq<Happening>, ys: seq<Happening>)
    requires PointsShape(p.world.axis.pp)
    ensures After(c, p, xs + ys) == After(c, After(c, p, xs), ys)
    decreases |xs|
  {
    if xs == [] {
      assert xs + ys == ys;
    } else {
      assert (xs + ys)[1..] == xs[1..] + ys;
      AfterBoth(c, Next(c, p, xs[0]), xs[1..], ys);
    }
  }

  /** The first good tick has its reply, six more bring the axis down. */
  lemma DownFrom(c: Cfg, p: Plant, first: seq<Happening>, hs: seq<Happening>)
    requires Stopping(p) && TargetOf(p) == Disabled && GoodTick(first)
    requires BusUp(hs) && NoQuick(hs) && GoodCycles(hs) >= 6
    ensures Down(After(c, p, first + hs).world.axis)
  {
    var mid, reply := first[..|first| - 1], first[|first| - 1];
    assert first == mid + [reply];
    StaysDisabled(c, p, mid);
    AfterLast(c, p, mid, reply);
    NextMoves(c, After(c, p, mid), reply);
    AfterBoth(c, p, first, hs);
    FromReply(c, After(c, p, mid), reply, After(c, p, first), hs, After(c, p, first + hs));
  }

  /** Seven good ticks bring an axis down. */
  lemma StationDown(x: Station, k: nat)
    requires Obeys(x) && 7 <= k <= |x.ticks|
    ensures PointsShape(x.p.world.axis.pp) && Down(AxisAt(x, k))
  {
    var d0, before :| x.p == After(x.c, PowerOn(x.c, d0), before);
    var s, ticks := ShutDown(x.c, x.p), x.ticks[..k];
    assert s == After(x.c, s, []);
    assert IsStopped(x.c, d0, before, [], s);
    StoppedNow(x.c, d0, before, s);
    assert forall j | 0 <= j < |ticks[1..]| :: ticks[1..][j] == x.ticks[j + 1] && GoodTick(ticks[1..][j]);
    FlatIsGood(ticks[1..]);
    DownFrom(x.c, s, ticks[0], Flat(ticks[1..]));
  }

  /** With any number of axes, each found in any state of any run, drives that obey,
      frames that arrive, and setpoints and commands other than a quick stop at any
      time, the wait succeeds if it may last seven ticks. */
  lemma ObeyingDrivesEndTheWait(xs: seq<Station>, downs: seq<bool>, t0: nat, maxTicks: nat)
    requires TestsOf(xs, downs) && |downs| > maxTicks >= 7
    ensures var (v, again) := WaitFrom(NotAsked, t0, downs, maxTicks); !again && v.Done? && v.inTime
  {
    forall i | 0 <= i < |xs| ensures Obeys(xs[i]) && 7 <= |xs[i].ticks| && Down(AxisAt(xs[i], 7)) {
      StationDown(xs[i], 7);
    }
    assert downs[7];
    WaitEnds(NotAsked, t0, downs, maxTicks, t0);
  }
}
