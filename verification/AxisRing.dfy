/** The setpoint ring of an axis over whole runs: setpoints are never replayed. */
module AxisRing {
  import opened Setpoints
  import opened Axis
  import opened AxisRuns
  import Exchange

  /** The setpoints pushed in a run. */
  function PushedIn(es: seq<Event>): seq<Sp> {
    if es == [] then []
    else if es[|es| - 1].Pushed? then PushedIn(es[..|es| - 1]) + [es[|es| - 1].sp]
    else PushedIn(es[..|es| - 1])
  }

  /** The setpoint a tick took: held as the last setpoint, or, if it was refused, the
      target sent last plus the step seen. */
  function TakenBy(m: Motion, n: Motion): int {
    if n.stepRefused == m.stepRefused then n.lastSp else m.lastSent + n.stepSeen
  }

  /** The setpoints the ticks of a run took, in order. */
  function TakenIn(c: Cfg, es: seq<Event>): seq<int> {
    if es == [] then []
    else
      var m, n := RunOf(c, es[..|es| - 1]).axis.motion, RunOf(c, es).axis.motion;
      TakenIn(c, es[..|es| - 1]) + (if n.used == m.used then [] else [TakenBy(m, n)])
  }

  /** A tick drains the ring like the hook of the exchange; it can use a setpoint
      while the axis runs in a cyclic mode, and does nothing without a bus. */
  function RingEvents(c: Cfg, es: seq<Event>): seq<Exchange.Event> {
    if es == [] then []
    else
      var pre := RingEvents(c, es[..|es| - 1]);
      match es[|es| - 1]
      case Pushed(sp) => pre + [Exchange.Push(sp)]
      case Frame(i, tick) =>
        var a := RunOf(c, es).axis;
        if i.busLost then pre else pre + [Exchange.Hook(tick, a.running && CyclicMode(a.mode.req))]
      case _ => pre
  }

  lemma MovingTakes(c: Cfg, f: Front, m: Motion, q: seq<Sp>, tick: nat, active: bool, r: Drained)
    requires f.walk.enabling ==> f.drive.ds == So
    requires active == (f.walk.power.target == Enabled && f.drive.ds == Oe && f.mode.ok && CyclicMode(f.mode.req))
    requires r == Drain(q, tick + 1, active, SKIP_MAX)
    ensures var v := Moving(c, f.walk, f.drive, f.mode, m, q, tick);
            && v.rest == r.rest && v.motion.used == m.used + (if r.used.Some? then 1 else 0)
            && v.motion.late == m.late + r.late && v.motion.dropped == m.dropped + r.due
            && (r.used.Some? ==> TakenBy(m, v.motion) == r.used.value)
  {
    DrainTakesPrefix(q, tick + 1, active, SKIP_MAX);
  }

  lemma TickDrains(c: Cfg, a: Axis, q: seq<Sp>, i: Input, tick: nat, t: Ticked, r: Drained)
    requires PointsShape(a.pp) && t == Tick(c, a, q, i, tick)
    requires r == Drain(q, tick + 1, t.axis.running && CyclicMode(t.axis.mode.req), SKIP_MAX)
    ensures i.busLost ==> t.rest == q && t.axis.motion == a.motion
    ensures !i.busLost ==>
              && t.rest == r.rest && t.axis.motion.used == a.motion.used + (if r.used.Some? then 1 else 0)
              && t.axis.motion.late == a.motion.late + r.late && t.axis.motion.dropped == a.motion.dropped + r.due
              && (r.used.Some? ==> TakenBy(a.motion, t.axis.motion) == r.used.value)
  {
    if !i.busLost {
      var f := Supervised(c, a, i, tick);
      MovingTakes(c, f, a.motion, q, tick, t.axis.running && CyclicMode(t.axis.mode.req), r);
      TickParts(c, a, q, i, tick, f, Moving(c, f.walk, f.drive, f.mode, a.motion, q, tick));
    }
  }

  ghost predicate SameRing(x: Exchange.Slot, w: World, pushed: seq<Sp>, taken: seq<int>) {
    && x.queue == w.queue && x.pushed == pushed
    && |x.log| == |taken| && (forall i | 0 <= i < |taken| :: x.log[i].v == taken[i])
    && x.used == w.axis.motion.used && x.late == w.axis.motion.late && x.dropped == w.axis.motion.dropped
  }

  lemma HookStep(s: Exchange.Slot, tick: nat, usable: bool, r: Drained)
    requires r == Drain(s.queue, tick + 1, usable, SKIP_MAX)
    ensures var x := Exchange.Step(s, Exchange.Hook(tick, usable));
            && x.queue == r.rest && x.pushed == s.pushed && x.used == s.used + (if r.used.Some? then 1 else 0)
            && x.late == s.late + r.late && x.dropped == s.dropped + r.due
            && x.log == s.log + (if r.used.Some? then [Exchange.Use(s.popped + Skips(r), tick, r.used.value)] else [])
  {
  }

  lemma RunSnoc(es: seq<Exchange.Event>, e: Exchange.Event)
    ensures Exchange.RunOf(es + [e]) == Exchange.Step(Exchange.RunOf(es), e)
  {
    assert (es + [e])[..|es|] == es;
  }

  lemma FrameKeepsRing(c: Cfg, w: World, i: Input, tick: nat, t: Ticked, pre: seq<Exchange.Event>, pushed: seq<Sp>,
                       taken: seq<int>, now: seq<int>)
    requires PointsShape(w.axis.pp) && t == Tick(c, w.axis, w.queue, i, tick)
    requires SameRing(Exchange.RunOf(pre), w, pushed, taken) && !i.busLost
    requires var m, n := w.axis.motion, t.axis.motion;
             now == taken + (if n.used == m.used then [] else [TakenBy(m, n)])
    ensures var x := Exchange.RunOf(pre + [Exchange.Hook(tick, t.axis.running && CyclicMode(t.axis.mode.req))]);
            SameRing(x, World(t.axis, t.rest, w.shutdown, t.out), pushed, now)
  {
    var usable := t.axis.running && CyclicMode(t.axis.mode.req);
    var d := Drain(w.queue, tick + 1, usable, SKIP_MAX);
    TickDrains(c, w.axis, w.queue, i, tick, t, d);
    RunSnoc(pre, Exchange.Hook(tick, usable));
    HookStep(Exchange.RunOf(pre), tick, usable, d);
  }

  lemma OtherKeepsRing(c: Cfg, w: World, e: Event, x: Exchange.Slot, pushed: seq<Sp>, taken: seq<int>)
    requires PointsShape(w.axis.pp) && SameRing(x, w, pushed, taken) && !e.Pushed? && (e.Frame? ==> e.input.busLost)
    ensures SameRing(x, Step(c, w, e), pushed, taken) && Step(c, w, e).axis.motion.used == w.axis.motion.used
  {
  }

  lemma {:induction false} RingIsSlot(c: Cfg, es: seq<Event>)
    ensures SameRing(Exchange.RunOf(RingEvents(c, es)), RunOf(c, es), PushedIn(es), TakenIn(c, es))
  {
    if es == [] {
    } else {
      var pre, e := es[..|es| - 1], es[|es| - 1];
      RingIsSlot(c, pre);
      var w := RunOf(c, pre);
      if e.Pushed? {
        RunSnoc(RingEvents(c, pre), Exchange.Push(e.sp));
      } else if e.Frame? && !e.input.busLost {
        FrameKeepsRing(c, w, e.input, e.tick, Tick(c, w.axis, w.queue, e.input, e.tick), RingEvents(c, pre),
            PushedIn(pre), TakenIn(c, pre), TakenIn(c, es));
      } else {
        OtherKeepsRing(c, w, e, Exchange.RunOf(RingEvents(c, pre)), PushedIn(pre), TakenIn(c, pre));
      }
    }
  }

  /** In every run of the axis, through disables and bus losses: a setpoint is taken,
      with its own value, only by the tick before its key and at most once, and every
      setpoint pushed is counted as used, late or dropped, or still waits. */
  lemma AxisNeverReplays(c: Cfg, es: seq<Event>)
    ensures var a, log, taken := RunOf(c, es).axis.motion, Exchange.RunOf(RingEvents(c, es)).log, TakenIn(c, es);
            && |PushedIn(es)| == a.used + a.late + a.dropped + |RunOf(c, es).queue| && a.used == |log| == |taken|
            && (forall i | 0 <= i < |log| ::
                  log[i].index < |PushedIn(es)| && PushedIn(es)[log[i].index] == Sp(log[i].hook + 1, taken[i]))
            && (forall i, j | 0 <= i < j < |log| :: log[i].index != log[j].index)
  {
    RingIsSlot(c, es);
    Exchange.NeverReplayed(RingEvents(c, es));
  }
}
