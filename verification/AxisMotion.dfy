/** Bounded motion in CSP over whole runs (latches S2, S3, S4). */
module AxisMotion {
  import opened Wrappers
  import opened Setpoints
  import opened Axis
  import opened AxisRuns

  function Distance(x: int, y: int): nat {
    if x >= y then x - y else y - x
  }

  /** In CSP an armed axis holds what it sent. */
  ghost predicate Holding(c: Cfg, mode: Mode, m: Motion) {
    mode.req == CSP && c.tpos && m.armed ==> m.lastSp == m.lastSent
  }

  /** Where a target position may come from. */
  ghost predicate Sourced(c: Cfg, t: int, apos: int, sent: int, q: seq<Sp>, tick: nat) {
    || t == apos
    || t == sent
    || (Sp(tick + 1, t) in q && (c.maxStepPos > 0 ==> Distance(t, sent) <= c.maxStepPos))
  }

  lemma MovingPosition(c: Cfg, w: Walk, d: Drive, mode: Mode, m: Motion, q: seq<Sp>, tick: nat)
    requires mode.req == CSP && c.tpos && (m.armed ==> m.lastSp == m.lastSent)
    ensures var v := Moving(c, w, d, mode, m, q, tick);
            && v.tpos == Some(v.motion.lastSent) && v.motion.lastSp == v.motion.lastSent
            && Sourced(c, v.motion.lastSent, d.apos, m.lastSent, q, tick)
            && (!(w.power.target == Enabled && d.ds == Oe && mode.ok) ==> v.motion.lastSent == d.apos)
  {
    var active := w.power.target == Enabled && d.ds == Oe && mode.ok && CyclicMode(mode.req);
    DrainTakesPrefix(q, tick + 1, active, SKIP_MAX);
    var r := Drain(q, tick + 1, active, SKIP_MAX);
    if r.used.Some? {
      assert q[Skips(r)] == Sp(tick + 1, r.used.value);
    }
  }

  lemma TickHolds(c: Cfg, a: Axis, q: seq<Sp>, i: Input, tick: nat)
    requires PointsShape(a.pp) && Holding(c, a.mode, a.motion)
    ensures var t := Tick(c, a, q, i, tick);
            && t.axis.mode.req == a.mode.req && Holding(c, t.axis.mode, t.axis.motion)
            && (i.busLost ==> t.axis.motion == a.motion)
            && (!i.busLost && a.mode.req == CSP && c.tpos ==>
                  && t.out.tpos == Some(t.axis.motion.lastSent)
                  && Sourced(c, t.axis.motion.lastSent, t.axis.drive.apos, a.motion.lastSent, q, tick)
                  && (t.axis.drive.ds != Oe ==> t.axis.motion.lastSent == t.axis.drive.apos))
  {
    if !i.busLost && a.mode.req == CSP && c.tpos {
      var d := Sensed(c, a.drive, a.mode.req, i);
      var mode := a.mode.(ok := a.mode.req != 0 && d.modeDisp == a.mode.req);
      var w := Walked(Latched(a.power, d.ds, i), d.ds, mode.ok, i.busLost, tick, c.stepTimeout);
      MovingPosition(c, w, d, mode, a.motion, q, tick);
    }
  }

  /** The target position the hook wrote last, since the mode asked for changed. */
  function LastTarget(c: Cfg, es: seq<Event>): Option<int> {
    if es == [] then None
    else
      var pre := es[..|es| - 1];
      if ModeAsked(c, es) != ModeAsked(c, pre) then None
      else
        match CyclicIn(ModeAsked(c, es), RunOf(c, es).out)
        case Position(at) => Some(at)
        case _ => LastTarget(c, pre)
  }

  lemma CommandKeepsMotion(c: Cfg, shutdown: bool, ext: Err, a: Axis, op: Op, sequence: nat, tick: nat)
    requires PointsShape(a.pp) && Holding(c, a.mode, a.motion)
    ensures var r := Applied(c, shutdown, ext, a, op, sequence, tick);
            && Holding(c, r.mode, r.motion) && r.motion.lastSent == a.motion.lastSent
            && (if r.mode.req != a.mode.req then !r.motion.armed else r.motion.armed == a.motion.armed)
  {
  }

  /** What the motion part says of the last target. */
  ghost predicate Tells(c: Cfg, a: Axis, last: Option<int>) {
    && Holding(c, a.mode, a.motion)
    && (last.Some? ==> a.mode.req == CSP && a.motion.lastSent == last.value)
    && (last.None? && a.mode.req == CSP ==> !a.motion.armed)
  }

  lemma FrameTells(c: Cfg, w: World, i: Input, tick: nat, r: World, last: Option<int>, next: Option<int>)
    requires c.tpos && PointsShape(w.axis.pp) && Tells(c, w.axis, last) && r == Step(c, w, Frame(i, tick))
    requires next == match CyclicIn(r.axis.mode.req, r.out) case Position(at) => Some(at) case _ => last
    ensures r.axis.mode.req == w.axis.mode.req && Tells(c, r.axis, next)
  {
    TickHolds(c, w.axis, w.queue, i, tick);
  }

  lemma {:induction false} LastTargetIsSent(c: Cfg, es: seq<Event>)
    requires c.tpos
    ensures RunOf(c, es).axis.mode.req == ModeAsked(c, es) && Tells(c, RunOf(c, es).axis, LastTarget(c, es))
  {
    LastCyclicIsSent(c, es);
    if es == [] {
    } else {
      var pre, e := es[..|es| - 1], es[|es| - 1];
      LastTargetIsSent(c, pre);
      var w := RunOf(c, pre);
      match e
      case Cmd(op, n, tick, ext) => CommandKeepsMotion(c, w.shutdown, ext, w.axis, op, n, tick);
      case Frame(i, tick) => FrameTells(c, w, i, tick, RunOf(c, es), LastTarget(c, pre), LastTarget(c, es));
      case _ =>
    }
  }

  /** Step bound: in every run, a target position the hook writes in CSP is the
      actual position of that tick, or the cyclic target written last, or the setpoint
      keyed to the next frame and at most the limit away from that target; with the
      drive not in Operation enabled it is the actual position.  From the second
      target after a mode change on, the target written last is a position. */
  lemma StepsAreBounded(c: Cfg, es: seq<Event>, i: Input, tick: nat)
    requires c.tpos && ModeAsked(c, es) == CSP && !i.busLost
    ensures var w, r := RunOf(c, es), RunOf(c, es + [Frame(i, tick)]);
            && r.out.Output? && r.out.tpos.Some?
            && (r.axis.drive.ds != Oe ==> r.out.tpos.value == r.axis.drive.apos)
            && Sourced(c, r.out.tpos.value, r.axis.drive.apos, SentValue(LastCyclic(c, es)), w.queue, tick)
            && (LastTarget(c, es).Some? && c.maxStepPos > 0 ==>
                  || Distance(r.out.tpos.value, LastTarget(c, es).value) <= c.maxStepPos
                  || r.out.tpos.value == r.axis.drive.apos)
  {
    assert (es + [Frame(i, tick)])[..|es|] == es;
    LastTargetIsSent(c, es);
    LastCyclicIsSent(c, es);
    TickHolds(c, RunOf(c, es).axis, RunOf(c, es).queue, i, tick);
  }

  // ---- the first target after a mode change --------------------------------

  /** The axis runs in this tick: enabled, Operation enabled seen, mode confirmed. */
  predicate Runs(f: Front) {
    f.walk.power.target == Enabled && f.drive.ds == Oe && f.mode.ok
  }

  /** The first target: the setpoint for the next frame if the axis runs and it is
      near the cyclic target written last, whatever that was; else the actual
      position. */
  function FirstTarget(c: Cfg, runs: bool, last: Cyclic, next: Option<int>, apos: int): int {
    if runs && next.Some? && !StepTooFar(c.maxStepPos, next.value, SentValue(last)) then next.value else apos
  }

  lemma FirstMove(c: Cfg, f: Front, m: Motion, q: seq<Sp>, tick: nat, last: Cyclic, next: Option<int>)
    requires f.mode.req == CSP && c.tpos && !m.armed && m.lastSent == SentValue(last)
    requires f.walk.enabling ==> f.drive.ds == So
    requires next == Drain(q, tick + 1, true, SKIP_MAX).used
    ensures var v := Moving(c, f.walk, f.drive, f.mode, m, q, tick);
            v.tpos == Some(FirstTarget(c, Runs(f), last, next, f.drive.apos))
  {
    DrainTakesPrefix(q, tick + 1, Runs(f), SKIP_MAX);
  }

  /** In every run, the first target position after a mode change (or ever). */
  lemma FirstTargetIs(c: Cfg, es: seq<Event>, i: Input, tick: nat, f: Front, next: Option<int>)
    requires c.tpos && ModeAsked(c, es) == CSP && LastTarget(c, es).None? && !i.busLost
    requires f == Supervised(c, RunOf(c, es).axis, i, tick)
    requires next == Drain(RunOf(c, es).queue, tick + 1, true, SKIP_MAX).used
    ensures var r := RunOf(c, es + [Frame(i, tick)]);
            r.out.Output? && r.out.tpos == Some(FirstTarget(c, Runs(f), LastCyclic(c, es), next, r.axis.drive.apos))
  {
    assert (es + [Frame(i, tick)])[..|es|] == es;
    var w := RunOf(c, es);
    LastTargetIsSent(c, es);
    LastCyclicIsSent(c, es);
    FirstMove(c, f, w.axis.motion, w.queue, tick, LastCyclic(c, es), next);
    TickParts(c, w.axis, w.queue, i, tick, f, Moving(c, f.walk, f.drive, f.mode, w.axis.motion, w.queue, tick));
  }

  /** The actual position, or at most the limit away from a position written last. */
  ghost predicate NearPosition(c: Cfg, last: Cyclic, apos: int, t: int) {
    t == apos || (last.Position? && Distance(t, last.at) <= c.maxStepPos)
  }

  /** With a limit set, the first target is bounded for every setpoint if and only if
      the axis does not run in that tick yet (so with 0x6061 mapped, if the drive does
      not show the new mode yet), or the cyclic target written last was a position. */
  lemma FirstTargetBoundedIff(c: Cfg, runs: bool, last: Cyclic, apos: int)
    requires c.maxStepPos > 0
    ensures (forall next :: NearPosition(c, last, apos, FirstTarget(c, runs, last, next, apos)))
        <==> !runs || last.Position?
  {
    if runs && !last.Position? {
      var s := SentValue(last);
      var next := Some(if s == apos then s + 1 else s);
      assert !NearPosition(c, last, apos, FirstTarget(c, runs, last, next, apos));
    }
  }

  // ---- an input ------------------------------------------------------------

  /** A drive that takes positions and velocities, without 0x6061 mapped. */
  const WITHOUT_DISPLAY: Cfg := Cfg({CSP, CSV}, true, true, true, false, true, 100, 100, 10, 10)

  /** A good frame of a drive in Operation enabled. */
  function OeFrame(apos: int): Input {
    Input(true, Status(0x27, Oe, false, false, false), apos, 0, 0, 0, false, NoError)
  }

  /** Enabled, with that mode asked for, nothing armed, that value sent last and that
      setpoint waiting. */
  ghost predicate Ready(w: World, req: int, sent: int, sp: Sp) {
    && w.axis.power.target == Enabled && w.axis.power.pulse == 0 && w.axis.mode.req == req
    && !w.axis.motion.armed && w.axis.motion.lastSent == sent && w.queue == [sp]
  }

  lemma ReadyRuns(c: Cfg, w: World, apos: int, tick: nat, f: Front)
    requires c == WITHOUT_DISPLAY && CyclicMode(w.axis.mode.req) && w.axis.power.target == Enabled
    requires w.axis.power.pulse == 0 && f == Supervised(c, w.axis, OeFrame(apos), tick)
    ensures Runs(f) && f.drive.apos == apos && f.mode.req == w.axis.mode.req && f.walk.power.pulse == 0
    ensures !f.walk.enabling
  {
  }

  lemma SpeedTick(c: Cfg, w: World, apos: int, r: World)
    requires c == WITHOUT_DISPLAY && PointsShape(w.axis.pp) && Ready(w, CSV, 0, Sp(1, 50))
    requires r == Step(c, w, Frame(OeFrame(apos), 0))
    ensures r.axis.power.target == Enabled && r.axis.power.pulse == 0 && r.axis.mode.req == CSV
    ensures r.axis.motion.lastSent == 50 && r.queue == []
  {
    var f := Supervised(c, w.axis, OeFrame(apos), 0);
    var v := Moving(c, f.walk, f.drive, f.mode, w.axis.motion, w.queue, 0);
    ReadyRuns(c, w, apos, 0, f);
    assert Drain(w.queue, 1, true, SKIP_MAX) == Drained([], 0, 0, Some(50));
    TickParts(c, w.axis, w.queue, OeFrame(apos), 0, f, v);
  }

  lemma PositionTick(c: Cfg, w: World, apos: int, r: World)
    requires c == WITHOUT_DISPLAY && PointsShape(w.axis.pp) && Ready(w, CSP, 50, Sp(2, 60))
    requires r == Step(c, w, Frame(OeFrame(apos), 1))
    ensures r.out.Output? && r.out.tpos == Some(60) && r.axis.drive.apos == apos
  {
    var f := Supervised(c, w.axis, OeFrame(apos), 1);
    ReadyRuns(c, w, apos, 1, f);
    assert Drain(w.queue, 2, true, SKIP_MAX).used == Some(60);
    FirstMove(c, f, w.axis.motion, w.queue, 1, Speed(50), Some(60));
    TickParts(c, w.axis, w.queue, OeFrame(apos), 1, f,
              Moving(c, f.walk, f.drive, f.mode, w.axis.motion, w.queue, 1));
  }

  lemma Started(c: Cfg, w1: World, w2: World, w3: World)
    requires c == WITHOUT_DISPLAY && w1 == Step(c, Begin(c), Cmd(SetMode(CSV), 1, 0, NoError))
    requires w2 == Step(c, w1, Cmd(Enable, 2, 0, NoError)) && w3 == Step(c, w2, Pushed(Sp(1, 50)))
    ensures PointsShape(w3.axis.pp) && Ready(w3, CSV, 0, Sp(1, 50))
  {
  }

  lemma Switched(c: Cfg, w: World, u: World, r: World)
    requires c == WITHOUT_DISPLAY && PointsShape(w.axis.pp) && u == Step(c, w, Cmd(SetMode(CSP), 3, 0, NoError))
    requires w.axis.power.target == Enabled && w.axis.power.pulse == 0 && w.axis.mode.req == CSV
    requires w.axis.motion.lastSent == 50 && w.queue == [] && r == Step(c, u, Pushed(Sp(2, 60)))
    ensures Ready(r, CSP, 50, Sp(2, 60))
  {
  }

  /** The state after a run, one event longer. */
  lemma OneMoreEvent(c: Cfg, pre: seq<Event>, w: World, e: Event, es: seq<Event>)
    requires w == RunOf(c, pre) && es == pre + [e]
    ensures RunOf(c, es) == Step(c, w, e)
  {
    assert es[..|es| - 1] == pre;
  }

  /** Into CSV, enabled, a first velocity of 50. */
  lemma SpeedRun(c: Cfg, es: seq<Event>, w: World)
    requires c == WITHOUT_DISPLAY && w == RunOf(c, es)
    requires es == [Cmd(SetMode(CSV), 1, 0, NoError), Cmd(Enable, 2, 0, NoError), Pushed(Sp(1, 50))]
    ensures Ready(w, CSV, 0, Sp(1, 50))
  {
    OneMoreEvent(c, [], Begin(c), es[0], [es[0]]);
    OneMoreEvent(c, [es[0]], RunOf(c, [es[0]]), es[1], [es[0], es[1]]);
    OneMoreEvent(c, [es[0], es[1]], RunOf(c, [es[0], es[1]]), es[2], es);
    Started(c, RunOf(c, [es[0]]), RunOf(c, [es[0], es[1]]), w);
  }

  /** Running at velocity 50, then into CSP: the setpoint 60 goes out as a position,
      wherever the axis is, because 60 is near 50. */
  lemma SpeedTakenForPosition(c: Cfg, apos: int, start: seq<Event>, speed: seq<Event>, mode: seq<Event>,
                              next: seq<Event>, es: seq<Event>)
    requires c == WITHOUT_DISPLAY
    requires start == [Cmd(SetMode(CSV), 1, 0, NoError), Cmd(Enable, 2, 0, NoError), Pushed(Sp(1, 50))]
    requires speed == start + [Frame(OeFrame(apos), 0)] && mode == speed + [Cmd(SetMode(CSP), 3, 0, NoError)]
    requires next == mode + [Pushed(Sp(2, 60))] && es == next + [Frame(OeFrame(apos), 1)]
    ensures RunOf(c, es).out.Output? && RunOf(c, es).out.tpos == Some(60) && RunOf(c, es).axis.drive.apos == apos
  {
    var w3, w4, w5, w6 := RunOf(c, start), RunOf(c, speed), RunOf(c, mode), RunOf(c, next);
    SpeedRun(c, start, w3);
    OneMoreEvent(c, start, w3, Frame(OeFrame(apos), 0), speed);
    SpeedTick(c, w3, apos, w4);
    OneMoreEvent(c, speed, w4, Cmd(SetMode(CSP), 3, 0, NoError), mode);
    OneMoreEvent(c, mode, w5, Pushed(Sp(2, 60)), next);
    Switched(c, w4, w5, w6);
    OneMoreEvent(c, next, w6, Frame(OeFrame(apos), 1), es);
    PositionTick(c, w6, apos, RunOf(c, es));
  }
}
