/** Safety of the axis over whole runs: it is never enabled by itself.  The
    machine is followed by the observer of AxisWatch, which knows the events
    only. */
module AxisSafety {
  import opened Setpoints
  import opened Axis
  import opened AxisRuns
  import opened AxisWatch

  // ---- the machine does what the observer expects --------------------------

  ghost predicate PowerAgrees(h: Watch, p: Power) {
    && (p.target == Enabled <==> h.leave.Granted?)
    && (h.leave.Granted? ==> p.reachedOe == h.leave.seenOe)
    && (h.leave == Granted(true) ==> h.status.ds == Oe)
    && (h.leave == Granted(false) ==> p.dsWait == h.status.ds && p.stepSince == h.steady)
    && p.pulse == h.pulse <= 2
  }

  ghost predicate DriveAgrees(h: Watch, a: Axis) {
    && a.drive.sw == h.status && a.drive.ds == h.status.ds && a.drive.modeDisp == h.shown
    && a.mode.req == h.req && a.running == h.ran
  }

  ghost predicate DeskAgrees(d: Desk, pp: Points)
    requires PointsShape(pp)
  {
    && PointQueue(pp) == d.waiting
    && match d.offer
       case Nothing => pp.phase == 0
       case Offered(since) => pp.phase == 1 && pp.since == since
       case Answered => pp.phase == 2
  }

  ghost predicate Agrees(h: Watch, a: Axis)
    requires PointsShape(a.pp)
  {
    PowerAgrees(h, a.power) && DriveAgrees(h, a) && DeskAgrees(h.desk, a.pp)
  }

  /** The walk ends the leave exactly if the drive is stuck. */
  lemma WalkAgrees(c: Cfg, h: Watch, p: Power, modeOk: bool, i: Input, tick: nat)
    requires p.pulse <= 2 && (p.target == Enabled ==> !i.busLost)
    requires p.target == Enabled && !p.reachedOe ==> p.dsWait == h.status.ds && p.stepSince == h.steady
    requires p.target == Enabled && p.reachedOe ==> StatusAfter(h, i).ds == Oe
    ensures var ds := StatusAfter(h, i).ds; var q := Walked(p, ds, modeOk, i.busLost, tick, c.stepTimeout).power;
            && (q.target == Enabled <==> p.target == Enabled && !Stuck(c, h, i, tick))
            && (q.target == Enabled ==>
                  && q.reachedOe == p.reachedOe
                  && (!q.reachedOe && ds != Oe ==> q.dsWait == ds && q.stepSince == SteadyAfter(h, i, tick)))
            && q.pulse == (if p.pulse == 2 then 1 else 0)
  {
  }

  /** Stages 1 to 5 keep the leave exactly if the observer does. */
  lemma FrontAgrees(c: Cfg, h: Watch, a: Axis, i: Input, tick: nat, f: Front)
    requires PowerAgrees(h, a.power) && DriveAgrees(h, a) && f == Supervised(c, a, i, tick)
    ensures && f.drive.sw == StatusAfter(h, i) && f.drive.ds == StatusAfter(h, i).ds
            && f.drive.modeDisp == ShownAfter(c, h, i) && f.mode.req == h.req && (f.mode.ok <==> Confirmed(c, h, i))
    ensures var p := f.walk.power;
            && (p.target == Enabled <==> Kept(c, h, i, tick))
            && (Kept(c, h, i, tick) ==>
                  && p.reachedOe == (h.leave.seenOe || (i.valid && i.sw.ds == Oe))
                  && (p.reachedOe ==> StatusAfter(h, i).ds == Oe)
                  && (!p.reachedOe ==> p.dsWait == StatusAfter(h, i).ds && p.stepSince == SteadyAfter(h, i, tick)))
            && p.pulse == (if h.pulse == 2 then 1 else 0)
  {
    WalkAgrees(c, h, Latched(a.power, f.drive.ds, i), f.mode.ok, i, tick);
  }

  /** The setpoint stage refuses exactly the steps the observer refuses. */
  lemma MovingAgrees(c: Cfg, h: Watch, w: Walk, d: Drive, mode: Mode, m: Motion, q: seq<Sp>, i: Input, tick: nat)
    requires mode.req == h.req && (w.power.target == Enabled <==> Kept(c, h, i, tick))
    requires d.ds == StatusAfter(h, i).ds && (mode.ok <==> Confirmed(c, h, i))
    ensures var v, refused := Moving(c, w, d, mode, m, q, tick), StepRefused(c, h, q, m.lastSent, i, tick);
            && (v.running <==> Runs(c, h, i, tick) && !refused)
            && v.power == (if refused then w.power.(err := StepErr, target := QuickStop) else w.power)
            && v.base == (if refused then 0x02 else w.base)
  {
    if !Runs(c, h, i, tick) || !CyclicMode(mode.req) {
      DrainTakesPrefix(q, tick + 1, false, SKIP_MAX);
    }
  }

  lemma StartTakesFirst(pp: Points, tick: nat, r: Points)
    requires PointsShape(pp) && pp.n > 0 && r == Started(pp, tick)
    ensures PointsShape(r) && PointQueue(r) == PointQueue(pp)[1..] && PointQueue(pp)[0] == pp.ring[pp.head]
  {
    assert |PointQueue(r)| == |PointQueue(pp)[1..]|;
    forall k | 0 <= k < r.n ensures PointQueue(r)[k] == PointQueue(pp)[1..][k] {
      assert ((pp.head + 1) % 16 + k) % 16 == (pp.head + (k + 1)) % 16;
    }
  }

  lemma DeskFollows(c: Cfg, desk: Desk, pp: Points, req: int, running: bool, d: Drive, tick: nat)
    requires PointsShape(pp) && DeskAgrees(desk, pp)
    ensures DeskAgrees(DeskAfter(c, desk, running, req, d.sw, tick), PointsAfter(c, pp, req, running, d, tick))
  {
    if running && req == PP && desk.offer.Nothing? {
      assert |PointQueue(pp)| == pp.n;
      if pp.n > 0 {
        StartTakesFirst(pp, tick, Started(pp, tick));
      }
    }
  }

  lemma ProfileTarget(c: Cfg, p: Power, pp: Points, hm: Homing, req: int, running: bool, d: Drive, tick: nat)
    ensures var q := ProfileErrors(c, p, pp, hm, req, running, d, tick);
            && q == p.(err := q.err, target := q.target)
            && q.target == (if running && req == PP
                && AckLate(pp, d.sw, tick, c.stepTimeout) then Disabled else p.target)
  {
  }

  /** Machine and observer stay together in a tick. */
  lemma TickAgrees(c: Cfg, h: Watch, a: Axis, q: seq<Sp>, i: Input, tick: nat, f: Front, g: Watch)
    requires PointsShape(a.pp) && Agrees(h, a) && f == Supervised(c, a, i, tick)
    requires g == AfterFrame(c, h, q, a.motion.lastSent, i, tick)
    ensures var t := Tick(c, a, q, i, tick).axis; PointsShape(t.pp) && Agrees(g, t)
  {
    FrontAgrees(c, h, a, i, tick, f);
    if !i.busLost {
      MovingAgrees(c, h, f.walk, f.drive, f.mode, a.motion, q, i, tick);
      var v := Moving(c, f.walk, f.drive, f.mode, a.motion, q, tick);
      TickParts(c, a, q, i, tick, f, v);
      DeskFollows(c, h.desk, a.pp, h.req, v.running, f.drive, tick);
      ProfileTarget(c, v.power, a.pp, a.hm, h.req, v.running, f.drive, tick);
    }
  }

  lemma PointFollows(desk: Desk, pp: Points, usable: bool, x: Point)
    requires PointsShape(pp) && DeskAgrees(desk, pp)
    ensures DeskAgrees(if usable && |desk.waiting| < 16 then desk.(waiting := desk.waiting + [x]) else desk,
                       PointCmd(pp, usable, x))
  {
  }

  lemma CommandAgrees(c: Cfg, h: Watch, a: Axis, op: Op, sequence: nat, tick: nat, ext: Err)
    requires PointsShape(a.pp) && Agrees(h, a) && (h.shutdown ==> h.leave.Withheld?)
    ensures Agrees(AfterCommand(c, h, op, tick, ext), Applied(c, h.shutdown, ext, a, op, sequence, tick))
  {
    if op.PpPoint? {
      PointFollows(h.desk, a.pp, a.running && a.mode.req == PP, op.point);
    }
  }

  /** One step of machine and observer. */
  lemma StepAgrees(c: Cfg, w: World, h: Watch, e: Event, r: World, g: Watch)
    requires PointsShape(w.axis.pp) && Agrees(h, w.axis)
    requires w.shutdown == h.shutdown && (h.shutdown ==> h.leave.Withheld?)
    requires r == Step(c, w, e) && g == Watched(c, h, w.queue, w.axis.motion.lastSent, e)
    ensures Agrees(g, r.axis) && r.shutdown == g.shutdown && (g.shutdown ==> g.leave.Withheld?)
  {
    match e
    case Cmd(op, n, tick, ext) => CommandAgrees(c, h, w.axis, op, n, tick, ext);
    case Frame(i, tick) => TickAgrees(c, h, w.axis, w.queue, i, tick, Supervised(c, w.axis, i, tick), g);
    case _ =>
  }

  lemma {:induction false} RunAgrees(c: Cfg, es: seq<Event>)
    ensures var h, w := WatchOf(c, es), RunOf(c, es);
            Agrees(h, w.axis) && w.shutdown == h.shutdown && (h.shutdown ==> h.leave.Withheld?)
  {
    if es == [] {
    } else {
      var pre := es[..|es| - 1];
      RunAgrees(c, pre);
      LastCyclicIsSent(c, pre);
      StepAgrees(c, RunOf(c, pre), WatchOf(c, pre), es[|es| - 1], RunOf(c, es), WatchOf(c, es));
    }
  }

  // ---- never enabled by itself ---------------------------------------------

  /** Over every run of commands, frames, losses, errors and setpoints the axis
      wants the drive enabled exactly while it has leave; never after shutdown. */
  lemma TargetIsLeave(c: Cfg, es: seq<Event>)
    ensures RunOf(c, es).axis.power.target == Enabled <==> WatchOf(c, es).leave.Granted?
    ensures RunOf(c, es).shutdown ==> WatchOf(c, es).leave.Withheld?
  {
    RunAgrees(c, es);
  }

  /** The Enable-operation bit is the low nibble 0x0F. */
  predicate EnableBit(o: Output) {
    o.Output? && o.cw.base == 0x0F
  }

  lemma MovingTarget(c: Cfg, w: Walk, d: Drive, mode: Mode, m: Motion, q: seq<Sp>, tick: nat)
    ensures var v := Moving(c, w, d, mode, m, q, tick);
            || (v.power == w.power && v.base == w.base)
            || (v.power == w.power.(err := StepErr, target := QuickStop) && v.base == 0x02 && !v.running)
  {
  }

  /** In one tick with the bus up, Enable operation is written exactly if the axis
      still wants it afterwards and the drive is one step below or there. */
  lemma TickEnableBit(c: Cfg, a: Axis, q: seq<Sp>, i: Input, tick: nat, f: Front, v: Moved)
    requires PointsShape(a.pp) && !i.busLost && f == Supervised(c, a, i, tick)
    requires v == Moving(c, f.walk, f.drive, f.mode, a.motion, q, tick)
    ensures var t := Tick(c, a, q, i, tick);
            EnableBit(t.out) <==>
              && t.axis.power.target == Enabled && a.power.pulse != 1 && a.power.pulse != 2
              && (t.axis.drive.ds == Oe || (t.axis.drive.ds == So && t.axis.mode.ok))
  {
    MovingTarget(c, f.walk, f.drive, f.mode, a.motion, q, tick);
    TickParts(c, a, q, i, tick, f, v);
    ProfileTarget(c, v.power, a.pp, a.hm, f.mode.req, v.running, f.drive, tick);
  }

  /** Never enabled by itself: in every run, a frame carries Enable operation
      exactly when the bus is up, leave was granted and not withdrawn since, no
      reset pulse is in progress, and the drive was last seen in Operation enabled
      or in Switched on with the mode asked for. */
  lemma NeverEnabledByItself(c: Cfg, es: seq<Event>, i: Input, tick: nat, all: seq<Event>)
    requires all == es + [Frame(i, tick)]
    ensures var g := WatchOf(c, all);
            EnableBit(RunOf(c, all).out) <==>
              && !i.busLost && g.leave.Granted? && WatchOf(c, es).pulse == 0
              && (g.status.ds == Oe || (g.status.ds == So && g.req != 0 && g.shown == g.req))
  {
    assert all[..|all| - 1] == es;
    RunAgrees(c, es);
    RunAgrees(c, all);
    var w := RunOf(c, es);
    if !i.busLost {
      var f := Supervised(c, w.axis, i, tick);
      var v := Moving(c, f.walk, f.drive, f.mode, w.axis.motion, w.queue, tick);
      TickEnableBit(c, w.axis, w.queue, i, tick, f, v);
      TickParts(c, w.axis, w.queue, i, tick, f, v);
    }
  }

  /** In PP a frame carries bit 4 exactly while a point is on offer to a running
      axis and no reset pulse takes the controlword. */
  lemma BitFourIsTheOffer(c: Cfg, es: seq<Event>, i: Input, tick: nat, all: seq<Event>)
    requires all == es + [Frame(i, tick)] && WatchOf(c, es).req == PP
    ensures var r, g := RunOf(c, all), WatchOf(c, all);
            r.out.Output? && r.out.cw.b4 <==>
              !i.busLost && g.ran && g.leave.Granted? && WatchOf(c, es).pulse == 0 && g.desk.offer.Offered?
  {
    assert all[..|all| - 1] == es;
    RunAgrees(c, es);
    RunAgrees(c, all);
    NeverEnabledByItself(c, es, i, tick, all);
    var w := RunOf(c, es);
    if !i.busLost {
      var f := Supervised(c, w.axis, i, tick);
      var v := Moving(c, f.walk, f.drive, f.mode, w.axis.motion, w.queue, tick);
      MovingTarget(c, f.walk, f.drive, f.mode, w.axis.motion, w.queue, tick);
      TickParts(c, w.axis, w.queue, i, tick, f, v);
      ProfileTarget(c, v.power, w.axis.pp, w.axis.hm, f.mode.req, v.running, f.drive, tick);
    }
  }

  // ---- what leave means ----------------------------------------------------

  predicate AcceptedEnable(c: Cfg, h: Watch, e: Event) {
    e.Cmd? && e.op == Enable && Accepts(c, h, e.ext)
  }

  /** The causes that end a leave, given what the observer knew before. */
  predicate Withdraws(c: Cfg, h: Watch, q: seq<Sp>, sent: int, e: Event) {
    match e
    case Shutdown => true
    case Cmd(op, _, _, ext) => op in {Disable, Quick, FaultReset} || (op == Enable && !Accepts(c, h, ext))
    case Frame(i, tick) =>
      || i.busLost
      || i.ext != NoError
      || InFaultState(StatusAfter(h, i).ds)
      || Departed(h, i)
      || Stuck(c, h, i, tick)
      || StepRefused(c, h, q, sent, i, tick)
      || Unanswered(c, h, i, tick)
    case Pushed(_) => false
  }

  /** Of each event of a run: is it an accepted ENABLE, is it a cause? */
  datatype Mark = Mark(accepted: bool, cause: bool)

  function MarkOf(c: Cfg, h: Watch, q: seq<Sp>, sent: int, e: Event): Mark {
    Mark(AcceptedEnable(c, h, e), Withdraws(c, h, q, sent, e))
  }

  function Marks(c: Cfg, es: seq<Event>): (ms: seq<Mark>)
    ensures |ms| == |es|
  {
    if es == [] then []
    else
      var pre := es[..|es| - 1];
      Marks(c, pre) + [MarkOf(c, WatchOf(c, pre), RunOf(c, pre).queue, SentValue(LastCyclic(c, pre)), es[|es| - 1])]
  }

  /** Event k is an accepted ENABLE and no cause has come since. */
  predicate StandsSince(ms: seq<Mark>, k: nat) {
    k < |ms| && ms[k].accepted && forall j | k < j < |ms| :: !ms[j].cause
  }

  ghost predicate Stands(ms: seq<Mark>) {
    exists k: nat :: StandsSince(ms, k)
  }

  lemma LeaveStep(c: Cfg, h: Watch, q: seq<Sp>, sent: int, e: Event)
    ensures var m := MarkOf(c, h, q, sent, e);
            Watched(c, h, q, sent, e).leave.Granted? <==> m.accepted || (h.leave.Granted? && !m.cause)
  {
  }

  lemma StandsAfter(ms: seq<Mark>, m: Mark, all: seq<Mark>)
    requires all == ms + [m]
    ensures Stands(all) <==> m.accepted || (Stands(ms) && !m.cause)
  {
    assert all[|ms|] == m && forall j | 0 <= j < |ms| :: ms[j] == all[j];
    if m.accepted {
      assert StandsSince(all, |ms|);
    } else if Stands(all) {
      var k: nat :| StandsSince(all, k);
      assert StandsSince(ms, k);
    }
    if !m.cause && Stands(ms) {
      var k: nat :| StandsSince(ms, k);
      assert StandsSince(all, k);
    }
  }

  /** Leave stands exactly if some ENABLE was accepted and none of the causes has
      come since. */
  lemma {:induction false} LeaveNeedsEnable(c: Cfg, es: seq<Event>)
    ensures WatchOf(c, es).leave.Granted? <==> Stands(Marks(c, es))
  {
    if es == [] {
    } else {
      var n := |es| - 1;
      var pre := es[..n];
      LeaveNeedsEnable(c, pre);
      LeaveStep(c, WatchOf(c, pre), RunOf(c, pre).queue, SentValue(LastCyclic(c, pre)), es[n]);
      StandsAfter(Marks(c, pre), Marks(c, es)[n], Marks(c, es));
    }
  }
}
