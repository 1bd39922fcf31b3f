/** An axis together with a drive that obeys the power drive system state machine
    of CiA 402 (IEC 61800-7-201), with frames lost in either direction, bus
    outages, drive faults, commands and setpoints in any order. */
module AxisPlant {
  import opened Setpoints
  import opened Axis
  import opened AxisRuns
  import opened AxisSafety

  /** The drive's answer to a controlword command. */
  function Respond(d: Ds, cw: nat): Ds {
    var voltageOff := cw == 0x00 || cw == 0x80;
    match d
    case Sod => if cw == 0x06 then Rtso else Sod
    case Rtso => if voltageOff || cw == 0x02 then Sod else if cw == 0x07 || cw == 0x0F then So else Rtso
    case So =>
      if voltageOff || cw == 0x02 then Sod else if cw == 0x06 then Rtso else if cw == 0x0F then Oe else So
    case Oe =>
      if voltageOff then Sod else if cw == 0x06 then Rtso else if cw == 0x07 then So else if cw == 0x02 then Qsa else Oe
    case Qsa => if voltageOff then Sod else if cw == 0x0F then Oe else Qsa
    case Fault => if cw == 0x80 then Sod else Fault
    case Fra => Fault
    case NotReady => Sod
    case Unknown => Unknown
  }

  /** How far above Switch on disabled a state is; faults and unknown count as
      down. */
  function Rank(d: Ds): nat {
    match d
    case Oe => 3
    case So => 2
    case Rtso => 1
    case Qsa => 1
    case _ => 0
  }

  /** Axis, its drive, and the command that is in the process image. */
  datatype Plant = Plant(world: World, d: Ds, image: nat)

  /** A cycle: the frame reaches the drive or not, the reply is good or not, and
      the drive may fault by itself; a cycle of a bus outage, in which nothing is
      exchanged and the drive stays or falls to a state that counts as down; a
      command or a setpoint of the application. */
  datatype Happening =
    | Cycle(delivered: bool, valid: bool, faults: bool, input: Input, tick: nat)
    | Outage(to: Ds, input: Input, tick: nat)
    | Order(op: Op, sequence: nat, tick: nat, ext: Err)
    | Push(sp: Sp)

  function DriveAfter(p: Plant, h: Happening): Ds {
    match h
    case Cycle(delivered, _, faults, _, _) =>
      if faults then Fra else if delivered then Respond(p.d, p.image) else p.d
    case Outage(to, _, _) => if Rank(to) == 0 then to else p.d
    case _ => p.d
  }

  function EventOf(p: Plant, h: Happening): Event {
    match h
    case Cycle(_, valid, _, input, tick) =>
      Frame(input.(valid := valid, busLost := false, sw := input.sw.(ds := DriveAfter(p, h))), tick)
    case Outage(_, input, tick) => Frame(input.(valid := false, busLost := true), tick)
    case Order(op, n, tick, ext) => Cmd(op, n, tick, ext)
    case Push(sp) => Pushed(sp)
  }

  function Next(c: Cfg, p: Plant, h: Happening): (r: Plant)
    requires PointsShape(p.world.axis.pp)
    ensures PointsShape(r.world.axis.pp)
  {
    var w := Step(c, p.world, EventOf(p, h));
    Plant(w, DriveAfter(p, h), if w.out.Output? then w.out.cw.base else p.image)
  }

  function After(c: Cfg, p: Plant, hs: seq<Happening>): (r: Plant)
    requires PointsShape(p.world.axis.pp)
    ensures PointsShape(r.world.axis.pp)
    decreases |hs|
  {
    if hs == [] then p else After(c, Next(c, p, hs[0]), hs[1..])
  }

  /** The plant at start-up: any drive state, an empty process image. */
  function PowerOn(c: Cfg, d: Ds): (p: Plant)
    ensures PointsShape(p.world.axis.pp)
  {
    Plant(Begin(c), d, 0x00)
  }

  /** The shutdown request. */
  function ShutDown(c: Cfg, p: Plant): (r: Plant)
    requires PointsShape(p.world.axis.pp)
    ensures PointsShape(r.world.axis.pp)
  {
    p.(world := Step(c, p.world, Shutdown))
  }

  /** The state the master has seen last. */
  function Seen(p: Plant): Ds {
    p.world.axis.drive.ds
  }

  function TargetOf(p: Plant): Target {
    p.world.axis.power.target
  }

  // ---- one tick ------------------------------------------------------------

  lemma NotRunningMoves(c: Cfg, w: Walk, d: Drive, mode: Mode, m: Motion, q: seq<Sp>, tick: nat)
    ensures var v := Moving(c, w, d, mode, m, q, tick);
            && v.power.pulse == w.power.pulse
            && (w.power.target != Enabled || d.ds != Oe ==> v.power == w.power && v.base == w.base && !v.running)
  {
    if w.power.target != Enabled || d.ds != Oe {
      DrainTakesPrefix(q, tick + 1, false, SKIP_MAX);
    }
  }

  /** What a tick shows and does with the reset pulse. */
  lemma TickPulse(c: Cfg, a: Axis, q: seq<Sp>, i: Input, tick: nat, f: Front)
    requires PointsShape(a.pp) && a.power.pulse <= 2 && f == Supervised(c, a, i, tick)
    ensures var t := Tick(c, a, q, i, tick);
            && t.axis.power.pulse == (if a.power.pulse == 2 then 1 else 0)
            && t.axis.drive.ds == (if i.valid then i.sw.ds else a.drive.ds) && (t.out.Output? <==> !i.busLost)
  {
    if !i.busLost {
      var v := Moving(c, f.walk, f.drive, f.mode, a.motion, q, tick);
      NotRunningMoves(c, f.walk, f.drive, f.mode, a.motion, q, tick);
      TickParts(c, a, q, i, tick, f, v);
      ProfileTarget(c, v.power, a.pp, a.hm, f.mode.req, v.running, f.drive, tick);
    }
  }

  /** What goes out to a drive that is not to run. */
  lemma TickImage(c: Cfg, a: Axis, q: seq<Sp>, i: Input, tick: nat, f: Front)
    requires PointsShape(a.pp) && !i.busLost && f == Supervised(c, a, i, tick)
    requires f.walk.power.target != Enabled || f.drive.ds != Oe
    ensures var t := Tick(c, a, q, i, tick);
            t.out.Output? && t.out.cw.base == f.walk.base && t.axis.power.target == f.walk.power.target
  {
    var v := Moving(c, f.walk, f.drive, f.mode, a.motion, q, tick);
    NotRunningMoves(c, f.walk, f.drive, f.mode, a.motion, q, tick);
    TickParts(c, a, q, i, tick, f, v);
    ProfileTarget(c, v.power, a.pp, a.hm, f.mode.req, v.running, f.drive, tick);
  }

  // ---- faults and reset pulses ---------------------------------------------

  predicate VoltageOff(cw: nat) {
    cw == 0x00 || cw == 0x80
  }

  /** A fault seen or a reset pulse in progress means the drive is down and only
      Disable voltage or the pulse itself is in the image. */
  ghost predicate FaultsAreDown(p: Plant) {
    && PointsShape(p.world.axis.pp) && p.world.axis.power.pulse <= 2
    && (Seen(p) == Fault || p.world.axis.power.pulse != 0 ==>
        Rank(Seen(p)) == 0 && Rank(p.d) == 0 && VoltageOff(p.image))
  }

  /** A faulty drive, or one being reset, is answered with Disable voltage or the
      pulse itself. */
  lemma FaultImage(c: Cfg, a: Axis, q: seq<Sp>, i: Input, tick: nat, f: Front)
    requires PointsShape(a.pp) && a.power.pulse <= 2 && !i.busLost && f == Supervised(c, a, i, tick)
    requires Rank(f.drive.ds) == 0 && (a.power.pulse != 0 || f.drive.ds == Fault)
    ensures var t := Tick(c, a, q, i, tick); t.out.Output? && VoltageOff(t.out.cw.base)
  {
    TickImage(c, a, q, i, tick, f);
  }

  lemma FrameKeepsFaultsDown(c: Cfg, p: Plant, h: Happening, i: Input, tick: nat, f: Front)
    requires FaultsAreDown(p) && EventOf(p, h) == Frame(i, tick) && f == Supervised(c, p.world.axis, i, tick)
    ensures FaultsAreDown(Next(c, p, h))
  {
    var a := p.world.axis;
    TickPulse(c, a, p.world.queue, i, tick, f);
    assert Rank(p.d) == 0 && VoltageOff(p.image) ==> Rank(DriveAfter(p, h)) == 0;
    if !i.busLost && Rank(f.drive.ds) == 0 && (a.power.pulse != 0 || f.drive.ds == Fault) {
      FaultImage(c, a, p.world.queue, i, tick, f);
    }
  }

  lemma CommandKeepsFaultsDown(c: Cfg, p: Plant, h: Happening)
    requires FaultsAreDown(p) && h.Order?
    ensures FaultsAreDown(Next(c, p, h))
  {
    var w := p.world;
    var a := Applied(c, w.shutdown, h.ext, w.axis, h.op, h.sequence, h.tick);
    assert a.drive == w.axis.drive;
    assert a.power.pulse == w.axis.power.pulse || (h.op == FaultReset && a.power.pulse == 2
        && w.axis.drive.ds == Fault);
  }

  lemma KeepsFaultsDown(c: Cfg, p: Plant, h: Happening)
    requires FaultsAreDown(p)
    ensures FaultsAreDown(Next(c, p, h))
  {
    match EventOf(p, h)
    case Frame(i, tick) => FrameKeepsFaultsDown(c, p, h, i, tick, Supervised(c, p.world.axis, i, tick));
    case Cmd(_, _, _, _) => CommandKeepsFaultsDown(c, p, h);
    case _ =>
  }

  /** In every run of the plant. */
  lemma {:induction false} RunKeepsFaultsDown(c: Cfg, p: Plant, hs: seq<Happening>)
    requires FaultsAreDown(p)
    ensures FaultsAreDown(After(c, p, hs))
    decreases |hs|
  {
    if hs == [] {
    } else {
      KeepsFaultsDown(c, p, hs[0]);
      RunKeepsFaultsDown(c, Next(c, p, hs[0]), hs[1..]);
    }
  }
}
