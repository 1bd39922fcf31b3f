/** Runs of one axis: any sequence of commands, ticks, setpoint pushes and the
    shutdown request. */
module AxisRuns {
  import opened Wrappers
  import opened Setpoints
  import opened Axis

  /** One event at the axis: a command (with the monitor error at that time), a
      tick, a setpoint pushed, or the shutdown request. */
  datatype Event =
    | Cmd(op: Op, sequence: nat, tick: nat, ext: Err)
    | Frame(input: Input, tick: nat)
    | Pushed(sp: Sp)
    | Shutdown

  datatype World = World(axis: Axis, queue: seq<Sp>, shutdown: bool, out: Output)

  function Begin(c: Cfg): World {
    World(Fresh(c), [], false, NoOutput)
  }

  function Step(c: Cfg, w: World, e: Event): (r: World)
    requires PointsShape(w.axis.pp)
    ensures PointsShape(r.axis.pp)
  {
    match e
    case Cmd(op, sequence, tick, ext) =>
      w.(axis := Applied(c, w.shutdown, ext, w.axis, op, sequence, tick), out := NoOutput)
    case Frame(i, tick) =>
      var t := Tick(c, w.axis, w.queue, i, tick);
      World(t.axis, t.rest, w.shutdown, t.out)
    case Pushed(sp) => w.(queue := w.queue + [sp], out := NoOutput)
    case Shutdown =>
      w.(shutdown := true, axis := w.axis.(power := w.axis.power.(target := Disabled)), out := NoOutput)
  }

  function RunOf(c: Cfg, es: seq<Event>): (r: World)
    ensures PointsShape(r.axis.pp)
  {
    if es == [] then Begin(c) else Step(c, RunOf(c, es[..|es| - 1]), es[|es| - 1])
  }

  /** The mode asked for, from the commands alone. */
  function ModeAsked(c: Cfg, es: seq<Event>): int {
    if es == [] then FirstMode(c)
    else
      var req := ModeAsked(c, es[..|es| - 1]);
      match es[|es| - 1]
      case Cmd(SetMode(m), _, _, _) => if ModeAllowed(c, m) && (c.modeOut || m == req) then m else req
      case _ => req
  }

  /** A cyclic target on the wire: a position in CSP or a velocity in CSV. */
  datatype Cyclic = NoCyclic | Position(at: int) | Speed(v: int)

  function CyclicIn(req: int, out: Output): Cyclic {
    if out.NoOutput? then NoCyclic
    else if req == CSP && out.tpos.Some? then Position(out.tpos.value)
    else if req == CSV && out.tvel.Some? then Speed(out.tvel.value)
    else NoCyclic
  }

  /** The cyclic target last written, if any. */
  function LastCyclic(c: Cfg, es: seq<Event>): Cyclic {
    if es == [] then NoCyclic
    else
      var now := CyclicIn(ModeAsked(c, es), RunOf(c, es).out);
      if now.NoCyclic? then LastCyclic(c, es[..|es| - 1]) else now
  }

  /** Its value; 0 before the first. */
  function SentValue(x: Cyclic): int {
    match x
    case NoCyclic => 0
    case Position(at) => at
    case Speed(v) => v
  }

  /** The parts of a tick with the bus up. */
  lemma TickParts(c: Cfg, a: Axis, q: seq<Sp>, i: Input, tick: nat, f: Front, v: Moved)
    requires PointsShape(a.pp) && !i.busLost && f == Supervised(c, a, i, tick)
    requires v == Moving(c, f.walk, f.drive, f.mode, a.motion, q, tick)
    ensures var t := Tick(c, a, q, i, tick);
            && t.axis.drive == f.drive && t.axis.mode == f.mode && t.rest == v.rest
            && t.axis.power == ProfileErrors(c, v.power, a.pp, a.hm, f.mode.req, v.running, f.drive, tick)
            && t.axis.pp == PointsAfter(c, a.pp, f.mode.req, v.running, f.drive, tick)
            && t.axis.running == (f.walk.power.target == Enabled && f.drive.ds == Oe && f.mode.ok)
            && t.axis.motion == (if v.running then v.motion else v.motion.(pvVel := 0))
    ensures var t := Tick(c, a, q, i, tick);
            && t.out.Output?
            && (f.mode.req != PP ==> t.out.tpos == v.tpos) && (f.mode.req != PV ==> t.out.tvel == v.tvel)
            && t.out.cw == ProfileControl(c, v.base, a.pp, t.axis.pp, t.axis.hm, f.mode.req, v.running, f.drive, tick)
  {
  }

  lemma TickSends(c: Cfg, a: Axis, q: seq<Sp>, i: Input, tick: nat)
    requires PointsShape(a.pp)
    ensures var t := Tick(c, a, q, i, tick);
            && t.axis.mode.req == a.mode.req
            && t.axis.motion.lastSent ==
               if i.busLost then a.motion.lastSent
               else if a.mode.req == CSP && t.out.tpos.Some? then t.out.tpos.value
               else if a.mode.req == CSV && t.out.tvel.Some? then t.out.tvel.value
               else a.motion.lastSent
  {
    var f := Supervised(c, a, i, tick);
    if !i.busLost {
      TickParts(c, a, q, i, tick, f, Moving(c, f.walk, f.drive, f.mode, a.motion, q, tick));
    }
  }

  lemma StepSends(c: Cfg, w: World, e: Event, r: World)
    requires PointsShape(w.axis.pp) && r == Step(c, w, e)
    ensures var now := CyclicIn(r.axis.mode.req, r.out);
            r.axis.motion.lastSent == if now.NoCyclic? then w.axis.motion.lastSent else SentValue(now)
    ensures r.axis.mode.req ==
            if e.Cmd? && e.op.SetMode? && ModeAllowed(c, e.op.m) && (c.modeOut || e.op.m == w.axis.mode.req) then e.op.m
            else w.axis.mode.req
  {
    if e.Frame? {
      TickSends(c, w.axis, w.queue, e.input, e.tick);
    }
  }

  /** The machine compares new setpoints with exactly that, and is asked for that
      mode. */
  lemma {:induction false} LastCyclicIsSent(c: Cfg, es: seq<Event>)
    ensures RunOf(c, es).axis.mode.req == ModeAsked(c, es)
    ensures RunOf(c, es).axis.motion.lastSent == SentValue(LastCyclic(c, es))
  {
    if es == [] {
    } else {
      LastCyclicIsSent(c, es[..|es| - 1]);
      StepSends(c, RunOf(c, es[..|es| - 1]), es[|es| - 1], RunOf(c, es));
    }
  }
}
