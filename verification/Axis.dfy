/** The CiA 402 axis as the RT hook runs it: one tick as a composition of
    stages over the parts of the axis record, and command application.

    A statusword arrives decoded (`Status`).  The setpoint ring is its queue.
    Constants 0x06, 0x07, 0x0F, 0x02, 0x80 are the controlword commands. */
module Axis {
  import opened Wrappers
  import opened Setpoints

  datatype Ds = Unknown | NotReady | Sod | Rtso | So | Oe | Qsa | Fra | Fault
  datatype Target = Disabled | Enabled | QuickStop
  datatype Err =
    | NoError | Timeout | DriveFault | BusLost | ModeErr | InFault | Dropped | StepErr | ShutdownErr
    | Handshake | HomingErr | ConfigErr | SlaveFailed

  const PP: int := 1
  const PV: int := 3
  const HM: int := 6
  const CSP: int := 8
  const CSV: int := 9
  const HM_SETTLE: nat := 10

  /** A statusword with its decoded state and the bits the profile modes read:
      12 (set-point acknowledge / homing attained), 10 (target reached) and
      13 (homing error). */
  datatype Status = Status(word: nat, ds: Ds, ack: bool, reached: bool, homingError: bool)

  /** Configured modes, which objects are mapped, and the limits. */
  datatype Cfg = Cfg(modes: set<int>, tpos: bool, tvel: bool, modeOut: bool, modeIn: bool, aposIn: bool,
                     maxStepPos: nat, maxStepVel: nat, stepTimeout: nat, homeTimeout: nat)

  /** What one tick brings: frame validity, inputs, bus state, monitor error. */
  datatype Input = Input(valid: bool, sw: Status, apos: int, avel: int, ecode: nat, modeDisp: int,
                         busLost: bool, ext: Err)

  datatype Drive = Drive(ds: Ds, sw: Status, apos: int, avel: int, ecode: nat, modeDisp: int, transitions: nat)

  datatype Power = Power(target: Target, err: Err, errDs: Ds, pulse: nat, reachedOe: bool, dsWait: Ds, stepSince: nat)

  datatype Mode = Mode(req: int, ok: bool)

  datatype Motion = Motion(armed: bool, lastSp: int, lastSent: int, stepSeen: int, pvVel: int,
                           used: nat, late: nat, underrun: nat, dropped: nat, stepRefused: nat)

  datatype Point = Point(pos: int, rel: bool, imm: bool)

  /** PP points: a ring of 16 places. Phase 0 idle, 1 bit 4 up, 2 wait for
      acknowledge low. */
  datatype Points = Points(ring: seq<Point>, head: nat, n: nat, phase: nat, flags: Point, cur: int, since: nat,
                           sent: nat, acked: nat, lost: nat)

  datatype HmPhase = HmIdle | HmRunning | HmDone | HmFailed
  datatype Homing = Homing(phase: HmPhase, seenLow: bool, homed: bool, since: nat)

  /** The controlword: a command and the profile bits 4, 5, 6. */
  datatype Control = Control(base: nat, b4: bool, b5: bool, b6: bool)

  datatype Axis = Axis(drive: Drive, power: Power, mode: Mode, motion: Motion, pp: Points, hm: Homing,
                       running: bool, cw: Control, lastSeq: nat)

  datatype Op =
    | Enable | Disable | Quick | FaultReset | SetMode(m: int) | PpPoint(point: Point) | PvVel(v: int) | Home | Other

  /** What the hook writes for frame k + 1. */
  datatype Output = NoOutput | Output(tpos: Option<int>, tvel: Option<int>, mode: Option<int>, cw: Control)

  const NO_POINT: Point := Point(0, false, false)

  predicate ModeAllowed(c: Cfg, m: int) {
    m in {PP, PV, HM, CSP, CSV} && m in c.modes
  }

  function FirstMode(c: Cfg): int {
    if CSP in c.modes then CSP else if CSV in c.modes then CSV else if PP in c.modes then PP
    else if PV in c.modes then PV else if HM in c.modes then HM else 0
  }

  function Fresh(c: Cfg): Axis {
    Axis(Drive(Unknown, Status(0, Unknown, false, false, false), 0, 0, 0, 0, 0),
         Power(Disabled, NoError, Unknown, 0, false, Unknown, 0), Mode(FirstMode(c), false),
         Motion(false, 0, 0, 0, 0, 0, 0, 0, 0, 0),
         Points(seq(16, i => NO_POINT), 0, 0, 0, NO_POINT, 0, 0, 0, 0, 0),
         Homing(HmIdle, false, false, 0), false, Control(0, false, false, false), 0)
  }

  // ---- commands ------------------------------------------------------------

  predicate InFaultState(ds: Ds) {
    ds == Fault || ds == Fra
  }

  function EnableCmd(c: Cfg, shutdown: bool, ext: Err, a: Axis, tick: nat): Power {
    var p := a.power;
    if shutdown then p.(err := ShutdownErr)
    else if ext != NoError then p.(err := ext, target := Disabled)
    else if InFaultState(a.drive.ds) then p.(err := InFault, target := Disabled)
    else if !ModeAllowed(c, a.mode.req) then p.(err := ModeErr, target := Disabled)
    else p.(target := Enabled, err := NoError, errDs := Unknown, dsWait := a.drive.ds, stepSince := tick,
        reachedOe := false)
  }

  predicate PointsShape(pp: Points) {
    |pp.ring| == 16 && pp.head < 16 && pp.n <= 16 && pp.phase <= 2
  }

  /** The queued points, oldest first. */
  function PointQueue(pp: Points): (q: seq<Point>)
    requires PointsShape(pp)
    ensures |q| == pp.n
  {
    seq(pp.n, i requires 0 <= i < pp.n => pp.ring[(pp.head + i) % 16])
  }

  function PointCmd(pp: Points, usable: bool, x: Point): (r: Points)
    requires PointsShape(pp)
    ensures PointsShape(r)
  {
    if !usable || pp.n == 16 then pp.(lost := pp.lost + 1)
    else pp.(ring := pp.ring[(pp.head + pp.n) % 16 := x], n := pp.n + 1)
  }

  /** One command applied to the axis. */
  function Applied(c: Cfg, shutdown: bool, ext: Err, a: Axis, op: Op, sequence: nat, tick: nat): (r: Axis)
    requires PointsShape(a.pp)
    ensures PointsShape(r.pp)
  {
    var b := a.(lastSeq := sequence);
    match op
    case Enable => b.(power := EnableCmd(c, shutdown, ext, a, tick))
    case Disable => b.(power := a.power.(target := Disabled))
    case Quick => b.(power := a.power.(target := QuickStop))
    case FaultReset =>
      b.(power := a.power.(target := Disabled, pulse := if a.drive.ds == Fault then 2 else a.power.pulse,
                           err := if a.power.err == DriveFault || a.power.err == InFault then NoError else a.power.err))
    case SetMode(m) =>
      if !ModeAllowed(c, m) || (!c.modeOut && m != a.mode.req) then b.(power := a.power.(err := ModeErr))
      else if m != a.mode.req then b.(mode := Mode(m, false), motion := a.motion.(armed := false))
      else b
    case PpPoint(x) =>
      var usable := a.running && a.mode.req == PP;
      b.(pp := PointCmd(a.pp, usable, x), power := if usable then a.power else a.power.(err := ModeErr))
    case PvVel(v) =>
      if !a.running || a.mode.req != PV then b.(power := a.power.(err := ModeErr))
      else b.(motion := a.motion.(pvVel := v))
    case Home =>
      if !a.running || a.mode.req != HM then b.(power := a.power.(err := ModeErr))
      else b.(hm := Homing(HmRunning, false, false, tick))
    case Other => b
  }

  // ---- stages of a tick ----------------------------------------------------

  /** 1. Inputs; a bad frame keeps the last good ones. */
  function Sensed(c: Cfg, d: Drive, req: int, i: Input): Drive {
    if !i.valid then d
    else Drive(i.sw.ds, i.sw, if c.aposIn then i.apos else d.apos, i.avel, i.ecode,
               if c.modeIn then i.modeDisp else req, d.transitions + (if i.sw.ds != d.ds then 1 else 0))
  }

  /** 2a. Bus loss (S5) and drive fault. */
  function LatchLoss(p: Power, ds: Ds, busLost: bool): Power {
    if p.target == Disabled then p
    else if busLost then p.(target := Disabled, err := BusLost)
    else if InFaultState(ds) then p.(target := Disabled, err := DriveFault, errDs := ds)
    else p
  }

  /** 2b. Errors found by the monitor. */
  function LatchExternal(p: Power, ext: Err): Power {
    if ext != NoError then p.(target := Disabled, err := ext) else p
  }

  /** 2c. Operation enabled left without a command (S1). */
  function LatchDrop(p: Power, ds: Ds, valid: bool): Power {
    if !valid || p.target != Enabled then p
    else if ds == Oe then p.(reachedOe := true)
    else if p.reachedOe then p.(target := Disabled, err := Dropped, errDs := ds)
    else p
  }

  function Latched(p: Power, ds: Ds, i: Input): Power {
    LatchDrop(LatchExternal(LatchLoss(p, ds, i.busLost), i.ext), ds, i.valid)
  }

  /** 4. The command for the drive state. */
  function Command(t: Target, ds: Ds, modeOk: bool): nat {
    match t
    case Enabled =>
      if ds == Sod then 0x06 else if ds == Rtso then 0x07
      else if ds == So then (if modeOk then 0x0F else 0x07)
      else if ds == Oe then 0x0F else 0x00
    case QuickStop => if ds == Oe || ds == Qsa then 0x02 else 0x00
    case Disabled => if ds == Oe then 0x07 else if ds == So then 0x06 else 0x00
  }

  /** A quick stop ends once the drive has left Operation enabled. */
  function Settled(p: Power, ds: Ds): Power {
    if p.target == QuickStop && ds != Oe && ds != Qsa then p.(target := Disabled) else p
  }

  /** The reset pulse takes the controlword for two ticks. */
  function PulseOver(base: nat, pulse: nat): nat {
    if pulse == 2 then 0x80 else if pulse == 1 then 0x00 else base
  }

  predicate StepLate(p: Power, ds: Ds, busLost: bool, tick: nat, limit: nat) {
    p.target == Enabled && ds != Oe && !busLost && ds == p.dsWait && tick - p.stepSince > limit
  }

  /** 5. Timeout of a commanded transition. */
  function Timed(p: Power, ds: Ds, busLost: bool, tick: nat, limit: nat): Power {
    if StepLate(p, ds, busLost, tick, limit) then p.(err := Timeout, errDs := ds, target := Disabled)
    else if p.target == Enabled && ds != Oe && !busLost && ds != p.dsWait then p.(dsWait := ds, stepSince := tick)
    else p
  }

  /** Power part and command after stages 4 and 5. */
  datatype Walk = Walk(power: Power, base: nat, enabling: bool)

  function Walked(p: Power, ds: Ds, modeOk: bool, busLost: bool, tick: nat, limit: nat): Walk {
    var q := Settled(p, ds);
    var base := PulseOver(Command(p.target, ds, modeOk), p.pulse);
    var u := q.(pulse := if p.pulse == 2 then 1 else if p.pulse == 1 then 0 else p.pulse);
    Walk(Timed(u, ds, busLost, tick, limit),
         if StepLate(u, ds, busLost, tick, limit) then (if ds == So then 0x06 else 0x00) else base,
         p.target == Enabled && ds == So && modeOk)
  }

  predicate CyclicMode(req: int) {
    req == CSP || req == CSV
  }

  function StepLimit(c: Cfg, req: int): nat {
    if req == CSP then c.maxStepPos else if req == CSV then c.maxStepVel else 0
  }

  /** S4: is a setpoint too far from what was sent last? */
  predicate StepTooFar(limit: nat, sp: int, sent: int) {
    limit != 0 && (sp - sent > limit || sent - sp > limit)
  }

  /** Setpoint stage: power and motion parts, and what is written. */
  datatype Moved = Moved(power: Power, base: nat, motion: Motion, running: bool, rest: seq<Sp>,
                         tpos: Option<int>, tvel: Option<int>)

  /** 6a. Drain the ring into the motion part. */
  function Consumed(m: Motion, r: Drained, active: bool): Motion {
    var got := r.used.Some?;
    m.(lastSp := if got then r.used.value else m.lastSp, armed := m.armed || got,
       used := m.used + (if got then 1 else 0), late := m.late + r.late, dropped := m.dropped + r.due,
       underrun := m.underrun + (if active && !got && m.armed then 1 else 0))
  }

  /** 6b. The target position (CSP): actual until running and armed (S2), then the
      setpoint, held when none came (S3). */
  function Positioned(m: Motion, apos: int, follow: bool, running: bool): Motion {
    if follow then m.(armed := m.armed && running, lastSp := apos, lastSent := apos)
    else m.(lastSent := m.lastSp)
  }

  /** 6c. The target velocity (CSV): zero unless a setpoint came. */
  function Velocity(m: Motion, running: bool, got: bool): Motion {
    m.(armed := m.armed && running, lastSent := if running && got then m.lastSp else 0)
  }

  /** The step limit applied to a fresh setpoint (S4). */
  datatype Judged = Judged(power: Power, base: nat, motion: Motion, refused: bool)

  function Judge(c: Cfg, w: Walk, req: int, m: Motion, sent: int, got: bool): Judged {
    if got && StepTooFar(StepLimit(c, req), m.lastSp, sent) then
      Judged(w.power.(err := StepErr, target := QuickStop), 0x02,
             m.(stepSeen := m.lastSp - sent, stepRefused := m.stepRefused + 1, lastSp := sent, armed := false), true)
    else Judged(w.power, w.base, m, false)
  }

  /** The cyclic target written into the motion part. */
  function Placed(c: Cfg, req: int, m: Motion, apos: int, enabling: bool, run: bool, got: bool): Motion {
    if req == CSP && c.tpos then Positioned(m, apos, !run || enabling || !m.armed, run)
    else if req == CSV && c.tvel then Velocity(m, run, got)
    else m
  }

  function Moving(c: Cfg, w: Walk, d: Drive, mode: Mode, m: Motion, q: seq<Sp>, tick: nat): Moved {
    var run0 := w.power.target == Enabled && d.ds == Oe && mode.ok;
    var active := run0 && CyclicMode(mode.req);
    var r := Drain(q, tick + 1, active, SKIP_MAX);
    var j := Judge(c, w, mode.req, Consumed(m, r, active), m.lastSent, r.used.Some?);
    Targeted(c, mode.req, j, d.apos, w.enabling, run0, r.used.Some?, r.rest)
  }

  /** The target that goes out after the step was judged. */
  function Targeted(c: Cfg, req: int, j: Judged, apos: int, enabling: bool, run0: bool, got: bool,
      rest: seq<Sp>): Moved {
    var run := run0 && !j.refused;
    var placed := Placed(c, req, j.motion, apos, enabling, run, got && !j.refused);
    Moved(j.power, j.base, placed, run, rest,
          if req == CSP && c.tpos then Some(placed.lastSent) else None,
          if req == CSV && c.tvel then Some(placed.lastSent) else None)
  }

  /** 7a. Nothing in flight survives a stop. */
  function Flushed(pp: Points): Points {
    pp.(lost := pp.lost + pp.n + (if pp.phase == 1 then 1 else 0), n := 0, phase := 0)
  }

  function StopHoming(hm: Homing): Homing {
    if hm.phase == HmRunning then hm.(phase := HmFailed) else hm
  }

  /** Can the oldest point be offered: acknowledge low and, unless it replaces
      the current motion, target reached. */
  predicate CanStart(pp: Points, sw: Status)
    requires PointsShape(pp)
  {
    pp.n > 0 && !sw.ack && (pp.ring[pp.head].imm || sw.reached)
  }

  function Started(pp: Points, tick: nat): Points
    requires PointsShape(pp) && pp.n > 0
  {
    var x := pp.ring[pp.head];
    pp.(cur := x.pos, flags := x, head := (pp.head + 1) % 16, n := pp.n - 1, phase := 1, since := tick,
        sent := pp.sent + 1)
  }

  predicate AckLate(pp: Points, sw: Status, tick: nat, limit: nat) {
    pp.phase == 1 && !(sw.ack && tick >= pp.since + 2) && tick - pp.since > limit
  }

  /** 7b. One step of the set-point handshake while running in PP. */
  function Handshaken(pp: Points, sw: Status, tick: nat, limit: nat): (r: Points)
    requires PointsShape(pp)
    ensures PointsShape(r)
  {
    if pp.phase == 0 then if CanStart(pp, sw) then Started(pp, tick) else pp
    else if pp.phase == 1 then
      if sw.ack && tick >= pp.since + 2 then pp.(phase := 2, acked := pp.acked + 1)
      else if AckLate(pp, sw, tick, limit) then pp.(phase := 0, lost := pp.lost + 1)
      else pp
    else if !sw.ack then pp.(phase := 0) else pp
  }

  /** 7c. One step of homing while running in HM. */
  function Homed(hm: Homing, sw: Status, tick: nat, limit: nat): Homing {
    var seen := tick >= hm.since + 2;
    var low := hm.seenLow || (seen && !sw.ack);
    var h := hm.(seenLow := low);
    if seen && sw.homingError then h.(phase := HmFailed)
    else if seen && sw.ack && sw.reached && (low || tick >= hm.since + HM_SETTLE) then
      h.(phase := HmDone, homed := true)
    else if tick - hm.since > limit then h.(phase := HmFailed)
    else h
  }

  /** The points after the profile stage. */
  function PointsAfter(c: Cfg, pp: Points, req: int, running: bool, d: Drive, tick: nat): (r: Points)
    requires PointsShape(pp)
    ensures PointsShape(r)
  {
    if !running then
      var f := Flushed(pp);
      if req == PP then f.(cur := d.apos) else f
    else if req == PP then Handshaken(pp, d.sw, tick, c.stepTimeout)
    else pp
  }

  function HomingAfter(c: Cfg, hm: Homing, req: int, running: bool, d: Drive, tick: nat): Homing {
    if !running then StopHoming(hm)
    else if req == HM && hm.phase == HmRunning then Homed(hm, d.sw, tick, c.homeTimeout)
    else hm
  }

  /** Errors of the profile stage: a missed acknowledge disables the axis. */
  function ProfileErrors(c: Cfg, p: Power, pp: Points, hm: Homing, req: int, running: bool, d: Drive,
      tick: nat): Power {
    if !running then
      if hm.phase == HmRunning && p.err == NoError then p.(err := HomingErr) else p
    else if req == PP && AckLate(pp, d.sw, tick, c.stepTimeout) then p.(err := Handshake, target := Disabled)
    else if req == HM && hm.phase == HmRunning && Homed(hm, d.sw, tick, c.homeTimeout).phase == HmFailed then
      p.(err := HomingErr)
    else p
  }

  /** The controlword with the profile bits. */
  function ProfileControl(c: Cfg, base: nat, pp: Points, pp': Points, hm': Homing, req: int, running: bool, d: Drive,
                          tick: nat): Control {
    if req == PP && running && AckLate(pp, d.sw, tick, c.stepTimeout) then Control(0x07, false, false, false)
    else if req == PP && running && base == 0x0F && pp'.phase == 1 then
      Control(base, true, pp'.flags.imm, pp'.flags.rel)
    else if req == HM && running && base == 0x0F && hm'.phase == HmRunning then Control(base, true, false, false)
    else Control(base, false, false, false)
  }

  /** Stages 1 to 5. */
  datatype Front = Front(drive: Drive, mode: Mode, walk: Walk)

  function Supervised(c: Cfg, a: Axis, i: Input, tick: nat): Front {
    var d := Sensed(c, a.drive, a.mode.req, i);
    var mode := a.mode.(ok := a.mode.req != 0 && d.modeDisp == a.mode.req);
    Front(d, mode, Walked(Latched(a.power, d.ds, i), d.ds, mode.ok, i.busLost, tick, c.stepTimeout))
  }

  datatype Ticked = Ticked(axis: Axis, rest: seq<Sp>, out: Output)

  /** Stages 6 and 7, with the bus up. */
  function Written(c: Cfg, a: Axis, f: Front, q: seq<Sp>, tick: nat): Ticked
    requires PointsShape(a.pp)
  {
    var d, mode, req := f.drive, f.mode, f.mode.req;
    var v := Moving(c, f.walk, d, mode, a.motion, q, tick);
    var pp := PointsAfter(c, a.pp, req, v.running, d, tick);
    var hm := HomingAfter(c, a.hm, req, v.running, d, tick);
    var power := ProfileErrors(c, v.power, a.pp, a.hm, req, v.running, d, tick);
    var cw := ProfileControl(c, v.base, a.pp, pp, hm, req, v.running, d, tick);
    var motion := if v.running then v.motion else v.motion.(pvVel := 0);
    var run0 := f.walk.power.target == Enabled && d.ds == Oe && mode.ok;
    Ticked(Axis(d, power, mode, motion, pp, hm, run0, cw, a.lastSeq), v.rest,
           Output(if req == PP && c.tpos then Some(pp.cur) else v.tpos,
                  if req == PV && c.tvel then Some(motion.pvVel) else v.tvel,
                  if c.modeOut then Some(req) else None, cw))
  }

  /** One tick of the hook for one axis (commands are already applied); without a
      bus nothing goes out. */
  function Tick(c: Cfg, a: Axis, q: seq<Sp>, i: Input, tick: nat): Ticked
    requires PointsShape(a.pp)
  {
    var f := Supervised(c, a, i, tick);
    if i.busLost then Ticked(a.(drive := f.drive, mode := f.mode, power := f.walk.power), q, NoOutput)
    else Written(c, a, f, q, tick)
  }
}
