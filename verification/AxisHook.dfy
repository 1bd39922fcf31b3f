/** The axis code as it runs: fields updated step by step, each step proved to
    compute its stage of the tick. */
module AxisHook {
  import opened Wrappers
  import opened Setpoints
  import opened Axis

  class CiaAxis {
    const cfg: Cfg
    var drive: Drive
    var power: Power
    var mode: Mode
    var motion: Motion
    var pp: Points
    var hm: Homing
    var running: bool
    var cw: Control
    var lastSeq: nat
    var queue: seq<Sp>

    ghost function View(): Axis
      reads this
    {
      Axis(drive, power, mode, motion, pp, hm, running, cw, lastSeq)
    }

    constructor (c: Cfg)
      ensures cfg == c && View() == Fresh(c) && queue == []
    {
      cfg := c;
      var a := Fresh(c);
      drive, power, mode, motion, pp, hm := a.drive, a.power, a.mode, a.motion, a.pp, a.hm;
      running, cw, lastSeq, queue := false, Control(0, false, false, false), 0, [];
    }

    /** ENABLE: refused during shutdown, with a monitor error, in a fault, or
        without a configured mode. */
    method EnableAxis(shutdown: bool, ext: Err, tick: nat)
      modifies this`power
      ensures power == EnableCmd(cfg, shutdown, ext, old(View()), tick)
    {
      if shutdown {
        power := power.(err := ShutdownErr);
        return;
      }
      if ext != NoError {
        power := power.(err := ext, target := Disabled);
        return;
      }
      if drive.ds == Fault || drive.ds == Fra {
        power := power.(err := InFault, target := Disabled);
        return;
      }
      if !ModeAllowed(cfg, mode.req) {
        power := power.(err := ModeErr, target := Disabled);
        return;
      }
      power := power.(target := Enabled, err := NoError, errDs := Unknown);
      power := power.(dsWait := drive.ds, stepSince := tick, reachedOe := false);
    }

    method AddPoint(x: Point)
      requires PointsShape(pp)
      modifies this`pp, this`power
      ensures pp == PointCmd(old(pp), running && mode.req == PP, x)
      ensures power == if running && mode.req == PP then old(power) else old(power).(err := ModeErr)
    {
      if !running || mode.req != PP {
        power := power.(err := ModeErr);
        pp := pp.(lost := pp.lost + 1);
        return;
      }
      if pp.n == 16 {
        pp := pp.(lost := pp.lost + 1);
        return;
      }
      var i := (pp.head + pp.n) % 16;
      pp := pp.(ring := pp.ring[i := x]);
      pp := pp.(n := pp.n + 1);
    }

    /** FAULT_RESET: the axis stays disabled; the pulse only for a faulty drive. */
    method ResetFault()
      modifies this`power
      ensures power == old(power).(target := Disabled, pulse := if drive.ds == Fault then 2 else old(power).pulse,
                                   err := if old(power).err == DriveFault || old(power).err == InFault then NoError
                                          else old(power).err)
    {
      power := power.(target := Disabled);
      if drive.ds == Fault {
        power := power.(pulse := 2);
      }
      if power.err == DriveFault || power.err == InFault {
        power := power.(err := NoError);
      }
    }

    method ApplyCommand(shutdown: bool, ext: Err, op: Op, sequence: nat, tick: nat)
      requires PointsShape(pp)
      modifies this
      ensures View() == Applied(cfg, shutdown, ext, old(View()), op, sequence, tick) && queue == old(queue)
    {
      if op in {Enable, Disable, Quick, FaultReset} {
        ApplyPowerCommand(shutdown, ext, op, tick);
      } else if op.PpPoint? {
        AddPoint(op.point);
      } else {
        ApplyModeCommand(op, tick);
      }
      lastSeq := sequence;
    }

    /** Commands that set the target. */
    method ApplyPowerCommand(shutdown: bool, ext: Err, op: Op, tick: nat)
      requires PointsShape(pp) && op in {Enable, Disable, Quick, FaultReset}
      modifies this`power
      ensures power == Applied(cfg, shutdown, ext, old(View()), op, lastSeq, tick).power
    {
      match op
      case Enable => EnableAxis(shutdown, ext, tick);
      case Disable => power := power.(target := Disabled);
      case Quick => power := power.(target := QuickStop);
      case FaultReset => ResetFault();
    }

    /** SET_MODE, PV_VEL and HOME. */
    method ApplyModeCommand(op: Op, tick: nat)
      requires PointsShape(pp) && op !in {Enable, Disable, Quick, FaultReset} && !op.PpPoint?
      modifies this`power, this`mode, this`motion, this`hm
      ensures View() == Applied(cfg, false, NoError, old(View()), op, lastSeq, tick)
    {
      match op
      case SetMode(m) =>
        if !ModeAllowed(cfg, m) || (!cfg.modeOut && m != mode.req) {
          power := power.(err := ModeErr);
        } else if m != mode.req {
          mode := Mode(m, false);
          motion := motion.(armed := false);
        }
      case PvVel(v) =>
        if !running || mode.req != PV {
          power := power.(err := ModeErr);
        } else {
          motion := motion.(pvVel := v);
        }
      case Home =>
        if !running || mode.req != HM {
          power := power.(err := ModeErr);
        } else {
          hm := Homing(HmRunning, false, false, tick);
        }
      case _ =>
    }

    method ReadInputs(i: Input)
      modifies this`drive, this`mode
      ensures drive == Sensed(cfg, old(drive), old(mode).req, i)
      ensures mode == old(mode).(ok := old(mode).req != 0 && drive.modeDisp == old(mode).req)
    {
      if i.valid {
        var ds := i.sw.ds;
        drive := drive.(sw := i.sw);
        if cfg.aposIn {
          drive := drive.(apos := i.apos);
        }
        drive := drive.(avel := i.avel, ecode := i.ecode, modeDisp := if cfg.modeIn then i.modeDisp else mode.req);
        if ds != drive.ds {
          drive := drive.(transitions := drive.transitions + 1);
        }
        drive := drive.(ds := ds);
      }
      mode := mode.(ok := mode.req != 0 && drive.modeDisp == mode.req);
    }

    method LatchErrors(i: Input)
      modifies this`power
      ensures power == Latched(old(power), drive.ds, i)
    {
      if i.busLost {
        if power.target != Disabled {
          power := power.(target := Disabled, err := BusLost);
        }
      } else if (drive.ds == Fault || drive.ds == Fra) && power.target != Disabled {
        power := power.(target := Disabled, err := DriveFault, errDs := drive.ds);
      }
      if i.ext != NoError {
        power := power.(target := Disabled, err := i.ext);
      }
      if i.valid && power.target == Enabled {
        if drive.ds == Oe {
          power := power.(reachedOe := true);
        } else if power.reachedOe {
          power := power.(target := Disabled, err := Dropped, errDs := drive.ds);
        }
      }
    }

    /** The command that walks the drive one transition towards the target. */
    method ChooseCommand() returns (base: nat, enabling: bool)
      modifies this`power
      ensures power == Settled(old(power), drive.ds) && base == Command(old(power).target, drive.ds, mode.ok)
      ensures enabling == (old(power).target == Enabled && drive.ds == So && mode.ok)
    {
      base, enabling := 0x00, false;
      match power.target {
        case Enabled =>
          match drive.ds {
            case Sod => base := 0x06;
            case Rtso => base := 0x07;
            case So =>
              if mode.ok {
                base, enabling := 0x0F, true;
              } else {
                base := 0x07;
              }
            case Oe => base := 0x0F;
            case _ =>
          }
        case QuickStop =>
          if drive.ds == Oe || drive.ds == Qsa {
            base := 0x02;
          } else {
            power := power.(target := Disabled);
          }
        case Disabled =>
          match drive.ds {
            case Oe => base := 0x07;
            case So => base := 0x06;
            case _ =>
          }
      }
    }

    method WalkStates(busLost: bool, tick: nat) returns (base: nat, enabling: bool)
      modifies this`power
      ensures Walk(power, base, enabling) == Walked(old(power), drive.ds, mode.ok, busLost, tick, cfg.stepTimeout)
    {
      base, enabling := ChooseCommand();
      if power.pulse == 2 {
        base := 0x80;
        power := power.(pulse := 1);
      } else if power.pulse == 1 {
        base := 0x00;
        power := power.(pulse := 0);
      }
      if power.target == Enabled && drive.ds != Oe && !busLost {
        if drive.ds != power.dsWait {
          power := power.(dsWait := drive.ds, stepSince := tick);
        } else if tick - power.stepSince > cfg.stepTimeout {
          power := power.(err := Timeout, errDs := drive.ds, target := Disabled);
          base := if drive.ds == So then 0x06 else 0x00;
        }
      }
    }

    /** Takes the setpoint for the next frame off the ring, dropping what is late
        or cannot be used now. */
    method TakeSetpoint(active: bool, tick: nat) returns (got: bool)
      modifies this`queue, this`motion
      ensures var r := Drain(old(queue), tick + 1, active, SKIP_MAX);
              queue == r.rest && motion == Consumed(old(motion), r, active) && got == r.used.Some?
    {
      var k1, skipped := tick + 1, 0;
      got := false;
      ghost var whole := Drain(queue, k1, active, SKIP_MAX);
      while queue != []
        invariant skipped <= SKIP_MAX && !got
        invariant motion == old(motion).(late := motion.late, dropped := motion.dropped)
        invariant var r := Drain(queue, k1, active, SKIP_MAX - skipped);
                  && whole.rest == r.rest && whole.used == r.used
                  && old(motion).late + whole.late == motion.late + r.late
                  && old(motion).dropped + whole.due == motion.dropped + r.due
        decreases |queue|
      {
        var e := queue[0];
        if e.tick > k1 {
          break;
        }
        if e.tick < k1 || !active {
          if skipped == SKIP_MAX {
            break;
          }
          if e.tick < k1 {
            motion := motion.(late := motion.late + 1);
          } else {
            motion := motion.(dropped := motion.dropped + 1);
          }
          queue := queue[1..];
          skipped := skipped + 1;
          continue;
        }
        motion := motion.(lastSp := e.v, armed := true, used := motion.used + 1);
        got := true;
        queue := queue[1..];
        break;
      }
      if active && !got && motion.armed {
        motion := motion.(underrun := motion.underrun + 1);
      }
    }

    /** A step above the limit is not sent: quick stop. */
    method CheckStep(base0: nat, enabling: bool, got: bool, sent: int) returns (base: nat, refused: bool)
      requires motion.lastSent == sent
      modifies this`power, this`motion
      ensures Judged(power, base, motion, refused)
              == Judge(cfg, Walk(old(power), base0, enabling), mode.req, old(motion), sent, got)
    {
      base, refused := base0, false;
      if got {
        var lim := if mode.req == CSP then cfg.maxStepPos else if mode.req == CSV then cfg.maxStepVel else 0;
        var d := motion.lastSp - sent;
        if lim != 0 && (d > lim || -d > lim) {
          power := power.(err := StepErr, target := QuickStop);
          base, refused := 0x02, true;
          motion := motion.(stepSeen := d, stepRefused := motion.stepRefused + 1, lastSp := sent, armed := false);
        }
      }
    }

    /** The target position follows the actual one until running and armed. */
    method PlaceTarget(enabling: bool, run: bool, got: bool)
      modifies this`motion
      ensures motion == Placed(cfg, mode.req, old(motion), drive.apos, enabling, run, got)
    {
      if mode.req == CSP && cfg.tpos {
        var t := motion.lastSp;
        if !run || enabling || !motion.armed {
          t := drive.apos;
          motion := motion.(armed := motion.armed && run, lastSp := t);
        }
        motion := motion.(lastSent := t);
      } else if mode.req == CSV && cfg.tvel {
        var v := if run && got then motion.lastSp else 0;
        motion := motion.(armed := motion.armed && run, lastSent := v);
      }
    }

    /** Takes a setpoint and judges its step. */
    method TakeStep(active: bool, base0: nat, enabling: bool, tick: nat) returns (base: nat, got: bool, refused: bool)
      modifies this`power, this`motion, this`queue
      ensures var r := Drain(old(queue), tick + 1, active, SKIP_MAX);
              && queue == r.rest && got == r.used.Some?
              && Judged(power, base, motion, refused)
                 == Judge(cfg, Walk(old(power), base0, enabling), mode.req, Consumed(old(motion), r, active),
                          old(motion).lastSent, r.used.Some?)
    {
      got := TakeSetpoint(active, tick);
      base, refused := CheckStep(base0, enabling, got, motion.lastSent);
    }

    /** Writes the target position or velocity. */
    method WriteTarget(base: nat, enabling: bool, run0: bool, got: bool, refused: bool)
      returns (run: bool, tpos: Option<int>, tvel: Option<int>)
      modifies this`motion
      ensures Moved(power, base, motion, run, queue, tpos, tvel)
              == Targeted(cfg, mode.req, Judged(power, base, old(motion), refused), drive.apos, enabling, run0, got,
                  queue)
    {
      run := run0 && !refused;
      PlaceTarget(enabling, run, got && !refused);
      tpos := if mode.req == CSP && cfg.tpos then Some(motion.lastSent) else None;
      tvel := if mode.req == CSV && cfg.tvel then Some(motion.lastSent) else None;
    }

    /** Cyclic setpoints: the step limit, then the target position or velocity. */
    method MoveTargets(base0: nat, enabling: bool, tick: nat)
      returns (base: nat, run: bool, tpos: Option<int>, tvel: Option<int>)
      modifies this`power, this`motion, this`queue, this`running
      ensures Moved(power, base, motion, run, queue, tpos, tvel)
              == Moving(cfg, Walk(old(power), base0, enabling), drive, mode, old(motion), old(queue), tick)
      ensures running == (old(power).target == Enabled && drive.ds == Oe && mode.ok)
    {
      running := power.target == Enabled && drive.ds == Oe && mode.ok;
      var got, refused;
      base, got, refused := TakeStep(running && (mode.req == CSP || mode.req == CSV), base0, enabling, tick);
      run, tpos, tvel := WriteTarget(base, enabling, running, got, refused);
    }

    /** The set-point handshake of PP. */
    method StepPoints(base0: nat, run: bool, tick: nat) returns (word: Control)
      requires PointsShape(pp) && mode.req == PP
      modifies this`pp, this`power
      ensures run ==>
                && pp == Handshaken(old(pp), drive.sw, tick, cfg.stepTimeout)
                && power == (if AckLate(old(pp), drive.sw, tick, cfg.stepTimeout)
                             then old(power).(err := Handshake, target := Disabled) else old(power))
      ensures !run ==> pp == old(pp).(cur := drive.apos) && power == old(power)
      ensures word == ProfileControl(cfg, base0, old(pp), pp, hm, PP, run, drive, tick)
    {
      var base := base0;
      if !run {
        pp := pp.(cur := drive.apos);
      } else if pp.phase == 0 {
        if pp.n > 0 && !drive.sw.ack && (pp.ring[pp.head].imm || drive.sw.reached) {
          pp := pp.(cur := pp.ring[pp.head].pos, flags := pp.ring[pp.head]);
          pp := pp.(head := (pp.head + 1) % 16, n := pp.n - 1);
          pp := pp.(phase := 1, since := tick, sent := pp.sent + 1);
        }
      } else if pp.phase == 1 {
        if drive.sw.ack && tick >= pp.since + 2 {
          pp := pp.(phase := 2, acked := pp.acked + 1);
        } else if tick - pp.since > cfg.stepTimeout {
          power := power.(err := Handshake, target := Disabled);
          pp := pp.(phase := 0, lost := pp.lost + 1);
          base := 0x07;
        }
      } else if !drive.sw.ack {
        pp := pp.(phase := 0);
      }
      var up := run && base == 0x0F && pp.phase == 1;
      word := Control(base, up, up && pp.flags.imm, up && pp.flags.rel);
    }

    /** Homing until attained, failed or timed out. */
    method StepHoming(tick: nat)
      requires hm.phase == HmRunning
      modifies this`hm, this`power
      ensures hm == Homed(old(hm), drive.sw, tick, cfg.homeTimeout)
      ensures power == if hm.phase == HmFailed then old(power).(err := HomingErr) else old(power)
    {
      var seen := tick >= hm.since + 2;
      if seen && !drive.sw.ack {
        hm := hm.(seenLow := true);
      }
      if seen && drive.sw.homingError {
        hm := hm.(phase := HmFailed);
        power := power.(err := HomingErr);
      } else if seen && drive.sw.ack && drive.sw.reached && (hm.seenLow || tick >= hm.since + HM_SETTLE) {
        hm := hm.(phase := HmDone, homed := true);
      } else if tick - hm.since > cfg.homeTimeout {
        hm := hm.(phase := HmFailed);
        power := power.(err := HomingErr);
      }
    }

    /** Nothing in flight survives a stop. */
    method StopProfiles()
      modifies this`pp, this`motion, this`hm, this`power
      ensures pp == Flushed(old(pp)) && motion == old(motion).(pvVel := 0) && hm == StopHoming(old(hm))
      ensures power == if old(hm).phase == HmRunning && old(power).err == NoError then old(power).(err := HomingErr)
                       else old(power)
    {
      pp := pp.(lost := pp.lost + pp.n + (if pp.phase == 1 then 1 else 0));
      pp := pp.(n := 0, phase := 0);
      motion := motion.(pvVel := 0);
      if hm.phase == HmRunning {
        hm := hm.(phase := HmFailed);
        if power.err == NoError {
          power := power.(err := HomingErr);
        }
      }
    }

    /** Profile modes; returns the controlword. */
    method StepProfiles(base: nat, run: bool, tick: nat) returns (word: Control)
      requires PointsShape(pp)
      modifies this`pp, this`motion, this`hm, this`power
      ensures pp == PointsAfter(cfg, old(pp), mode.req, run, drive, tick)
      ensures hm == HomingAfter(cfg, old(hm), mode.req, run, drive, tick)
      ensures power == ProfileErrors(cfg, old(power), old(pp), old(hm), mode.req, run, drive, tick)
      ensures motion == if run then old(motion) else old(motion).(pvVel := 0)
      ensures word == ProfileControl(cfg, base, old(pp), pp, hm, mode.req, run, drive, tick)
    {
      word := Control(base, false, false, false);
      if !run {
        StopProfiles();
      }
      if mode.req == PP {
        word := StepPoints(base, run, tick);
      } else if mode.req == HM && run && hm.phase == HmRunning {
        StepHoming(tick);
        if hm.phase == HmRunning && base == 0x0F {
          word := Control(base, true, false, false);
        }
      }
    }

    /** Inputs, latches and the controlword command. */
    method Supervise(i: Input, tick: nat) returns (base: nat, enabling: bool)
      modifies this`drive, this`mode, this`power
      ensures Front(drive, mode, Walk(power, base, enabling)) == Supervised(cfg, old(View()), i, tick)
    {
      ReadInputs(i);
      LatchErrors(i);
      base, enabling := WalkStates(i.busLost, tick);
    }

    /** Setpoints, profile modes and the outputs for the next frame. */
    method WriteOutputs(base0: nat, enabling: bool, tick: nat) returns (out: Output)
      requires PointsShape(pp)
      modifies this`power, this`motion, this`queue, this`running, this`pp, this`hm, this`cw
      ensures Ticked(View(), queue, out)
              == Written(cfg, old(View()), Front(drive, mode, Walk(old(power), base0, enabling)), old(queue), tick)
    {
      var base, run, tpos, tvel := MoveTargets(base0, enabling, tick);
      var word := StepProfiles(base, run, tick);
      if mode.req == PP && cfg.tpos {
        tpos := Some(pp.cur);
      }
      if mode.req == PV && cfg.tvel {
        tvel := Some(motion.pvVel);
      }
      out := Output(tpos, tvel, if cfg.modeOut then Some(mode.req) else None, word);
      cw := word;
    }

    /** The hook of one tick for this axis. */
    method Rt(i: Input, tick: nat) returns (out: Output)
      requires PointsShape(pp)
      modifies this
      ensures Ticked(View(), queue, out) == Tick(cfg, old(View()), old(queue), i, tick)
    {
      var base, enabling := Supervise(i, tick);
      if i.busLost {
        return NoOutput;
      }
      out := WriteOutputs(base, enabling, tick);
    }
  }
}
