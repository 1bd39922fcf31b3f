/** The distributed-clock phase lock: 32-bit unwrap, reply-age gate, phase
    error, clamped PI with anti-windup, and lock supervision.

    Times are unbounded integers; the 32-bit counter, C division (towards
    zero) and the floor division of the source are written out. */
module DcLoop {
  import opened Arith

  const RESYNC: int := 3
  const RESYNC_REUSE: int := 256

  // ---- C arithmetic --------------------------------------------------------

  /** Division truncating towards zero. */
  function TDiv(a: int, b: int): (q: int)
    requires b > 0
  {
    if a >= 0 then a / b else -((-a) / b)
  }

  function TMod(a: int, b: int): (r: int)
    requires b > 0
  {
    if a >= 0 then a % b else -((-a) % b)
  }

  function FloorDiv(a: int, b: int): (q: int)
    requires b > 0
    ensures q == a / b
  {
    TruncVersusFloor(a, b);
    if TMod(a, b) != 0 && a < 0 then TDiv(a, b) - 1 else TDiv(a, b)
  }

  function PosMod(a: int, b: int): (r: int)
    requires b > 0
    ensures r == a % b
  {
    TruncVersusFloor(a, b);
    if TMod(a, b) < 0 then TMod(a, b) + b else TMod(a, b)
  }

  lemma TruncVersusFloor(a: int, b: int)
    requires b > 0
    ensures TMod(a, b) == 0 || a >= 0 ==> TDiv(a, b) == a / b && TMod(a, b) == a % b
    ensures TMod(a, b) != 0 && a < 0 ==> TDiv(a, b) == a / b + 1 && TMod(a, b) == a % b - b
  {
    if a < 0 {
      var q, r := (-a) / b, (-a) % b;
      assert -a == q * b + r;
      assert TMod(a, b) == -r;
      if r == 0 {
        assert a == (-q) * b + 0;
        DivModUnique(a, b, -q, 0);
      } else {
        assert a == (-q - 1) * b + (b - r);
        DivModUnique(a, b, -q - 1, b - r);
      }
    }
  }

  // ---- state ---------------------------------------------------------------

  datatype Cfg = Cfg(cycle: int, setpoint: int, kp: int, ki: int, maxAdjust: int,
                     lockWindow: int, lockSamples: int, unlock: int, gate: int, gateReuse: int)

  predicate CfgOk(c: Cfg) {
    c.cycle > 0 && 0 <= c.setpoint < c.cycle && c.kp > 0 && c.ki > 0 && c.maxAdjust >= 0
  }

  function DefaultCfg(cycle: int, setpoint: int): (c: Cfg)
    requires cycle > 0
    ensures CfgOk(c)
  {
    Cfg(cycle, PosMod(setpoint, cycle), 8, 256, cycle / 20, cycle / 100, 100, cycle / 20, 0, 0)
  }

  datatype Phase = Unanchored | Acquire | Locked

  /** Unwrapped reference time and the last accepted sample. */
  datatype Clock = Clock(prevLo: int, prevHost: int, ext: int, sync0: int, wraps: int, samples: nat)
  datatype Servo = Servo(integ: int, err: int, adjust: int, clamps: nat)
  datatype Window = Window(sum: int, n: nat, locks: nat, unlocks: nat)
  datatype Gate = Gate(run: nat, rejected: bool, implausible: nat, resyncs: nat, reuseHeld: nat)

  datatype Loop = Loop(cfg: Cfg, phase: Phase, clock: Clock, servo: Servo, win: Window, gate: Gate, stale: nat)

  function Initial(c: Cfg): Loop {
    Loop(c, Unanchored, Clock(0, 0, 0, 0, 0, 0), Servo(0, 0, 0, 0), Window(0, 0, 0, 0), Gate(0, false, 0, 0, 0), 0)
  }

  function Lo(raw: int): (lo: int)
    ensures 0 <= lo < 0x1_0000_0000
  {
    raw % 0x1_0000_0000
  }

  /** A 32-bit difference read as a signed number. */
  function Signed32(x: int): (r: int)
    ensures -0x8000_0000 <= r < 0x8000_0000 && Lo(r) == Lo(x)
  {
    if Lo(x) < 0x8000_0000 then Lo(x) else Lo(x) - 0x1_0000_0000
  }

  function Anchored(d: Loop, raw: int, sync0Raw: int, host: int): Loop {
    var lo := Lo(raw);
    d.(clock := d.clock.(ext := lo, sync0 := lo + Signed32(Lo(sync0Raw) - lo), prevLo := lo, prevHost := host),
       win := d.win.(sum := 0, n := 0), phase := Acquire)
  }

  /** Reference time elapsed since the last accepted sample, with the number of
      wraps picked so that it is nearest to the elapsed host time. */
  function Delta(c: Clock, lo: int, host: int): int {
    var pred, dLo := host - c.prevHost, Lo(lo - c.prevLo);
    dLo + FloorDiv(pred - dLo + 0x8000_0000, 0x1_0000_0000) * 0x1_0000_0000
  }

  /** The reply-age gate; `rejected` tells whether the sample was refused.
      `smiss` is how far reference time moved ahead of host time. */
  function Gated(c: Cfg, g: Gate, smiss: int): Gate {
    if c.gate > 0 && Abs(smiss) > c.gate then
      var reuse := c.gateReuse > 0 && smiss < -2 * c.gate && Abs(smiss) <= c.gateReuse;
      var limit := if reuse then RESYNC_REUSE else RESYNC;
      var run := g.run + 1;
      var held := if reuse && RESYNC <= run < limit then g.reuseHeld + 1 else g.reuseHeld;
      if run < limit then g.(run := run, reuseHeld := held, implausible := g.implausible + 1, rejected := true)
      else g.(run := 0, reuseHeld := held, resyncs := g.resyncs + 1, rejected := false)
    else g.(run := 0, rejected := false)
  }

  function Unwrapped(c: Clock, lo: int, host: int): Clock {
    var ext := c.ext + Delta(c, lo, host);
    c.(ext := ext, wraps := c.wraps + (ext / 0x1_0000_0000 - c.ext / 0x1_0000_0000),
       prevLo := lo, prevHost := host, samples := c.samples + 1)
  }

  /** Phase error in the half-open window around zero. */
  function PhaseError(c: Cfg, x: int): int
    requires c.cycle > 0
  {
    var e := PosMod(x, c.cycle) - c.setpoint;
    var e1 := if e > TDiv(c.cycle, 2) then e - c.cycle else e;
    if e1 <= TDiv(-c.cycle, 2) then e1 + c.cycle else e1
  }

  /** PI with clamp; a clamped step takes its own contribution out again. */
  function Controlled(c: Cfg, locked: bool, s: Servo, e: int): Servo
    requires CfgOk(c)
  {
    var integ := if locked then s.integ + e else s.integ;
    var u := -(TDiv(e, c.kp) + TDiv(integ, c.ki));
    if u > c.maxAdjust || u < -c.maxAdjust then
      Servo(if locked then integ - e else integ, e, if u > 0 then c.maxAdjust else -c.maxAdjust, s.clamps + 1)
    else Servo(integ, e, u, s.clamps)
  }

  /** Lock supervision on the mean of each window. */
  function Supervised(d: Loop): Loop {
    var sum, n := d.win.sum + d.servo.err, d.win.n + 1;
    if n >= d.cfg.lockSamples then
      var mean := Abs(TDiv(sum, n));
      var w := d.win.(sum := 0, n := 0);
      if d.phase.Acquire? && mean < d.cfg.lockWindow then d.(phase := Locked, win := w.(locks := w.locks + 1))
      else if d.phase.Locked? && mean > d.cfg.unlock then d.(phase := Acquire, win := w.(unlocks := w.unlocks + 1))
      else d.(win := w)
    else d.(win := d.win.(sum := sum, n := n))
  }

  function Abs(x: int): nat {
    if x < 0 then -x else x
  }

  /** An accepted sample: unwrap, error, control, supervision. */
  function Taken(d: Loop, lo: int, host: int): Loop
    requires CfgOk(d.cfg)
  {
    var clock := Unwrapped(d.clock, lo, host);
    var servo := Controlled(d.cfg, d.phase.Locked?, d.servo, PhaseError(d.cfg, clock.ext - clock.sync0));
    Supervised(d.(clock := clock, servo := servo))
  }

  function Miss(c: Clock, lo: int, host: int): int {
    Delta(c, lo, host) - (host - c.prevHost)
  }

  /** One call of the update; the value returned to the caller is `adjust`. */
  function Updated(d: Loop, raw: int, host: int): (r: Loop)
    requires CfgOk(d.cfg)
    ensures r.cfg == d.cfg
  {
    var lo := Lo(raw);
    if d.phase.Unanchored? then d
    else if lo == d.clock.prevLo then d.(stale := d.stale + 1, servo := d.servo.(adjust := 0))
    else
      var g := Gated(d.cfg, d.gate, Miss(d.clock, lo, host));
      if g.rejected then d.(gate := g, servo := d.servo.(adjust := 0))
      else Taken(d.(gate := g), lo, host)
  }

  /** Whether an update uses its sample. */
  predicate Accepts(d: Loop, raw: int, host: int) {
    !d.phase.Unanchored? && Lo(raw) != d.clock.prevLo
    && !Gated(d.cfg, d.gate, Miss(d.clock, Lo(raw), host)).rejected
  }

  datatype Sample = Sample(ref: int, host: int)

  /** A whole run of samples; `ref` is the reference time, of which only the low
      32 bits are read. */
  function Run(d: Loop, ss: seq<Sample>): (r: Loop)
    requires CfgOk(d.cfg)
    ensures r.cfg == d.cfg
  {
    if ss == [] then d
    else Updated(Run(d, ss[..|ss| - 1]), ss[|ss| - 1].ref, ss[|ss| - 1].host)
  }

  // ---- the imperative code -------------------------------------------------

  class Dc {
    const cfg: Cfg
    var phase: Phase
    var clock: Clock
    var servo: Servo
    var win: Window
    var gate: Gate
    var stale: nat

    ghost function View(): Loop
      reads this
    {
      Loop(cfg, phase, clock, servo, win, gate, stale)
    }

    constructor (c: Cfg)
      ensures View() == Initial(c)
    {
      cfg, phase, stale := c, Unanchored, 0;
      clock, servo := Clock(0, 0, 0, 0, 0, 0), Servo(0, 0, 0, 0);
      win, gate := Window(0, 0, 0, 0), Gate(0, false, 0, 0, 0);
    }

    method Anchor(raw: int, sync0Raw: int, host: int)
      modifies this
      ensures View() == Anchored(old(View()), raw, sync0Raw, host)
    {
      var lo, s0 := Lo(raw), Lo(sync0Raw);
      clock := clock.(ext := lo);
      clock := clock.(sync0 := clock.ext + Signed32(s0 - lo), prevLo := lo, prevHost := host);
      win := win.(sum := 0, n := 0);
      phase := Acquire;
    }

    /** Counts and decides; true if the sample is refused. */
    method CheckAge(lo: int, host: int) returns (refused: bool)
      modifies this`gate
      ensures gate == Gated(cfg, old(gate), Miss(clock, lo, host)) && refused == gate.rejected
    {
      var pred := host - clock.prevHost;
      var dLo := Lo(lo - clock.prevLo);
      var k := FloorDiv(pred - dLo + 0x8000_0000, 0x1_0000_0000);
      var smiss := dLo + k * 0x1_0000_0000 - pred;
      var miss := if smiss < 0 then -smiss else smiss;
      gate := gate.(rejected := false);
      if cfg.gate > 0 && miss > cfg.gate {
        var reuse := cfg.gateReuse > 0 && smiss < -2 * cfg.gate && miss <= cfg.gateReuse;
        var limit := if reuse then RESYNC_REUSE else RESYNC;
        gate := gate.(run := gate.run + 1);
        if reuse && gate.run >= RESYNC && gate.run < limit {
          gate := gate.(reuseHeld := gate.reuseHeld + 1);
        }
        if gate.run < limit {
          gate := gate.(implausible := gate.implausible + 1, rejected := true);
          return true;
        }
        gate := gate.(resyncs := gate.resyncs + 1);
      }
      gate := gate.(run := 0);
      refused := false;
    }

    method Unwrap(lo: int, host: int)
      modifies this`clock
      ensures clock == Unwrapped(old(clock), lo, host)
    {
      var pred := host - clock.prevHost;
      var dLo := Lo(lo - clock.prevLo);
      var k := FloorDiv(pred - dLo + 0x8000_0000, 0x1_0000_0000);
      var delta := dLo + k * 0x1_0000_0000;
      var was := clock.ext;
      clock := clock.(ext := was + delta);
      clock := clock.(wraps := clock.wraps + (clock.ext / 0x1_0000_0000 - was / 0x1_0000_0000));
      clock := clock.(prevLo := lo, prevHost := host, samples := clock.samples + 1);
    }

    method Error() returns (e: int)
      requires CfgOk(cfg)
      ensures e == PhaseError(cfg, clock.ext - clock.sync0)
    {
      e := PosMod(clock.ext - clock.sync0, cfg.cycle) - cfg.setpoint;
      if e > TDiv(cfg.cycle, 2) {
        e := e - cfg.cycle;
      }
      if e <= TDiv(-cfg.cycle, 2) {
        e := e + cfg.cycle;
      }
    }

    method Control(e: int)
      requires CfgOk(cfg)
      modifies this`servo
      ensures servo == Controlled(cfg, phase.Locked?, old(servo), e)
    {
      servo := servo.(err := e);
      if phase.Locked? {
        servo := servo.(integ := servo.integ + e);
      }
      var u := -(TDiv(e, cfg.kp) + TDiv(servo.integ, cfg.ki));
      if u > cfg.maxAdjust || u < -cfg.maxAdjust {
        u := if u > 0 then cfg.maxAdjust else -cfg.maxAdjust;
        servo := servo.(clamps := servo.clamps + 1);
        if phase.Locked? {
          servo := servo.(integ := servo.integ - e);
        }
      }
      servo := servo.(adjust := u);
    }

    method Supervise()
      modifies this`win, this`phase
      ensures View() == Supervised(old(View()))
    {
      win := win.(sum := win.sum + servo.err, n := win.n + 1);
      if win.n >= cfg.lockSamples {
        var mean := Abs(TDiv(win.sum, win.n));
        if phase.Acquire? && mean < cfg.lockWindow {
          phase, win := Locked, win.(locks := win.locks + 1);
        } else if phase.Locked? && mean > cfg.unlock {
          phase, win := Acquire, win.(unlocks := win.unlocks + 1);
        }
        win := win.(sum := 0, n := 0);
      }
    }

    method Update(raw: int, host: int) returns (u: int)
      requires CfgOk(cfg)
      modifies this
      ensures View() == Updated(old(View()), raw, host)
      ensures u == if old(phase).Unanchored? then 0 else servo.adjust
    {
      if phase.Unanchored? {
        return 0;
      }
      var lo := Lo(raw);
      if lo == clock.prevLo {
        stale := stale + 1;
        servo := servo.(adjust := 0);
        return 0;
      }
      var refused := CheckAge(lo, host);
      if refused {
        servo := servo.(adjust := 0);
        return 0;
      }
      Unwrap(lo, host);
      var e := Error();
      Control(e);
      Supervise();
      u := servo.adjust;
    }
  }
}
