/** The bus state machine RUN / DEGRADED / LOST / RECOVER. */
module Bus {

  datatype BusState = Run | Degraded | Lost | Recover

  /** Working-counter classes of a cycle. */
  datatype Wkc = Ok | NoFrame | Zero | Partial | Over

  datatype Cfg = Cfg(nLost: nat, probeTicks: nat, backoff: nat)

  datatype Fsm = Fsm(cfg: Cfg, state: BusState, noframeRun: nat, ioOk: bool, since: nat, nextProbe: nat,
                     entered: map<BusState, nat>)

  /** Whether the IO group was serviced this tick, and how it went. */
  datatype IoClass = NotServiced | Serviced(wkc: Wkc)

  datatype Input =
    | Cycle(motion: Wkc, io: IoClass)
    | Probe(wkc: int)
    | RecoverDone(ok: bool)

  function Start(c: Cfg): (f: Fsm)
    ensures f.cfg.nLost > 0 && f.cfg.probeTicks > 0
  {
    var d := Cfg(if c.nLost == 0 then 1 else c.nLost, if c.probeTicks == 0 then 1 else c.probeTicks, c.backoff);
    Fsm(d, Run, 0, true, 0, 0, map[Run := 1, Degraded := 0, Lost := 0, Recover := 0])
  }

  function Go(f: Fsm, tick: nat, to: BusState): Fsm {
    f.(state := to, since := tick, entered := f.entered[to := (if to in f.entered then f.entered[to] else 0) + 1])
  }

  predicate Cyclic(s: BusState) {
    s == Run || s == Degraded
  }

  function OnCycle(f: Fsm, tick: nat, motion: Wkc, io: IoClass): Fsm {
    if !Cyclic(f.state) then f
    else
      var g := f.(noframeRun := if motion == NoFrame then f.noframeRun + 1 else 0,
                  ioOk := if io.Serviced? then io.wkc == Ok else f.ioOk);
      if g.noframeRun >= g.cfg.nLost then Go(g.(nextProbe := tick + 1), tick, Lost)
      else
        var bad := motion != Ok || !g.ioOk;
        if g.state == Run && bad then Go(g, tick, Degraded)
        else if g.state == Degraded && !bad then Go(g, tick, Run)
        else g
  }

  predicate ProbeDue(f: Fsm, tick: nat) {
    f.state == Lost && tick >= f.nextProbe
  }

  function OnProbe(f: Fsm, tick: nat, wkc: int): Fsm {
    if f.state != Lost then f
    else if wkc > 0 then Go(f, tick, Recover)
    else f.(nextProbe := tick + f.cfg.probeTicks)
  }

  function OnRecoverDone(f: Fsm, tick: nat, ok: bool): Fsm {
    if f.state != Recover then f
    else
      var g := f.(noframeRun := 0, ioOk := true);
      if ok then Go(g, tick, Run) else Go(g.(nextProbe := tick + f.cfg.backoff), tick, Lost)
  }

  function Apply(f: Fsm, tick: nat, i: Input): Fsm {
    match i
    case Cycle(motion, io) => OnCycle(f, tick, motion, io)
    case Probe(wkc) => OnProbe(f, tick, wkc)
    case RecoverDone(ok) => OnRecoverDone(f, tick, ok)
  }

  // ---- whole runs ----------------------------------------------------------

  /** The machine after any inputs at any ticks. */
  function RunOf(c: Cfg, ins: seq<(nat, Input)>): Fsm {
    if ins == [] then Start(c) else Apply(RunOf(c, ins[..|ins| - 1]), ins[|ins| - 1].0, ins[|ins| - 1].1)
  }

  /** Motion classes of the cycles accounted since the bus last came (back) up:
      only cycles in a cyclic state count, and a finished recovery starts over. */
  ghost function Accounted(c: Cfg, ins: seq<(nat, Input)>): seq<Wkc> {
    if ins == [] then []
    else
      var pre := ins[..|ins| - 1];
      Account(Accounted(c, pre), RunOf(c, pre).state, ins[|ins| - 1].1)
  }

  ghost function Account(ws: seq<Wkc>, s: BusState, i: Input): seq<Wkc> {
    match i
    case Cycle(motion, _) => if Cyclic(s) then ws + [motion] else ws
    case Probe(_) => ws
    case RecoverDone(_) => if s == Recover then [] else ws
  }

  /** The last n classes are all "no frame". */
  ghost predicate EndsWithNoFrames(ws: seq<Wkc>, n: nat) {
    n <= |ws| && forall i | |ws| - n <= i < |ws| :: ws[i] == NoFrame
  }

  ghost predicate Counts(f: Fsm, ws: seq<Wkc>) {
    && EndsWithNoFrames(ws, f.noframeRun)
    && (Cyclic(f.state) ==> f.noframeRun < f.cfg.nLost)
    && (|ws| > f.noframeRun ==> ws[|ws| - f.noframeRun - 1] != NoFrame)
  }

  lemma CountsNext(f: Fsm, ws: seq<Wkc>, tick: nat, i: Input)
    requires Counts(f, ws) && f.cfg.nLost > 0
    ensures Apply(f, tick, i).cfg == f.cfg && Counts(Apply(f, tick, i), Account(ws, f.state, i))
  {
  }

  /** The run counter is the exact length of the current run of missing frames, and
      below the limit while cyclic. */
  lemma {:induction false} RunCounterExact(c: Cfg, ins: seq<(nat, Input)>)
    ensures RunOf(c, ins).cfg == Start(c).cfg && Counts(RunOf(c, ins), Accounted(c, ins))
  {
    if ins == [] {
    } else {
      var pre, n := ins[..|ins| - 1], |ins| - 1;
      RunCounterExact(c, pre);
      CountsNext(RunOf(c, pre), Accounted(c, pre), ins[n].0, ins[n].1);
    }
  }

  lemma LostNow(f: Fsm, ws: seq<Wkc>, tick: nat, i: Input)
    requires Counts(f, ws) && Cyclic(f.state)
    ensures Apply(f, tick, i).state == Lost <==> i.Cycle? && EndsWithNoFrames(ws + [i.motion], f.cfg.nLost)
  {
    if i.Cycle? {
      var n, all := f.cfg.nLost, ws + [i.motion];
      if i.motion == NoFrame && f.noframeRun + 1 < n {
        assert n <= |all| ==> all[|all| - f.noframeRun - 2] != NoFrame;
      }
      if i.motion != NoFrame {
        assert all[|all| - 1] != NoFrame;
      }
    }
  }

  /** From the cyclic states the bus is declared lost exactly when the last
      nLost accounted cycles all had no motion frame. */
  lemma LostExactly(c: Cfg, ins: seq<(nat, Input)>, tick: nat, i: Input)
    requires Cyclic(RunOf(c, ins).state)
    ensures RunOf(c, ins + [(tick, i)]).state == Lost
            <==> i.Cycle? && EndsWithNoFrames(Accounted(c, ins) + [i.motion], Start(c).cfg.nLost)
  {
    RunCounterExact(c, ins);
    assert (ins + [(tick, i)])[..|ins|] == ins;
    LostNow(RunOf(c, ins), Accounted(c, ins), tick, i);
  }

  /** The last result of the IO group since the bus last came (back) up was good. */
  ghost predicate IoGood(c: Cfg, ins: seq<(nat, Input)>) {
    ins == [] ||
    var pre := ins[..|ins| - 1];
    var s := RunOf(c, pre).state;
    match ins[|ins| - 1].1
    case Cycle(_, io) => if Cyclic(s) && io.Serviced? then io.wkc == Ok else IoGood(c, pre)
    case Probe(_) => IoGood(c, pre)
    case RecoverDone(_) => s == Recover || IoGood(c, pre)
  }

  /** While cyclic, the bus is in RUN rather than DEGRADED exactly if the last
      motion cycle and the last IO result were both good. */
  lemma {:induction false} RunMeansHealthy(c: Cfg, ins: seq<(nat, Input)>)
    ensures var f, ws := RunOf(c, ins), Accounted(c, ins);
            && f.ioOk == IoGood(c, ins)
            && (Cyclic(f.state) ==> (f.state == Run <==> (ws == [] || ws[|ws| - 1] == Ok) && IoGood(c, ins)))
  {
    if ins == [] {
    } else {
      RunMeansHealthy(c, ins[..|ins| - 1]);
    }
  }

  /** Once lost, the bus is cyclic again only after a recovery that succeeded. */
  lemma {:induction false} RunOnlyAfterRecovery(c: Cfg, ins: seq<(nat, Input)>, js: seq<(nat, Input)>)
    requires RunOf(c, ins).state == Lost && Cyclic(RunOf(c, ins + js).state)
    ensures exists k | 0 <= k < |js| :: js[k].1 == RecoverDone(true) && RunOf(c, ins + js[..k]).state == Recover
  {
    assert js == [] ==> ins + js == ins;
    if js != [] {
      var n := |js| - 1;
      var pre := js[..n];
      assert (ins + js)[..|ins + js| - 1] == ins + pre;
      var f := RunOf(c, ins + pre);
      if Cyclic(f.state) {
        RunOnlyAfterRecovery(c, ins, pre);
        var k :| 0 <= k < |pre| && pre[k].1 == RecoverDone(true) && RunOf(c, ins + pre[..k]).state == Recover;
        assert pre[..k] == js[..k] && js[k] == pre[k];
      } else {
        assert js[n].1 == RecoverDone(true);
      }
    }
  }

  // ---- the imperative code -------------------------------------------------

  class BusFsm {
    const cfg: Cfg
    var state: BusState
    var noframeRun: nat
    var ioOk: bool
    var since: nat
    var nextProbe: nat
    var entered: map<BusState, nat>

    ghost function View(): Fsm
      reads this
    {
      Fsm(cfg, state, noframeRun, ioOk, since, nextProbe, entered)
    }

    constructor (c: Cfg)
      ensures View() == Start(c)
    {
      cfg := Cfg(if c.nLost == 0 then 1 else c.nLost, if c.probeTicks == 0 then 1 else c.probeTicks, c.backoff);
      state, noframeRun, ioOk, since, nextProbe := Run, 0, true, 0, 0;
      entered := map[Run := 1, Degraded := 0, Lost := 0, Recover := 0];
    }

    method Enter(tick: nat, to: BusState)
      modifies this`state, this`since, this`entered
      ensures View() == Go(old(View()), tick, to)
    {
      state := to;
      since := tick;
      entered := entered[to := (if to in entered then entered[to] else 0) + 1];
    }

    method Cycle(tick: nat, motion: Wkc, io: IoClass) returns (changed: bool)
      modifies this
      ensures View() == OnCycle(old(View()), tick, motion, io)
      ensures changed <==> state != old(state)
    {
      if state != Run && state != Degraded {
        return false;
      }
      noframeRun := if motion == NoFrame then noframeRun + 1 else 0;
      if io.Serviced? {
        ioOk := io.wkc == Ok;
      }
      if noframeRun >= cfg.nLost {
        nextProbe := tick + 1;
        Enter(tick, Lost);
        return true;
      }
      var bad := motion != Ok || !ioOk;
      if state == Run && bad {
        Enter(tick, Degraded);
        return true;
      }
      if state == Degraded && !bad {
        Enter(tick, Run);
        return true;
      }
      changed := false;
    }

    method Probe(tick: nat, wkc: int) returns (changed: bool)
      modifies this
      ensures View() == OnProbe(old(View()), tick, wkc)
      ensures changed <==> state != old(state)
    {
      if state != Lost {
        return false;
      }
      if wkc > 0 {
        Enter(tick, Recover);
        return true;
      }
      nextProbe := tick + cfg.probeTicks;
      changed := false;
    }

    method RecoverDone(tick: nat, ok: bool) returns (changed: bool)
      modifies this
      ensures View() == OnRecoverDone(old(View()), tick, ok)
      ensures changed <==> state != old(state)
    {
      if state != Recover {
        return false;
      }
      noframeRun := 0;
      ioOk := true;
      if ok {
        Enter(tick, Run);
      } else {
        nextProbe := tick + cfg.backoff;
        Enter(tick, Lost);
      }
      changed := true;
    }
  }
}
