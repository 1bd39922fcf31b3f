/** The shutdown walk-down (latch S6): when an axis comes down after the shutdown
    request, and when a quick stop holds it up. */
module AxisShutdown {
  import opened Axis
  import opened AxisPlant

  /** The states the quick stop command applies to. */
  predicate Stoppable(d: Ds) {
    d == Oe || d == Qsa
  }

  /** What the shutdown wait asks of an axis. */
  predicate Down(a: Axis) {
    a.drive.ds !in {Rtso, So, Oe, Qsa}
  }

  /** The latches and the walk for an axis that is not to be enabled. */
  lemma StopWalk(p: Power, ds: Ds, modeOk: bool, i: Input, tick: nat, limit: nat, w: Walk)
    requires p.target != Enabled && !i.busLost && w == Walked(Latched(p, ds, i), ds, modeOk, false, tick, limit)
    ensures w.power.target == if i.ext != NoError || !Stoppable(ds) then Disabled else p.target
    ensures w.base == PulseOver(Command(if i.ext != NoError then Disabled else p.target, ds, false), p.pulse)
  {
  }

  /** A cycle at an axis that is not to be enabled: the state seen, the target and
      the command that goes out. */
  lemma CycleEffect(c: Cfg, p: Plant, h: Happening, seen: Ds, r: Plant)
    requires FaultsAreDown(p) && TargetOf(p) != Enabled && h.Cycle? && r == Next(c, p, h)
    requires seen == if h.valid then DriveAfter(p, h) else Seen(p)
    ensures Seen(r) == seen && r.d == DriveAfter(p, h) && r.world.shutdown == p.world.shutdown
    ensures TargetOf(r) == if h.input.ext != NoError || !Stoppable(seen) then Disabled else TargetOf(p)
    ensures r.image == PulseOver(Command(if h.input.ext != NoError then Disabled else TargetOf(p), seen, false),
                                 p.world.axis.power.pulse)
  {
    var a, i := p.world.axis, EventOf(p, h).input;
    var f := Supervised(c, a, i, h.tick);
    TickPulse(c, a, p.world.queue, i, h.tick, f);
    StopWalk(a.power, f.drive.ds, f.mode.ok, i, h.tick, c.stepTimeout, f.walk);
    TickImage(c, a, p.world.queue, i, h.tick, f);
  }

  /** A command or a setpoint: only a quick stop changes the target of an axis
      that is shut down, except to Disabled. */
  lemma OtherEffect(c: Cfg, p: Plant, h: Happening, r: Plant)
    requires FaultsAreDown(p) && p.world.shutdown && TargetOf(p) != Enabled
    requires (h.Order? || h.Push?) && r == Next(c, p, h)
    ensures Seen(r) == Seen(p) && r.d == p.d && r.image == p.image && r.world.shutdown
    ensures TargetOf(r) == if !h.Order? then TargetOf(p)
                           else if h.op == Quick then QuickStop
                           else if h.op == Disable || h.op == FaultReset then Disabled
                           else TargetOf(p)
  {
  }

  lemma OutageEffect(c: Cfg, p: Plant, h: Happening, r: Plant)
    requires FaultsAreDown(p) && p.world.shutdown && TargetOf(p) != Enabled && h.Outage? && r == Next(c, p, h)
    ensures TargetOf(r) == Disabled && r.world.shutdown
  {
  }

  // ---- after shutdown the axis never wants to be enabled -------------------

  ghost predicate Stopping(p: Plant) {
    FaultsAreDown(p) && p.world.shutdown && TargetOf(p) != Enabled
  }

  /** What a happening does to a plant that is shut down. */
  ghost predicate Moves(p: Plant, h: Happening, r: Plant) {
    && Stopping(r)
    && match h
       case Cycle(_, valid, _, input, _) =>
         var seen := if valid then DriveAfter(p, h) else Seen(p);
         && Seen(r) == seen && r.d == DriveAfter(p, h)
         && TargetOf(r) == (if input.ext != NoError || !Stoppable(seen) then Disabled else TargetOf(p))
         && r.image == PulseOver(Command(if input.ext != NoError then Disabled else TargetOf(p), seen, false),
                                 p.world.axis.power.pulse)
       case Outage(_, _, _) => TargetOf(r) == Disabled
       case Order(op, _, _, _) =>
         && Seen(r) == Seen(p) && r.d == p.d && r.image == p.image
         && TargetOf(r) == (if op == Quick then QuickStop
                            else if op == Disable || op == FaultReset then Disabled else TargetOf(p))
       case Push(_) => Seen(r) == Seen(p) && r.d == p.d && r.image == p.image && TargetOf(r) == TargetOf(p)
  }

  lemma NextMoves(c: Cfg, p: Plant, h: Happening)
    requires Stopping(p)
    ensures Moves(p, h, Next(c, p, h))
  {
    KeepsFaultsDown(c, p, h);
    match h
    case Cycle(_, valid, _, _, _) =>
      CycleEffect(c, p, h, if valid then DriveAfter(p, h) else Seen(p), Next(c, p, h));
    case Outage(_, _, _) => OutageEffect(c, p, h, Next(c, p, h));
    case _ => OtherEffect(c, p, h, Next(c, p, h));
  }

  lemma {:induction false} RunKeepsStopping(c: Cfg, p: Plant, hs: seq<Happening>)
    requires Stopping(p)
    ensures Stopping(After(c, p, hs))
    decreases |hs|
  {
    if hs == [] {
    } else {
      NextMoves(c, p, hs[0]);
      RunKeepsStopping(c, Next(c, p, hs[0]), hs[1..]);
    }
  }

  // ---- going down ----------------------------------------------------------

  /** Where the drive can be when the master last saw `seen` and has been
      answering it with walk-down commands since. */
  predicate Ahead(seen: Ds, d: Ds) {
    || d == seen || d == Fra || d == Fault
    || (seen == Oe && d == So) || (seen == So && (d == Rtso || d == Sod))
    || ((seen == Rtso || seen == Qsa) && d == Sod)
    || (Rank(seen) == 0 && Rank(d) == 0)
  }

  /** The answers of the walk-down; Switched on is answered once with Disable
      voltage when a quick stop has just ended there. */
  predicate WalkDownImage(seen: Ds, d: Ds, cw: nat) {
    if seen == Oe then cw == 0x07
    else if seen == So then cw == 0x06 || (cw == 0x00 && d != Rtso)
    else if Rank(seen) == 1 then cw == 0x00
    else VoltageOff(cw)
  }

  /** On the way down. */
  ghost predicate GoingDown(p: Plant) {
    Stopping(p) && TargetOf(p) == Disabled && Ahead(Seen(p), p.d) && WalkDownImage(Seen(p), p.d, p.image)
  }

  /** Work left, from the state seen and the state of the drive. */
  function Work(seen: Ds, d: Ds): nat {
    if seen == So && d == Sod then 4 else 2 * Rank(d) + (if Rank(seen) != Rank(d) then 1 else 0)
  }

  lemma DriveGoesDown(seen: Ds, d: Ds, cw: nat)
    requires Ahead(seen, d) && WalkDownImage(seen, d, cw)
    ensures var e := Respond(d, cw); Ahead(seen, e) && Work(seen, e) <= Work(seen, d) && Work(e, e) <= Work(seen, d)
    ensures Work(seen, d) > 0 ==> Work(Respond(d, cw), Respond(d, cw)) < Work(seen, d)
    ensures Work(d, d) <= Work(seen, d)
  {
  }

  /** A cycle keeps the walk-down going, never undoes work, and does some whenever
      both directions of the frame arrive. */
  lemma CycleWorks(p: Plant, h: Happening, r: Plant)
    requires GoingDown(p) && h.Cycle? && Moves(p, h, r)
    ensures GoingDown(r) && Work(Seen(r), r.d) <= Work(Seen(p), p.d)
    ensures h.delivered && h.valid && Work(Seen(p), p.d) > 0 ==> Work(Seen(r), r.d) < Work(Seen(p), p.d)
  {
    DriveGoesDown(Seen(p), p.d, p.image);
  }

  predicate Good(h: Happening) {
    h.Cycle? && h.delivered && h.valid
  }

  function GoodCycles(hs: seq<Happening>): nat {
    if hs == [] then 0 else GoodCycles(hs[1..]) + (if Good(hs[0]) then 1 else 0)
  }

  predicate BusUp(hs: seq<Happening>) {
    forall k | 0 <= k < |hs| :: !hs[k].Outage?
  }

  predicate NoQuick(hs: seq<Happening>) {
    forall k | 0 <= k < |hs| :: hs[k].Order? ==> hs[k].op != Quick
  }

  /** The work runs out with the cycles whose frames arrive both ways. */
  lemma {:induction false} WorkRunsOut(c: Cfg, p: Plant, hs: seq<Happening>)
    requires GoingDown(p) && BusUp(hs) && NoQuick(hs)
    ensures var r := After(c, p, hs);
            && GoingDown(r)
            && (Work(Seen(r), r.d) == 0 || Work(Seen(r), r.d) + GoodCycles(hs) <= Work(Seen(p), p.d))
    decreases |hs|
  {
    if hs == [] {
    } else {
      var r := Next(c, p, hs[0]);
      NextMoves(c, p, hs[0]);
      if hs[0].Cycle? {
        CycleWorks(p, hs[0], r);
      }
      WorkRunsOut(c, r, hs[1..]);
    }
  }

  // ---- held up by a quick stop ---------------------------------------------

  /** A quick stop in force with the drive in Quick stop active, or still in
      Operation enabled with the command on its way. */
  ghost predicate Held(p: Plant) {
    Stopping(p) && TargetOf(p) == QuickStop && Stoppable(Seen(p)) && Stoppable(p.d) && p.image == 0x02
  }

  /** No fault, no monitor error, no DISABLE and no FAULT_RESET. */
  predicate Undisturbed(h: Happening) {
    match h
    case Cycle(_, _, faults, input, _) => !faults && input.ext == NoError
    case Outage(_, _, _) => false
    case Order(op, _, _, _) => op != Disable && op != FaultReset
    case Push(_) => true
  }

  predicate AllUndisturbed(hs: seq<Happening>) {
    forall k | 0 <= k < |hs| :: Undisturbed(hs[k])
  }

  lemma StaysHeld(p: Plant, h: Happening, r: Plant)
    requires Held(p) && Undisturbed(h) && Moves(p, h, r)
    ensures Held(r)
  {
  }

  lemma {:induction false} HeldForEver(c: Cfg, p: Plant, hs: seq<Happening>)
    requires Held(p) && AllUndisturbed(hs)
    ensures Held(After(c, p, hs))
    decreases |hs|
  {
    if hs == [] {
    } else {
      NextMoves(c, p, hs[0]);
      StaysHeld(p, hs[0], Next(c, p, hs[0]));
      HeldForEver(c, Next(c, p, hs[0]), hs[1..]);
    }
  }

  /** A quick stop is pending: commanded since the shutdown request, and since then
      no DISABLE or FAULT_RESET, no outage, no monitor error, and after every cycle
      the state last seen was Operation enabled or Quick stop active. */
  ghost predicate QuickPending(c: Cfg, p: Plant, hs: seq<Happening>, pending: bool)
    requires PointsShape(p.world.axis.pp)
    decreases |hs|
  {
    if hs == [] then pending
    else
      var r := Next(c, p, hs[0]);
      QuickPending(c, r, hs[1..], StillPending(hs[0], Seen(r), pending))
  }

  predicate StillPending(h: Happening, seen: Ds, pending: bool) {
    match h
    case Cycle(_, _, _, input, _) => pending && input.ext == NoError && Stoppable(seen)
    case Outage(_, _, _) => false
    case Order(op, _, _, _) => if op == Quick then true else pending && op != Disable && op != FaultReset
    case Push(_) => pending
  }

  /** The target of an axis that is shut down is Quick stop exactly while one is
      pending. */
  lemma {:induction false} TargetIsPending(c: Cfg, p: Plant, hs: seq<Happening>, pending: bool)
    requires Stopping(p) && (pending <==> TargetOf(p) == QuickStop)
    ensures QuickPending(c, p, hs, pending) <==> TargetOf(After(c, p, hs)) == QuickStop
    decreases |hs|
  {
    if hs == [] {
    } else {
      var r := Next(c, p, hs[0]);
      NextMoves(c, p, hs[0]);
      TargetIsPending(c, r, hs[1..], StillPending(hs[0], Seen(r), pending));
    }
  }

  // ---- which of the two ----------------------------------------------------

  /** A good reply decides: the axis is on its way down, or a quick stop is in
      force in a state it applies to and holds it. */
  lemma ReplyDecides(p: Plant, h: Happening, r: Plant)
    requires Stopping(p) && h.Cycle? && h.valid && Moves(p, h, r)
    ensures if TargetOf(r) == QuickStop then Held(r) else GoingDown(r)
    ensures Work(Seen(r), r.d) <= 6
  {
  }

  lemma WorkDone(p: Plant)
    requires GoingDown(p) && Work(Seen(p), p.d) == 0
    ensures Rank(p.d) == 0 && Down(p.world.axis)
  {
  }

  /** From a good reply on. */
  lemma FromReply(c: Cfg, p: Plant, reply: Happening, s: Plant, hs: seq<Happening>, r: Plant)
    requires Stopping(p) && reply.Cycle? && reply.valid && Moves(p, reply, s) && PointsShape(s.world.axis.pp)
    requires BusUp(hs) && NoQuick(hs) && r == After(c, s, hs)
    ensures TargetOf(r) != Enabled && (TargetOf(s) != QuickStop ==> TargetOf(r) == Disabled)
    ensures TargetOf(s) != QuickStop && GoodCycles(hs) >= 6 ==> Rank(r.d) == 0 && Down(r.world.axis)
    ensures TargetOf(s) == QuickStop && AllUndisturbed(hs) ==> Rank(r.d) > 0 && !Down(r.world.axis)
  {
    ReplyDecides(p, reply, s);
    if TargetOf(s) != QuickStop {
      WorkRunsOut(c, s, hs);
      if GoodCycles(hs) >= 6 {
        WorkDone(r);
      }
    } else {
      RunKeepsStopping(c, s, hs);
      if AllUndisturbed(hs) {
        HeldForEver(c, s, hs);
      }
    }
  }

  /** Shut down at some time of some run, and anything since. */
  ghost predicate IsStopped(c: Cfg, d0: Ds, before: seq<Happening>, mid: seq<Happening>, p: Plant) {
    p == After(c, ShutDown(c, After(c, PowerOn(c, d0), before)), mid)
  }

  lemma StoppedIsStopping(c: Cfg, d0: Ds, before: seq<Happening>, mid: seq<Happening>, p: Plant)
    requires IsStopped(c, d0, before, mid, p)
    ensures Stopping(p)
  {
    RunKeepsFaultsDown(c, PowerOn(c, d0), before);
    RunKeepsStopping(c, ShutDown(c, After(c, PowerOn(c, d0), before)), mid);
  }

  lemma StoppedNow(c: Cfg, d0: Ds, before: seq<Happening>, p: Plant)
    requires IsStopped(c, d0, before, [], p)
    ensures Stopping(p) && TargetOf(p) == Disabled
  {
    StoppedIsStopping(c, d0, before, [], p);
  }

  /** After the shutdown request, at any time in any run and whatever has happened
      since, take a good reply.  If no quick stop is pending after it, the axis goes
      down: without further quick stops, six cycles whose frames arrive both ways are
      enough, and it stays down.  If one is, the axis is never down as long as
      nothing ends the quick stop. */
  lemma WalkDownIff(c: Cfg, d0: Ds, before: seq<Happening>, mid: seq<Happening>, reply: Happening,
                    hs: seq<Happening>, stopped: Plant, s: Plant, r: Plant, pending: bool)
    requires stopped == ShutDown(c, After(c, PowerOn(c, d0), before)) && PointsShape(stopped.world.axis.pp)
    requires reply.Cycle? && reply.valid && s == After(c, stopped, mid + [reply])
    requires pending <==> QuickPending(c, stopped, mid + [reply], false)
    requires BusUp(hs) && NoQuick(hs) && r == After(c, s, hs)
    ensures TargetOf(r) != Enabled
    ensures !pending && GoodCycles(hs) >= 6 ==> Rank(r.d) == 0 && Down(r.world.axis)
    ensures pending && AllUndisturbed(hs) ==> Rank(r.d) > 0 && !Down(r.world.axis)
  {
    assert stopped == After(c, stopped, []);
    StoppedNow(c, d0, before, stopped);
    TargetIsPending(c, stopped, mid + [reply], false);
    RunKeepsStopping(c, stopped, mid);
    AfterLast(c, stopped, mid, reply);
    NextMoves(c, After(c, stopped, mid), reply);
    FromReply(c, After(c, stopped, mid), reply, s, hs, r);
  }

  lemma {:induction false} AfterLast(c: Cfg, p: Plant, hs: seq<Happening>, h: Happening)
    requires PointsShape(p.world.axis.pp)
    ensures After(c, p, hs + [h]) == Next(c, After(c, p, hs), h)
    decreases |hs|
  {
    if hs == [] {
      assert After(c, Next(c, p, h), []) == Next(c, p, h);
      assert ([] + [h])[1..] == [];
    } else {
      assert (hs + [h])[1..] == hs[1..] + [h];
      AfterLast(c, Next(c, p, hs[0]), hs[1..], h);
    }
  }

  // ---- quick stops that do no harm -----------------------------------------

  /** Past a good reply with every quick stop so far commanded in a state it does
      not apply to. */
  ghost predicate Calm(p: Plant) {
    && Stopping(p) && (Stoppable(p.d) ==> Seen(p) == p.d) && p.image in {0x00, 0x06, 0x07, 0x80}
    && (TargetOf(p) == QuickStop ==> !Stoppable(Seen(p)))
  }

  /** Every quick stop of the run is commanded while the state last seen is neither
      Operation enabled nor Quick stop active. */
  ghost predicate HarmlessQuicks(c: Cfg, p: Plant, hs: seq<Happening>)
    requires PointsShape(p.world.axis.pp)
    decreases |hs|
  {
    hs == [] ||
    ((hs[0].Order? && hs[0].op == Quick ==> !Stoppable(Seen(p))) && HarmlessQuicks(c, Next(c, p, hs[0]), hs[1..]))
  }

  lemma StaysCalm(p: Plant, h: Happening, r: Plant)
    requires Calm(p) && !h.Outage? && (h.Order? && h.op == Quick ==> !Stoppable(Seen(p))) && Moves(p, h, r)
    ensures Calm(r) && (h.Cycle? ==> TargetOf(r) == Disabled)
  {
  }

  lemma {:induction false} RunStaysCalm(c: Cfg, p: Plant, hs: seq<Happening>)
    requires Calm(p) && BusUp(hs) && HarmlessQuicks(c, p, hs)
    ensures Calm(After(c, p, hs))
    decreases |hs|
  {
    if hs == [] {
    } else {
      NextMoves(c, p, hs[0]);
      StaysCalm(p, hs[0], Next(c, p, hs[0]));
      RunStaysCalm(c, Next(c, p, hs[0]), hs[1..]);
    }
  }

  /** The walk-down terminates: at any time of any run, after shutdown and a first
      good reply, with the bus up and every quick stop commanded in a state it does
      not apply to, the axis is never wanted enabled, and after the next good reply
      six cycles whose frames arrive both ways, without another quick stop, leave
      axis and drive down. */
  lemma WalkDownTerminates(c: Cfg, d0: Ds, before: seq<Happening>, p: Plant, first: Happening, q: Plant,
                           calm: seq<Happening>, reply: Happening, hs: seq<Happening>, r: Plant)
    requires IsStopped(c, d0, before, [], p) && PointsShape(p.world.axis.pp) && first.Cycle? && first.valid
    requires q == Next(c, p, first) && BusUp(calm) && HarmlessQuicks(c, q, calm)
    requires reply.Cycle? && reply.valid && BusUp(hs) && NoQuick(hs)
    requires r == After(c, Next(c, After(c, q, calm), reply), hs)
    ensures TargetOf(r) == Disabled && (GoodCycles(hs) >= 6 ==> Rank(r.d) == 0 && Down(r.world.axis))
  {
    StoppedNow(c, d0, before, p);
    NextMoves(c, p, first);
    RunStaysCalm(c, q, calm);
    CalmEnds(c, After(c, q, calm), reply, hs, r);
  }

  lemma CalmEnds(c: Cfg, p: Plant, reply: Happening, hs: seq<Happening>, r: Plant)
    requires Calm(p) && reply.Cycle? && reply.valid && BusUp(hs) && NoQuick(hs) && r == After(c, Next(c, p, reply), hs)
    ensures TargetOf(r) == Disabled && (GoodCycles(hs) >= 6 ==> Rank(r.d) == 0 && Down(r.world.axis))
  {
    NextMoves(c, p, reply);
    StaysCalm(p, reply, Next(c, p, reply));
    FromReply(c, p, reply, Next(c, p, reply), hs, r);
  }

  // ---- a quick stop that holds the axis up ---------------------------------

  /** n cycles whose frames all arrive. */
  function GoodRun(i: Input, n: nat): (hs: seq<Happening>)
    ensures |hs| == n && forall k | 0 <= k < n :: hs[k] == Cycle(true, true, false, i, 0)
  {
    seq(n, k => Cycle(true, true, false, i, 0))
  }

  /** A run in which the axis never comes down: a drive found in Operation enabled,
      the shutdown request, a quick stop, a frame that does not reach the drive,
      and then any number of good cycles. */
  lemma QuickStopHoldsUp(c: Cfg, i: Input, n: nat, p: Plant, s: Plant)
    requires i.ext == NoError
    requires IsStopped(c, Oe, [Unheard(i)], [Order(Quick, 0, 0, NoError)], p)
    requires PointsShape(p.world.axis.pp) && s == Next(c, p, Unheard(i))
    ensures Seen(p) == Oe && !Down(After(c, s, GoodRun(i, n)).world.axis)
  {
    QuickIsSeen(c, i, p);
    StoppedIsStopping(c, Oe, [Unheard(i)], [Order(Quick, 0, 0, NoError)], p);
    NextMoves(c, p, Unheard(i));
    FromReply(c, p, Unheard(i), s, GoodRun(i, n), After(c, s, GoodRun(i, n)));
  }

  /** A frame that does not reach the drive but whose reply arrives. */
  function Unheard(i: Input): Happening {
    Cycle(false, true, false, i, 0)
  }

  lemma QuickIsSeen(c: Cfg, i: Input, p: Plant)
    requires IsStopped(c, Oe, [Unheard(i)], [Order(Quick, 0, 0, NoError)], p)
    ensures Seen(p) == Oe && p.d == Oe && TargetOf(p) == QuickStop
  {
    var q := PowerOn(c, Oe);
    var seen := Next(c, q, Unheard(i));
    CycleEffect(c, q, Unheard(i), Oe, seen);
    KeepsFaultsDown(c, q, Unheard(i));
    assert After(c, q, [Unheard(i)]) == After(c, seen, []);
    var stopped := ShutDown(c, seen);
    NextMoves(c, stopped, Order(Quick, 0, 0, NoError));
    assert p == After(c, Next(c, stopped, Order(Quick, 0, 0, NoError)), []);
  }

  /** The first good reply matters: right after shutdown the state last seen can be
      stale, and a quick stop commanded then holds the axis up just the same. */
  lemma StaleQuickHoldsUp(c: Cfg, i: Input, n: nat, p: Plant, s: Plant)
    requires i.ext == NoError
    requires IsStopped(c, Oe, [], [Order(Quick, 0, 0, NoError)], p)
    requires PointsShape(p.world.axis.pp) && s == Next(c, p, Unheard(i))
    ensures !Stoppable(Seen(p)) && !Down(After(c, s, GoodRun(i, n)).world.axis)
  {
    StaleQuick(c, p);
    StoppedIsStopping(c, Oe, [], [Order(Quick, 0, 0, NoError)], p);
    NextMoves(c, p, Unheard(i));
    FromReply(c, p, Unheard(i), s, GoodRun(i, n), After(c, s, GoodRun(i, n)));
  }

  lemma StaleQuick(c: Cfg, p: Plant)
    requires IsStopped(c, Oe, [], [Order(Quick, 0, 0, NoError)], p)
    ensures Seen(p) == Unknown && p.d == Oe && TargetOf(p) == QuickStop
  {
    var stopped := ShutDown(c, PowerOn(c, Oe));
    assert After(c, PowerOn(c, Oe), []) == PowerOn(c, Oe);
    NextMoves(c, stopped, Order(Quick, 0, 0, NoError));
    assert p == After(c, Next(c, stopped, Order(Quick, 0, 0, NoError)), []);
  }
}
