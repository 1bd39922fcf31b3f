/** PP points over whole runs: none lost or duplicated without being counted,
    started in the order they came, and handshaken one at a time. */
module AxisPoints {
  import opened Wrappers
  import opened Setpoints
  import opened Axis
  import opened AxisRuns

  // ---- one tick ------------------------------------------------------------

  /** How the points part moves in a tick. */
  datatype Move = Stay | Start | Acknowledge | GiveUp | Rearm | Flush

  predicate MoveOk(m: Move, pp: Points, r: Points)
    requires PointsShape(pp) && PointsShape(r)
  {
    match m
    case Stay => r == pp
    case Start =>
      pp.phase == 0 && pp.n > 0 && r.phase == 1 && r.sent == pp.sent + 1 && r.acked == pp.acked && r.lost == pp.lost
      && r.cur == r.flags.pos && [r.flags] + PointQueue(r) == PointQueue(pp)
    case Acknowledge => pp.phase == 1 && r == pp.(phase := 2, acked := pp.acked + 1)
    case GiveUp => pp.phase == 1 && r == pp.(phase := 0, lost := pp.lost + 1)
    case Rearm => pp.phase == 2 && r == pp.(phase := 0)
    case Flush => r == Flushed(pp).(cur := r.cur)
  }

  function MoveOf(c: Cfg, pp: Points, req: int, running: bool, d: Drive, tick: nat): Move
    requires PointsShape(pp)
  {
    if !running then Flush
    else if req != PP then Stay
    else if pp.phase == 0 then if CanStart(pp, d.sw) then Start else Stay
    else if pp.phase == 1 then
      if d.sw.ack && tick >= pp.since + 2 then Acknowledge
      else if AckLate(pp, d.sw, tick, c.stepTimeout) then GiveUp
      else Stay
    else if !d.sw.ack then Rearm else Stay
  }

  lemma PointsMove(c: Cfg, pp: Points, req: int, running: bool, d: Drive, tick: nat)
    requires PointsShape(pp)
    ensures MoveOk(MoveOf(c, pp, req, running, d, tick), pp, PointsAfter(c, pp, req, running, d, tick))
  {
    if running && req == PP && pp.phase == 0 && CanStart(pp, d.sw) {
      StartMoves(pp, tick);
    }
  }

  lemma StartMoves(pp: Points, tick: nat)
    requires PointsShape(pp) && pp.n > 0 && pp.phase == 0
    ensures PointsShape(Started(pp, tick)) && MoveOk(Start, pp, Started(pp, tick))
  {
    var r := Started(pp, tick);
    forall i | 0 <= i < r.n ensures PointQueue(r)[i] == PointQueue(pp)[i + 1] {
      assert ((pp.head + 1) % 16 + i) % 16 == (pp.head + (i + 1)) % 16;
    }
    assert [r.flags] + PointQueue(r) == PointQueue(pp);
  }

  /** The move a tick makes; without a bus nothing moves. */
  function TickMove(c: Cfg, a: Axis, q: seq<Sp>, i: Input, tick: nat): Move
    requires PointsShape(a.pp)
  {
    if i.busLost then Stay
    else
      var d := Sensed(c, a.drive, a.mode.req, i);
      var mode := a.mode.(ok := a.mode.req != 0 && d.modeDisp == a.mode.req);
      var w := Walked(Latched(a.power, d.ds, i), d.ds, mode.ok, i.busLost, tick, c.stepTimeout);
      MoveOf(c, a.pp, mode.req, Moving(c, w, d, mode, a.motion, q, tick).running, d, tick)
  }

  /** Bit 4 in PP is up exactly in phase 1, and the target position is the
      current point's. */
  lemma TickPoints(c: Cfg, a: Axis, q: seq<Sp>, i: Input, tick: nat)
    requires PointsShape(a.pp)
    ensures var t, m := Tick(c, a, q, i, tick), TickMove(c, a, q, i, tick);
            && PointsShape(t.axis.pp) && MoveOk(m, a.pp, t.axis.pp)
            && (t.out.Output? && t.axis.mode.req == PP && t.out.cw.b4 ==>
                t.axis.pp.phase == 1 && (m == Stay || m == Start))
            && (t.out.Output? && t.axis.mode.req == PP && c.tpos ==> t.out.tpos == Some(t.axis.pp.cur))
            && t.axis.mode.req == a.mode.req
  {
    if !i.busLost {
      var d := Sensed(c, a.drive, a.mode.req, i);
      var mode := a.mode.(ok := a.mode.req != 0 && d.modeDisp == a.mode.req);
      var w := Walked(Latched(a.power, d.ds, i), d.ds, mode.ok, i.busLost, tick, c.stepTimeout);
      var v := Moving(c, w, d, mode, a.motion, q, tick);
      PointsMove(c, a.pp, mode.req, v.running, d, tick);
    }
  }

  // ---- whole runs ----------------------------------------------------------

  /** PP_POINT commands applied, the accepted points in order, how many of them
      have left the queue, and which of them were started. */
  datatype Log = Log(applied: nat, accepted: seq<Point>, gone: nat, started: seq<nat>)

  function AfterMove(l: Log, m: Move, waiting: nat): Log {
    match m
    case Start => l.(gone := l.gone + 1, started := l.started + [l.gone])
    case Flush => l.(gone := l.gone + waiting)
    case _ => l
  }

  function AfterCommand(l: Log, a: Axis, op: Op): Log {
    if !op.PpPoint? then l
    else if a.running && a.mode.req == PP && a.pp.n < 16 then
      l.(applied := l.applied + 1, accepted := l.accepted + [op.point])
    else l.(applied := l.applied + 1)
  }

  function LogOf(c: Cfg, es: seq<Event>): Log {
    if es == [] then Log(0, [], 0, [])
    else
      var pre, e := es[..|es| - 1], es[|es| - 1];
      Logged(c, LogOf(c, pre), RunOf(c, pre), e)
  }

  function Logged(c: Cfg, l: Log, w: World, e: Event): Log
    requires PointsShape(w.axis.pp)
  {
    match e
    case Cmd(op, _, _, _) => AfterCommand(l, w.axis, op)
    case Frame(i, tick) => AfterMove(l, TickMove(c, w.axis, w.queue, i, tick), w.axis.pp.n)
    case _ => l
  }

  /** Every point applied is acknowledged, lost, waiting, or on offer. */
  ghost predicate Conserved(l: Log, pp: Points) {
    l.applied == pp.acked + pp.lost + pp.n + (if pp.phase == 1 then 1 else 0)
  }

  /** The queue holds the accepted points that have not left it; points are
      started in increasing order; the one on offer is the last started. */
  ghost predicate Fifo(l: Log, pp: Points)
    requires PointsShape(pp)
  {
    && l.gone <= |l.accepted| && PointQueue(pp) == l.accepted[l.gone..]
    && pp.sent == |l.started|
    && (forall i | 0 <= i < |l.started| :: l.started[i] < l.gone)
    && (forall i, j | 0 <= i < j < |l.started| :: l.started[i] < l.started[j])
    && (pp.phase == 1 ==>
          l.started != [] && pp.flags == l.accepted[l.started[|l.started| - 1]] && pp.cur == pp.flags.pos)
  }

  lemma MoveKeepsLog(l: Log, m: Move, pp: Points, r: Points)
    requires PointsShape(pp) && PointsShape(r) && MoveOk(m, pp, r) && Conserved(l, pp) && Fifo(l, pp)
    ensures Conserved(AfterMove(l, m, pp.n), r) && Fifo(AfterMove(l, m, pp.n), r)
  {
  }

  lemma CommandPoints(c: Cfg, shutdown: bool, ext: Err, a: Axis, op: Op, sequence: nat, tick: nat)
    requires PointsShape(a.pp)
    ensures var r := Applied(c, shutdown, ext, a, op, sequence, tick).pp;
            r == if op.PpPoint? then PointCmd(a.pp, a.running && a.mode.req == PP, op.point) else a.pp
  {
  }

  lemma PointKeepsLog(l: Log, pp: Points, usable: bool, x: Point)
    requires PointsShape(pp) && Conserved(l, pp) && Fifo(l, pp)
    ensures var k := if usable && pp.n < 16 then l.(applied := l.applied + 1, accepted := l.accepted + [x])
                     else l.(applied := l.applied + 1);
            Conserved(k, PointCmd(pp, usable, x)) && Fifo(k, PointCmd(pp, usable, x))
  {
    if usable && pp.n < 16 {
      PointQueued(pp, x);
    }
  }

  /** A point accepted is queued last. */
  lemma PointQueued(pp: Points, x: Point)
    requires PointsShape(pp) && pp.n < 16
    ensures PointQueue(PointCmd(pp, true, x)) == PointQueue(pp) + [x]
  {
    var r := PointCmd(pp, true, x);
    forall i | 0 <= i < r.n ensures PointQueue(r)[i] == (PointQueue(pp) + [x])[i] {
      assert i < pp.n ==> (pp.head + i) % 16 != (pp.head + pp.n) % 16;
    }
  }

  lemma StepKeepsLog(c: Cfg, w: World, l: Log, e: Event)
    requires PointsShape(w.axis.pp) && Conserved(l, w.axis.pp) && Fifo(l, w.axis.pp)
    ensures var r := Step(c, w, e).axis.pp; Conserved(Logged(c, l, w, e), r) && Fifo(Logged(c, l, w, e), r)
  {
    match e
    case Cmd(op, n, tick, ext) =>
      CommandPoints(c, w.shutdown, ext, w.axis, op, n, tick);
      if op.PpPoint? {
        PointKeepsLog(l, w.axis.pp, w.axis.running && w.axis.mode.req == PP, op.point);
      }
    case Frame(i, tick) =>
      TickPoints(c, w.axis, w.queue, i, tick);
      MoveKeepsLog(l, TickMove(c, w.axis, w.queue, i, tick), w.axis.pp, Step(c, w, e).axis.pp);
    case _ =>
  }

  /** In every run: applied points = acknowledged + lost + waiting + on offer, and
      points leave the queue and are started in the order they were accepted. */
  lemma {:induction false} PointsConservedInOrder(c: Cfg, es: seq<Event>)
    ensures Conserved(LogOf(c, es), RunOf(c, es).axis.pp) && Fifo(LogOf(c, es), RunOf(c, es).axis.pp)
  {
    if es == [] {
    } else {
      var pre := es[..|es| - 1];
      PointsConservedInOrder(c, pre);
      StepKeepsLog(c, RunOf(c, pre), LogOf(c, pre), es[|es| - 1]);
    }
  }

  // ---- the handshake on the wire -------------------------------------------

  /** The last hook of a run that wrote something: whether it was in PP with bit 4
      up, which start it belonged to and the target position it carried. */
  datatype Offer = NoOffer | Offer(start: nat, target: int)

  function OfferIn(r: World): Offer {
    if r.out.Output? && r.axis.mode.req == PP && r.out.cw.b4 then Offer(r.axis.pp.sent, r.axis.pp.cur) else NoOffer
  }

  function LastOffer(c: Cfg, es: seq<Event>): Offer {
    if es == [] then NoOffer
    else
      var r := RunOf(c, es);
      if es[|es| - 1].Frame? && r.out.Output? then OfferIn(r) else LastOffer(c, es[..|es| - 1])
  }

  /** An offer stays what it was until another frame goes out. */
  ghost predicate Offered(o: Offer, pp: Points) {
    o.Offer? ==> pp.phase == 1 && pp.sent == o.start && pp.cur == o.target
  }

  lemma {:induction false} OfferIsHeld(c: Cfg, es: seq<Event>)
    ensures Offered(LastOffer(c, es), RunOf(c, es).axis.pp)
  {
    if es == [] {
    } else {
      var pre, e := es[..|es| - 1], es[|es| - 1];
      OfferIsHeld(c, pre);
      var w := RunOf(c, pre);
      match e
      case Cmd(op, n, tick, ext) => CommandPoints(c, w.shutdown, ext, w.axis, op, n, tick);
      case Frame(i, tick) => TickPoints(c, w.axis, w.queue, i, tick);
      case _ =>
    }
  }

  /** One point at a time: if two successive frames both carry bit 4 in PP they
      carry the same point and the same target position, so bit 4 is low for at
      least one frame between two points; a frame that starts a point carries it
      only when the frame before had bit 4 low. */
  lemma HandshakeOnTheWire(c: Cfg, es: seq<Event>, i: Input, tick: nat)
    requires var r := RunOf(c, es + [Frame(i, tick)]); OfferIn(r).Offer?
    ensures var r := RunOf(c, es + [Frame(i, tick)]);
            && (c.tpos ==> r.out.tpos == Some(OfferIn(r).target))
            && (LastOffer(c, es).Offer? ==> OfferIn(r) == LastOffer(c, es))
            && (r.axis.pp.sent != RunOf(c, es).axis.pp.sent ==> LastOffer(c, es).NoOffer?)
  {
    assert (es + [Frame(i, tick)])[..|es|] == es;
    OfferIsHeld(c, es);
    TickPoints(c, RunOf(c, es).axis, RunOf(c, es).queue, i, tick);
  }
}
