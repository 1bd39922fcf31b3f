/** What an observer knows of an axis from the statuswords, the commands, the
    setpoints that wait in the ring and the targets on the wire, but from no other
    field of the machine.  The observer decides whether the axis has leave to be
    enabled. */
module AxisWatch {
  import opened Setpoints
  import opened Axis
  import opened AxisRuns

  /** Leave to be enabled: granted by an accepted ENABLE, with whether Operation
      enabled has been seen since. */
  datatype Leave = Withheld | Granted(seenOe: bool)

  /** PP points not yet offered, oldest first, and the one on offer: since when,
      or answered and waiting for the acknowledge to go low. */
  datatype Offer = Nothing | Offered(since: nat) | Answered
  datatype Desk = Desk(waiting: seq<Point>, offer: Offer)

  /** `status` and `shown` are the last statusword and mode seen in a good frame,
      `req` the mode asked for, `steady` the tick since which the drive state has
      been the same (or of the last ENABLE, if later), `pulse` the ticks left of a
      reset pulse, `ran` whether the last tick with a bus found the axis running. */
  datatype Watch = Watch(leave: Leave, status: Status, shown: int, req: int, steady: nat, pulse: nat,
                         shutdown: bool, ran: bool, desk: Desk)

  function Opening(c: Cfg): Watch {
    Watch(Withheld, Status(0, Unknown, false, false, false), 0, FirstMode(c), 0, 0, false, false, Desk([], Nothing))
  }

  // ---- commands ------------------------------------------------------------

  predicate Accepts(c: Cfg, h: Watch, ext: Err) {
    !h.shutdown && ext == NoError && !InFaultState(h.status.ds) && ModeAllowed(c, h.req)
  }

  function AfterCommand(c: Cfg, h: Watch, op: Op, tick: nat, ext: Err): Watch {
    match op
    case Enable => h.(leave := if Accepts(c, h, ext) then Granted(false) else Withheld, steady := tick)
    case Disable => h.(leave := Withheld)
    case Quick => h.(leave := Withheld)
    case FaultReset => h.(leave := Withheld, pulse := if h.status.ds == Fault then 2 else h.pulse)
    case SetMode(m) => if ModeAllowed(c, m) && (c.modeOut || m == h.req) then h.(req := m) else h
    case PpPoint(x) =>
      if h.ran && h.req == PP && |h.desk.waiting| < 16 then h.(desk := h.desk.(waiting := h.desk.waiting + [x])) else h
    case _ => h
  }

  // ---- ticks ---------------------------------------------------------------

  function StatusAfter(h: Watch, i: Input): Status {
    if i.valid then i.sw else h.status
  }

  function ShownAfter(c: Cfg, h: Watch, i: Input): int {
    if !i.valid then h.shown else if c.modeIn then i.modeDisp else h.req
  }

  function SteadyAfter(h: Watch, i: Input, tick: nat): nat {
    if StatusAfter(h, i).ds != h.status.ds then tick else h.steady
  }

  /** Operation enabled was seen and a good frame shows another state. */
  predicate Departed(h: Watch, i: Input) {
    h.leave == Granted(true) && i.valid && i.sw.ds != Oe
  }

  /** Below Operation enabled, and the state seen has not changed for longer than
      the step timeout. */
  predicate Stuck(c: Cfg, h: Watch, i: Input, tick: nat) {
    StatusAfter(h, i).ds != Oe && tick - SteadyAfter(h, i, tick) > c.stepTimeout
  }

  /** The leave survives what the frame shows of bus, drive and monitor. */
  predicate Kept(c: Cfg, h: Watch, i: Input, tick: nat) {
    && h.leave.Granted? && !i.busLost && !InFaultState(StatusAfter(h, i).ds) && i.ext == NoError
    && !Departed(h, i) && !Stuck(c, h, i, tick)
  }

  predicate Confirmed(c: Cfg, h: Watch, i: Input) {
    h.req != 0 && ShownAfter(c, h, i) == h.req
  }

  predicate Runs(c: Cfg, h: Watch, i: Input, tick: nat) {
    Kept(c, h, i, tick) && StatusAfter(h, i).ds == Oe && Confirmed(c, h, i)
  }

  /** The setpoint for the next frame is further from the last cyclic target than
      the limit of the mode allows. */
  predicate StepRefused(c: Cfg, h: Watch, q: seq<Sp>, sent: int, i: Input, tick: nat) {
    var limit := if h.req == CSP then c.maxStepPos else c.maxStepVel;
    var next := Drain(q, tick + 1, true, SKIP_MAX).used;
    && Runs(c, h, i, tick) && (h.req == CSP || h.req == CSV) && next.Some?
    && limit > 0 && !(sent - limit <= next.value <= sent + limit)
  }

  predicate Acknowledged(since: nat, sw: Status, tick: nat) {
    sw.ack && tick >= since + 2
  }

  /** The point on offer has waited for its acknowledge longer than the timeout. */
  predicate Unanswered(c: Cfg, h: Watch, i: Input, tick: nat) {
    && Runs(c, h, i, tick) && h.req == PP && h.desk.offer.Offered?
    && !Acknowledged(h.desk.offer.since, StatusAfter(h, i), tick) && tick - h.desk.offer.since > c.stepTimeout
  }

  function DeskAfter(c: Cfg, d: Desk, runs: bool, req: int, sw: Status, tick: nat): Desk {
    if !runs then Desk([], Nothing)
    else if req != PP then d
    else
      match d.offer
      case Nothing =>
        if d.waiting != [] && !sw.ack && (d.waiting[0].imm || sw.reached) then Desk(d.waiting[1..],
            Offered(tick)) else d
      case Offered(since) =>
        if Acknowledged(since, sw, tick) then d.(offer := Answered)
        else if tick - since > c.stepTimeout then d.(offer := Nothing)
        else d
      case Answered => if sw.ack then d else d.(offer := Nothing)
  }

  function AfterFrame(c: Cfg, h: Watch, q: seq<Sp>, sent: int, i: Input, tick: nat): Watch {
    var status := StatusAfter(h, i);
    var refused := StepRefused(c, h, q, sent, i, tick);
    var kept := Kept(c, h, i, tick) && !refused && !Unanswered(c, h, i, tick);
    Watch(if kept then Granted(h.leave.seenOe || (i.valid && i.sw.ds == Oe)) else Withheld,
          status, ShownAfter(c, h, i), h.req, SteadyAfter(h, i, tick), if h.pulse == 2 then 1 else 0, h.shutdown,
          if i.busLost then h.ran else Runs(c, h, i, tick),
          if i.busLost then h.desk
          else DeskAfter(c, h.desk, Runs(c, h, i, tick) && !refused, h.req, status, tick))
  }

  function Watched(c: Cfg, h: Watch, q: seq<Sp>, sent: int, e: Event): Watch {
    match e
    case Cmd(op, _, tick, ext) => AfterCommand(c, h, op, tick, ext)
    case Frame(i, tick) => AfterFrame(c, h, q, sent, i, tick)
    case Pushed(_) => h
    case Shutdown => h.(leave := Withheld, shutdown := true)
  }

  /** The observer after a run; of the machine only the setpoint ring and the
      targets on the wire are used. */
  function WatchOf(c: Cfg, es: seq<Event>): Watch {
    if es == [] then Opening(c)
    else
      var pre := es[..|es| - 1];
      Watched(c, WatchOf(c, pre), RunOf(c, pre).queue, SentValue(LastCyclic(c, pre)), es[|es| - 1])
  }
}
