/** The per-slave recovery planner: bounded, backed-off attempts, and no retry
    after the slave refuses its configuration. */
module Recovery {
  import opened Arith

  datatype Action = NoAction | Ack | RequestOp | Reconfig

  /** One diagnostic read of a slave; al is the AL status register. */
  datatype Read = Read(inReach: bool, answered: bool, al: bv16, code: bv16)

  datatype Slave = Slave(
    attempts: nat, nextTry: nat, failed: bool, failedConfig: bool, failedCode: bv16, unhealthy: bool,
    last: Action, recoveries: nat, acks: nat, ops: nat, reconfigs: nat)

  datatype Plan = Plan(maxAttempts: nat, backoff0: nat)

  const FRESH: Slave := Slave(0, 0, false, false, 0, false, NoAction, 0, 0, 0, 0)

  /** AL status codes by which a slave refuses the configuration it was given. */
  predicate ConfigCode(code: bv16) {
    code in {0x0003, 0x0004, 0x0006, 0x000E, 0x0013, 0x0014, 0x0015, 0x0016, 0x0017, 0x001C, 0x001D, 0x001E, 0x001F,
             0x0024, 0x0025, 0x0026, 0x0027, 0x0028, 0x0029, 0x002E, 0x0030, 0x0031, 0x0035, 0x0036, 0x0037,
             0x0041, 0x0042, 0x0043, 0x0044, 0x0045, 0x004F, 0x0070}
  }

  function AlState(r: Read): bv16 {
    r.al & 0x0F
  }

  predicate AlError(r: Read) {
    r.al & 0x10 != 0
  }

  predicate Healthy(r: Read) {
    r.inReach && r.answered && AlState(r) == 0x08 && !AlError(r)
  }

  predicate RefusesConfig(r: Read) {
    r.inReach && !Healthy(r) && r.answered && AlError(r) && ConfigCode(r.code)
  }

  /** What an unhealthy, not yet failed slave calls for. */
  function Wanted(r: Read): Action {
    if !r.answered || AlState(r) == 0x01 || AlState(r) == 0x02 then Reconfig
    else if AlError(r) then Ack
    else if AlState(r) == 0x04 then RequestOp
    else NoAction
  }

  predicate StartsAttempt(a: Action) {
    a == Ack || a == Reconfig
  }

  /** backoff0 doubled per attempt, the exponent capped at 20. */
  function Backoff(p: Plan, attempt: nat): nat
    requires attempt >= 1
  {
    p.backoff0 * Pow2(if attempt - 1 > 20 then 20 else attempt - 1)
  }

  function Count(s: Slave, a: Action): Slave {
    match a
    case NoAction => s
    case Ack => s.(last := a, acks := s.acks + 1)
    case RequestOp => s.(last := a, ops := s.ops + 1)
    case Reconfig => s.(last := a, reconfigs := s.reconfigs + 1)
  }

  /** The decision for one read: new slave state and action. */
  function Decided(p: Plan, s: Slave, r: Read, now: nat): (Slave, Action) {
    if !r.inReach then (s, NoAction)
    else if Healthy(r) then
      (Slave(0, 0, false, false, 0, false, NoAction, s.recoveries + (if s.unhealthy then 1 else 0),
             s.acks, s.ops, s.reconfigs), NoAction)
    else
      var u := s.(unhealthy := true);
      if s.failed then (u, NoAction)
      else if RefusesConfig(r) then (u.(failed := true, failedConfig := true, failedCode := r.code), NoAction)
      else
        var a := Wanted(r);
        if !StartsAttempt(a) then (Count(u, a), a)
        else if now < s.nextTry then (u, NoAction)
        else if s.attempts >= p.maxAttempts then (u.(failed := true), NoAction)
        else (Count(u.(attempts := s.attempts + 1, nextTry := now + Backoff(p, s.attempts + 1)), a), a)
  }

  function Reset(s: Slave): Slave {
    s.(failed := false, failedConfig := false, failedCode := 0, attempts := 0, nextTry := 0)
  }

  // ---- whole runs ----------------------------------------------------------

  datatype Event = Observe(read: Read, now: nat) | OperatorReset

  datatype Attempt = Attempt(time: nat, number: nat)

  /** Slave state with the history of a run: resets, attempts and actions. */
  datatype Run = Run(s: Slave, resets: nat, log: seq<Attempt>, actions: seq<Action>)

  function Step(p: Plan, x: Run, e: Event): Run {
    match e
    case OperatorReset => x.(s := Reset(x.s), resets := x.resets + 1, actions := x.actions + [NoAction])
    case Observe(r, now) =>
      var (s, a) := Decided(p, x.s, r, now);
      Run(s, x.resets, if StartsAttempt(a) then x.log + [Attempt(now, s.attempts)] else x.log, x.actions + [a])
  }

  function RunOf(p: Plan, es: seq<Event>): Run {
    if es == [] then Run(FRESH, 0, [], []) else Step(p, RunOf(p, es[..|es| - 1]), es[|es| - 1])
  }

  ghost predicate Budget(p: Plan, x: Run) {
    && x.s.attempts <= p.maxAttempts && (x.s.attempts > 0 ==> x.s.unhealthy)
    && |x.log| == x.s.acks + x.s.reconfigs
    && |x.log| <= p.maxAttempts * (x.s.recoveries + x.resets) + x.s.attempts
  }

  lemma OneMoreEpisode(max: nat, n: nat)
    ensures max * (n + 1) == max * n + max
  {
  }

  /** How a decision moves the counters of attempts and recoveries. */
  lemma DecisionCounts(p: Plan, s: Slave, r: Read, now: nat)
    requires s.attempts > 0 ==> s.unhealthy
    ensures var (t, a) := Decided(p, s, r, now);
            && t.acks + t.reconfigs == s.acks + s.reconfigs + (if StartsAttempt(a) then 1 else 0)
            && (t.attempts > 0 ==> t.unhealthy)
            && (|| (t.recoveries == s.recoveries && !StartsAttempt(a) && t.attempts == s.attempts)
                || (t.recoveries == s.recoveries && StartsAttempt(a) && t.attempts == s.attempts + 1 <= p.maxAttempts)
                || (t.recoveries == s.recoveries + 1 && !StartsAttempt(a) && t.attempts == 0))
  {
    var (t, a) := Decided(p, s, r, now);
    if r.inReach && Healthy(r) {
      assert t.attempts == 0 && a == NoAction;
    } else if StartsAttempt(a) {
      assert a == Ack || a == Reconfig;
    } else {
      assert t.attempts == s.attempts && t.recoveries == s.recoveries;
    }
  }

  lemma StepKeepsBudget(p: Plan, x: Run, e: Event)
    requires Budget(p, x)
    ensures Budget(p, Step(p, x, e))
  {
    OneMoreEpisode(p.maxAttempts, x.s.recoveries + x.resets);
    if e.Observe? {
      DecisionCounts(p, x.s, e.read, e.now);
      assert x.s.recoveries + x.resets + 1 == x.s.recoveries + 1 + x.resets;
    }
  }

  lemma {:induction false} RunKeepsBudget(p: Plan, es: seq<Event>)
    ensures Budget(p, RunOf(p, es))
  {
    if es == [] {
    } else {
      RunKeepsBudget(p, es[..|es| - 1]);
      StepKeepsBudget(p, RunOf(p, es[..|es| - 1]), es[|es| - 1]);
    }
  }

  /** Over every sequence of reads and operator resets, the actions that start
      an attempt are bounded by the attempts per episode. */
  lemma AttemptsAreBounded(p: Plan, es: seq<Event>)
    ensures var x := RunOf(p, es);
            x.s.acks + x.s.reconfigs <= p.maxAttempts * (x.s.recoveries + x.resets + 1)
  {
    RunKeepsBudget(p, es);
    var x := RunOf(p, es);
    OneMoreEpisode(p.maxAttempts, x.s.recoveries + x.resets);
  }

  // ---- back-off ------------------------------------------------------------

  /** Attempt number j + 1 of an episode comes at least the j-th back-off after
      attempt j. */
  ghost predicate BackedOff(p: Plan, log: seq<Attempt>) {
    forall i | 0 < i < |log| && log[i].number > 1 ::
      && log[i].number == log[i - 1].number + 1 && log[i - 1].number >= 1
      && log[i].time >= log[i - 1].time + Backoff(p, log[i - 1].number)
  }

  ghost predicate Spacing(p: Plan, x: Run) {
    && BackedOff(p, x.log)
    && (x.s.attempts > 0 ==>
          && |x.log| > 0
          && x.log[|x.log| - 1].number == x.s.attempts
          && x.s.nextTry == x.log[|x.log| - 1].time + Backoff(p, x.s.attempts))
    && (|x.log| > 0 ==> x.log[0].number == 1)
  }

  lemma AppendKeepsBackedOff(p: Plan, log: seq<Attempt>, a: Attempt)
    requires BackedOff(p, log)
    requires a.number > 1 ==>
               && |log| > 0 && log[|log| - 1].number >= 1 && a.number == log[|log| - 1].number + 1
               && a.time >= log[|log| - 1].time + Backoff(p, log[|log| - 1].number)
    ensures BackedOff(p, log + [a])
  {
  }

  /** An attempt is made only when its time has come, and sets the next time. */
  lemma DecisionTimes(p: Plan, s: Slave, r: Read, now: nat)
    ensures var (t, a) := Decided(p, s, r, now);
            if StartsAttempt(a) then
              now >= s.nextTry && t.attempts == s.attempts + 1 && t.nextTry == now + Backoff(p, t.attempts)
            else t.attempts == 0 || (t.attempts == s.attempts && t.nextTry == s.nextTry)
  {
  }

  lemma StepKeepsSpacing(p: Plan, x: Run, e: Event)
    requires Spacing(p, x)
    ensures Spacing(p, Step(p, x, e))
  {
    if e.Observe? {
      DecisionTimes(p, x.s, e.read, e.now);
      var (t, a) := Decided(p, x.s, e.read, e.now);
      if StartsAttempt(a) {
        AppendKeepsBackedOff(p, x.log, Attempt(e.now, t.attempts));
      }
    }
  }

  /** In every run, consecutive attempts of one unhealthy episode are at least
      backoff0 * 2^(j-1) apart, j being the number of the earlier attempt. */
  lemma {:induction false} AttemptsAreBackedOff(p: Plan, es: seq<Event>)
    ensures Spacing(p, RunOf(p, es))
  {
    if es == [] {
    } else {
      AttemptsAreBackedOff(p, es[..|es| - 1]);
      StepKeepsSpacing(p, RunOf(p, es[..|es| - 1]), es[|es| - 1]);
    }
  }

  // ---- refused configuration -----------------------------------------------

  predicate Clears(e: Event) {
    e.OperatorReset? || Healthy(e.read)
  }

  lemma {:induction false} FailedStaysQuiet(p: Plan, es: seq<Event>, fs: seq<Event>)
    requires RunOf(p, es).s.failed
    requires forall i | 0 <= i < |fs| :: !Clears(fs[i])
    ensures var x := RunOf(p, es + fs);
            && x.s.failed && RunOf(p, es).actions <= x.actions
            && forall i | |RunOf(p, es).actions| <= i < |x.actions| :: x.actions[i] == NoAction
  {
    if fs == [] {
      assert es + fs == es;
    } else {
      var n := |fs| - 1;
      assert (es + fs)[..|es + fs| - 1] == es + fs[..n];
      FailedStaysQuiet(p, es, fs[..n]);
    }
  }

  /** After a read in which the slave refuses its configuration no action at all
      is issued until a healthy read or an operator reset. */
  lemma NoActionAfterRefusal(p: Plan, es: seq<Event>, e: Event, fs: seq<Event>)
    requires e.Observe? && RefusesConfig(e.read)
    requires forall i | 0 <= i < |fs| :: !Clears(fs[i])
    ensures var x := RunOf(p, es + [e] + fs);
            forall i | |RunOf(p, es).actions| <= i < |x.actions| :: x.actions[i] == NoAction
  {
    assert (es + [e])[..|es|] == es;
    var y := RunOf(p, es + [e]);
    FailedStaysQuiet(p, es + [e], fs);
  }

  // ---- the imperative code -------------------------------------------------

  class Planner {
    const plan: Plan
    var slaves: seq<Slave>

    constructor (n: nat, p: Plan)
      ensures plan == p && |slaves| == (if n > 64 then 64 else n) && forall i | 0 <= i < |slaves| :: slaves[i] == FRESH
    {
      plan := p;
      slaves := seq(if n > 64 then 64 else n, i => FRESH);
    }

    method Decide(i: int, r: Read, now: nat) returns (act: Action, recovered: bool, gaveUp: bool)
      modifies this
      ensures !(0 <= i < |old(slaves)|) ==> slaves == old(slaves) && act == NoAction && !recovered && !gaveUp
      ensures 0 <= i < |old(slaves)| ==>
                var (s, a) := Decided(plan, old(slaves)[i], r, now);
                && slaves == old(slaves)[i := s] && act == a
                && (recovered <==> s.recoveries > old(slaves)[i].recoveries)
                && (gaveUp <==> s.failed && !old(slaves)[i].failed)
    {
      act, recovered, gaveUp := NoAction, false, false;
      if i < 0 || i >= |slaves| || !r.inReach {
        return;
      }
      var s := slaves[i];
      if Healthy(r) {
        if s.unhealthy {
          s := s.(recoveries := s.recoveries + 1);
          recovered := true;
        }
        s := s.(unhealthy := false, attempts := 0, failed := false, failedConfig := false, failedCode := 0,
                nextTry := 0, last := NoAction);
        slaves := slaves[i := s];
        return;
      }
      s := s.(unhealthy := true);
      slaves := slaves[i := s];
      if s.failed {
        return;
      }
      if r.answered && AlError(r) && ConfigCode(r.code) {
        s := s.(failed := true, failedConfig := true, failedCode := r.code);
        slaves := slaves[i := s];
        gaveUp := true;
        return;
      }
      act := Wanted(r);
      if act == Ack || act == Reconfig {
        if now < s.nextTry {
          act := NoAction;
          return;
        }
        if s.attempts >= plan.maxAttempts {
          s := s.(failed := true);
          slaves := slaves[i := s];
          act, gaveUp := NoAction, true;
          return;
        }
        s := s.(attempts := s.attempts + 1);
        s := s.(nextTry := now + Backoff(plan, s.attempts));
      }
      if act != NoAction {
        s := Count(s, act);
      }
      slaves := slaves[i := s];
    }

    method OperatorReset(i: int)
      modifies this
      ensures slaves == if 0 <= i < |old(slaves)| then old(slaves)[i := Reset(old(slaves)[i])] else old(slaves)
    {
      if 0 <= i < |slaves| {
        slaves := slaves[i := slaves[i].(failed := false, failedConfig := false, failedCode := 0,
                                         attempts := 0, nextTry := 0)];
      }
    }
  }
}
