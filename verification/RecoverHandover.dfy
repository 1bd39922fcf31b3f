/** The RECOVER handover between the RT loop and the monitor thread.

    The RT loop owns the bus while it is cyclic and while it probes; in RECOVER
    the monitor owns it.  They talk through three atomics: the requested
    generation, the finished generation and its result.  The generation atomics
    hold running counts modulo `m`; the model keeps the counts and compares them
    modulo `m`.  Each load or store, and each use of the bus, is one step of an
    arbitrary schedule. */
module RecoverHandover {
  import opened Arith
  import opened Bus

  datatype Rt = AtTick | Sending | Probing | Entered | Answered
  datatype Monitor = Asleep | Seen(req: nat) | Inside(req: nat) | Finished(req: nat, ok: bool) | OkStored(req: nat)

  datatype State = State(
    m: nat, enabled: bool,
    fsm: Fsm, tick: nat, rt: Rt, gen: nat,    // RT thread; gen counts requests made
    done: nat, ok: bool,                      // monitor's atomics; the request atomic is gen
    mon: Monitor,
    // history: results of recover_full by generation, results the RT loop left RECOVER with
    results: seq<bool>, entries: nat, taken: seq<bool>)

  /** What the environment decides for a step: the frames' classes, the probe's
      answer, and the outcome of the monitor's recovery. */
  datatype Event =
    | RtStep(motion: Wkc, io: IoClass, wkc: int)
    | MonStep(result: bool)

  function Init(m: nat, enabled: bool, c: Cfg): State {
    State(m, enabled, Start(c), 0, AtTick, 0, 0, false, Asleep, [], 0, [])
  }

  /** Is this thread using the bus now? */
  predicate RtOnBus(s: State) {
    s.rt == Sending || s.rt == Probing
  }

  predicate MonitorOnBus(s: State) {
    s.mon.Inside?
  }

  /** Equality of two generation atomics. */
  predicate SameGen(a: nat, b: nat, m: nat)
    requires m > 1
  {
    a % m == b % m
  }

  function RtNext(s: State, e: Event): State
    requires s.m > 1 && e.RtStep?
  {
    match s.rt
    case AtTick =>
      if Cyclic(s.fsm.state) then s.(rt := Sending)
      else if s.fsm.state == Lost then
        if ProbeDue(s.fsm, s.tick) then s.(rt := Probing) else s.(tick := s.tick + 1)
      else if SameGen(s.done, s.gen, s.m) then s.(rt := Answered)
      else s.(tick := s.tick + 1)
    case Sending => s.(fsm := OnCycle(s.fsm, s.tick, e.motion, e.io), tick := s.tick + 1, rt := AtTick)
    case Probing =>
      var f := OnProbe(s.fsm, s.tick, e.wkc);
      if f.state == Recover then s.(fsm := f, rt := Entered, entries := s.entries + 1)
      else s.(fsm := f, tick := s.tick + 1, rt := AtTick)
    case Entered => s.(gen := s.gen + 1, tick := s.tick + 1, rt := AtTick)
    case Answered =>
      s.(fsm := OnRecoverDone(s.fsm, s.tick, s.ok), taken := s.taken + [s.ok], tick := s.tick + 1, rt := AtTick)
  }

  function MonNext(s: State, e: Event): State
    requires s.m > 1 && e.MonStep?
  {
    match s.mon
    case Asleep => s.(mon := Seen(s.gen))
    case Seen(r) =>
      if SameGen(r, s.done, s.m) then s.(mon := Asleep)
      else if s.enabled then s.(mon := Inside(r))
      else s.(mon := Finished(r, false), results := s.results + [false])
    case Inside(r) => s.(mon := Finished(r, e.result), results := s.results + [e.result])
    case Finished(r, ok) => s.(ok := ok, mon := OkStored(r))
    case OkStored(r) => s.(done := r, mon := Asleep)
  }

  function Step(s: State, e: Event): (r: State)
    requires s.m > 1
    ensures r.m == s.m
  {
    if e.RtStep? then RtNext(s, e) else MonNext(s, e)
  }

  function Exec(m: nat, enabled: bool, c: Cfg, es: seq<Event>): (r: State)
    requires m > 1
    ensures r.m == m
  {
    if es == [] then Init(m, enabled, c) else Step(Exec(m, enabled, c, es[..|es| - 1]), es[|es| - 1])
  }

  // ---- the invariant -------------------------------------------------------

  /** gen requests were made, `done` of them are answered, |taken| consumed. */
  ghost predicate Counts(s: State) {
    && s.m > 1 && |s.taken| <= s.done <= s.gen <= |s.taken| + 1
    && s.taken <= s.results
    && s.entries == s.gen + (if s.rt == Entered then 1 else 0)
  }

  ghost predicate RtInv(s: State) {
    && (s.rt == Sending ==> Cyclic(s.fsm.state))
    && (s.rt == Probing ==> s.fsm.state == Lost)
    && (s.rt == Entered || s.rt == Answered ==> s.fsm.state == Recover)
    && s.gen == |s.taken| + (if s.fsm.state == Recover && s.rt != Entered then 1 else 0)
    && (s.rt == Answered ==> s.done == s.gen)
  }

  ghost predicate MonInv(s: State) {
    && |s.results| == s.done + (if s.mon.Finished? || s.mon.OkStored? then 1 else 0)
    && (s.mon.Seen? ==> s.done <= s.mon.req <= s.gen)
    && (s.mon.Inside? || s.mon.Finished? || s.mon.OkStored? ==> s.mon.req == s.gen == s.done + 1)
    && (s.mon.Finished? ==> s.mon.ok == s.results[s.done])
    && (s.mon.OkStored? ==> s.ok == s.results[s.done])
    && (s.done > |s.taken| ==> s.ok == s.results[|s.taken|])
  }

  ghost predicate Inv(s: State) {
    Counts(s) && RtInv(s) && MonInv(s)
  }

  /** Counts at most one apart are told apart modulo m. */
  lemma SameGenExact(a: nat, b: nat, m: nat)
    requires m > 1 && a <= b <= a + 1
    ensures SameGen(a, b, m) <==> a == b
    ensures SameGen(b, a, m) <==> a == b
  {
    if a < b {
      DistinctMods(a, b, m);
    }
  }

  lemma TickKeepsInv(s: State, e: Event)
    requires Inv(s) && e.RtStep? && s.rt == AtTick
    ensures Inv(RtNext(s, e))
  {
    SameGenExact(s.done, s.gen, s.m);
  }

  lemma AnswerKeepsInv(s: State, e: Event)
    requires Inv(s) && e.RtStep? && s.rt == Answered
    ensures Inv(RtNext(s, e))
  {
    var r := RtNext(s, e);
    assert r.fsm.state != Recover;
    assert r.taken == s.results[..|s.taken| + 1];
    assert Counts(r) && RtInv(r);
  }

  lemma RtKeepsInv(s: State, e: Event)
    requires Inv(s) && e.RtStep?
    ensures Inv(RtNext(s, e))
  {
    match s.rt
    case AtTick => TickKeepsInv(s, e);
    case Answered => AnswerKeepsInv(s, e);
    case _ =>
      var r := RtNext(s, e);
      assert s.rt == Sending ==> r.fsm.state != Recover;
      assert Counts(r) && RtInv(r);
  }

  lemma MonKeepsInv(s: State, e: Event)
    requires Inv(s) && e.MonStep?
    ensures Inv(MonNext(s, e))
  {
    if s.mon.Seen? {
      SameGenExact(s.done, s.mon.req, s.m);
    }
    var r := MonNext(s, e);
    assert MonMoves(s, r);
    MonKeepsCounts(s, r);
    MonKeepsMon(s, e, r);
  }

  /** A monitor step leaves the RT side alone; it may add a result and answer. */
  ghost predicate MonMoves(s: State, r: State) {
    && r.m == s.m && r.gen == s.gen && r.taken == s.taken && r.rt == s.rt && r.fsm == s.fsm && r.entries == s.entries
    && s.results <= r.results && s.done <= r.done <= s.gen
  }

  lemma MonKeepsCounts(s: State, r: State)
    requires Counts(s) && RtInv(s) && MonMoves(s, r)
    ensures Counts(r) && RtInv(r)
  {
  }

  lemma MonKeepsMon(s: State, e: Event, r: State)
    requires Inv(s) && e.MonStep? && r == MonNext(s, e)
    requires s.mon.Seen? ==> (SameGen(s.mon.req, s.done, s.m) <==> s.done == s.mon.req)
    ensures MonInv(r)
  {
  }

  lemma {:induction false} ExecKeepsInv(m: nat, enabled: bool, c: Cfg, es: seq<Event>)
    requires m > 1
    ensures Inv(Exec(m, enabled, c, es))
  {
    if es == [] {
    } else {
      ExecKeepsInv(m, enabled, c, es[..|es| - 1]);
      var s, e := Exec(m, enabled, c, es[..|es| - 1]), es[|es| - 1];
      if e.RtStep? {
        RtKeepsInv(s, e);
      } else {
        MonKeepsInv(s, e);
      }
    }
  }

  // ---- main results --------------------------------------------------------

  /** In no interleaving does the RT loop use the bus while the monitor is
      inside its full recovery. */
  lemma BusHasOneOwner(m: nat, enabled: bool, c: Cfg, es: seq<Event>)
    requires m > 1
    ensures var s := Exec(m, enabled, c, es); !(RtOnBus(s) && MonitorOnBus(s))
  {
    ExecKeepsInv(m, enabled, c, es);
  }

  /** Each entry into RECOVER has at most one answer, the loop leaves RECOVER
      only with the result of its own generation, and at most one entry is open:
      the j-th exit uses the j-th recovery's result. */
  lemma AnswersMatchEntries(m: nat, enabled: bool, c: Cfg, es: seq<Event>)
    requires m > 1
    ensures var s := Exec(m, enabled, c, es);
            && s.taken <= s.results && |s.results| <= s.entries
            && s.entries == |s.taken| + (if s.fsm.state == Recover then 1 else 0)
            && (!enabled ==> forall i | 0 <= i < |s.results| :: !s.results[i])
  {
    ExecKeepsInv(m, enabled, c, es);
    if !enabled {
      DisabledNeverSucceeds(m, c, es);
    }
  }

  lemma {:induction false} DisabledNeverSucceeds(m: nat, c: Cfg, es: seq<Event>)
    requires m > 1
    ensures var s := Exec(m, false, c, es);
            !s.enabled && !s.mon.Inside? && forall i | 0 <= i < |s.results| :: !s.results[i]
  {
    if es == [] {
    } else {
      DisabledNeverSucceeds(m, c, es[..|es| - 1]);
    }
  }

  // ---- every entry is answered ---------------------------------------------

  /** Monitor steps still needed before the open request is answered. */
  function Rank(s: State): nat {
    match s.mon
    case Seen(r) => if r == s.gen then 4 else 6
    case Asleep => 5
    case Inside(_) => 3
    case Finished(_, _) => 2
    case OkStored(_) => 1
  }

  lemma RankDrops(s: State, e: Event)
    requires Inv(s) && s.done < s.gen
    ensures var r := Step(s, e);
            && r.gen == s.gen
            && (r.done == s.gen || (r.done == s.done && Rank(r) + (if e.MonStep? then 1 else 0) <= Rank(s)))
  {
    if s.mon.Seen? {
      SameGenExact(s.done, s.mon.req, s.m);
    }
    SameGenExact(s.done, s.gen, s.m);
  }

  function MonSteps(fs: seq<Event>): nat {
    if fs == [] then 0 else MonSteps(fs[1..]) + (if fs[0].MonStep? then 1 else 0)
  }

  /** The open request is answered at some point of the schedule. */
  ghost predicate AnsweredWithin(s: State, fs: seq<Event>)
    requires s.m > 1
    decreases |fs|
  {
    s.done == s.gen || (fs != [] && AnsweredWithin(Step(s, fs[0]), fs[1..]))
  }

  /** Six steps of the monitor, interleaved with the RT loop in any way, are
      enough to answer the request that is open. */
  lemma {:induction false} EntryIsAnswered(s: State, fs: seq<Event>)
    requires Inv(s) && MonSteps(fs) >= Rank(s)
    ensures AnsweredWithin(s, fs)
    decreases |fs|
  {
    if s.done < s.gen {
      if fs[0].RtStep? {
        RtKeepsInv(s, fs[0]);
      } else {
        MonKeepsInv(s, fs[0]);
      }
      RankDrops(s, fs[0]);
      if Step(s, fs[0]).done < s.gen {
        EntryIsAnswered(Step(s, fs[0]), fs[1..]);
      }
    }
  }

  lemma AnswerArrives(m: nat, enabled: bool, c: Cfg, es: seq<Event>, fs: seq<Event>)
    requires m > 1 && MonSteps(fs) >= 6
    ensures AnsweredWithin(Exec(m, enabled, c, es), fs)
  {
    ExecKeepsInv(m, enabled, c, es);
    EntryIsAnswered(Exec(m, enabled, c, es), fs);
  }
}
