/** Setpoints over whole runs, and the output slot of the exchange hook. */
module Exchange {
  import opened Wrappers
  import opened Setpoints

  // ---- whole runs ----------------------------------------------------------

  /** One use: which push it was, the hook's tick and the value used. */
  datatype Use = Use(index: nat, hook: nat, v: int)

  datatype Slot = Slot(queue: seq<Sp>, pushed: seq<Sp>, popped: nat,
                       used: nat, late: nat, dropped: nat, log: seq<Use>)

  datatype Event = Push(sp: Sp) | Hook(tick: nat, usable: bool)

  function Step(s: Slot, e: Event): Slot {
    match e
    case Push(sp) => s.(queue := s.queue + [sp], pushed := s.pushed + [sp])
    case Hook(tick, usable) =>
      var r := Drain(s.queue, tick + 1, usable, SKIP_MAX);
      Slot(r.rest, s.pushed, s.popped + Taken(r), s.used + Taken(r) - Skips(r), s.late + r.late, s.dropped + r.due,
           if r.used.Some? then s.log + [Use(s.popped + Skips(r), tick, r.used.value)] else s.log)
  }

  function RunOf(es: seq<Event>): Slot {
    if es == [] then Slot([], [], 0, 0, 0, 0, []) else Step(RunOf(es[..|es| - 1]), es[|es| - 1])
  }

  ghost predicate QueueInv(s: Slot) {
    && s.popped <= |s.pushed| && s.queue == s.pushed[s.popped..]
    && s.popped == s.used + s.late + s.dropped && s.used == |s.log|
  }

  ghost predicate LogInv(s: Slot) {
    && s.popped <= |s.pushed|
    && (forall i | 0 <= i < |s.log| ::
          s.log[i].index < s.popped && s.pushed[s.log[i].index] == Sp(s.log[i].hook + 1, s.log[i].v))
    && (forall i, j | 0 <= i < j < |s.log| :: s.log[i].index < s.log[j].index)
  }

  ghost predicate Inv(s: Slot) {
    QueueInv(s) && LogInv(s)
  }

  lemma HookKeepsQueue(s: Slot, tick: nat, usable: bool)
    requires QueueInv(s)
    ensures QueueInv(Step(s, Hook(tick, usable)))
  {
    DrainTakesPrefix(s.queue, tick + 1, usable, SKIP_MAX);
    var n := Taken(Drain(s.queue, tick + 1, usable, SKIP_MAX));
    assert s.queue[n..] == s.pushed[s.popped + n..];
  }

  /** A use appended to the log, if any, lies beyond everything popped before. */
  lemma LogGrows(s: Slot, t: Slot, us: seq<Use>)
    requires LogInv(s) && t.pushed == s.pushed && t.log == s.log + us && s.popped <= t.popped <= |t.pushed| && |us| <= 1
    requires us != [] ==> s.popped <= us[0].index < t.popped && t.pushed[us[0].index] == Sp(us[0].hook + 1, us[0].v)
    ensures LogInv(t)
  {
  }

  lemma HookKeepsLog(s: Slot, tick: nat, usable: bool)
    requires QueueInv(s) && LogInv(s)
    ensures LogInv(Step(s, Hook(tick, usable)))
  {
    var r := Drain(s.queue, tick + 1, usable, SKIP_MAX);
    var us := if r.used.Some? then [Use(s.popped + Skips(r), tick, r.used.value)] else [];
    UsedWasPushed(s, tick, usable, r);
    LogGrows(s, Step(s, Hook(tick, usable)), us);
  }

  /** What a drain takes was pushed, and what it uses was pushed for the next tick. */
  lemma UsedWasPushed(s: Slot, tick: nat, usable: bool, r: Drained)
    requires s.popped <= |s.pushed| && s.queue == s.pushed[s.popped..]
    requires r == Drain(s.queue, tick + 1, usable, SKIP_MAX)
    ensures s.popped + Taken(r) <= |s.pushed|
    ensures r.used.Some? ==>
              Skips(r) < Taken(r) && s.pushed[s.popped + Skips(r)] == Sp(tick + 1, r.used.value)
  {
    DrainTakesPrefix(s.queue, tick + 1, usable, SKIP_MAX);
    if r.used.Some? {
      assert s.queue[Skips(r)] == s.pushed[s.popped + Skips(r)];
    }
  }

  lemma {:induction false} RunKeepsInv(es: seq<Event>)
    ensures Inv(RunOf(es))
  {
    if es == [] {
    } else {
      RunKeepsInv(es[..|es| - 1]);
      var s := RunOf(es[..|es| - 1]);
      match es[|es| - 1]
      case Push(sp) =>
      case Hook(tick, usable) =>
        HookKeepsQueue(s, tick, usable);
        HookKeepsLog(s, tick, usable);
    }
  }

  /** In every run of pushes and hooks, with the outputs usable or not in any
      pattern: a setpoint is used, with its own value, only by the hook of the tick
      before its key and at most once, and every accepted push is used, late, dropped or waiting. */
  lemma NeverReplayed(es: seq<Event>)
    ensures var s := RunOf(es);
            && |s.pushed| == s.used + s.late + s.dropped + |s.queue| && s.used == |s.log|
            && (forall i | 0 <= i < |s.log| ::
                  s.log[i].index < |s.pushed| && s.pushed[s.log[i].index] == Sp(s.log[i].hook + 1, s.log[i].v))
            && (forall i, j | 0 <= i < j < |s.log| :: s.log[i].index != s.log[j].index)
  {
    RunKeepsInv(es);
  }

  /** One hook drops at most sixteen entries, uses at most one, uses none unless
      it is usable, and if it dropped fewer than sixteen leaves nothing behind
      that a later hook could take for a current setpoint. */
  lemma HookIsBounded(es: seq<Event>, tick: nat, usable: bool)
    ensures var s, r := RunOf(es), RunOf(es + [Hook(tick, usable)]);
            && 0 <= r.late + r.dropped - s.late - s.dropped <= 16
            && 0 <= r.used - s.used <= (if usable then 1 else 0)
            && (r.used == s.used && r.late + r.dropped < s.late + s.dropped + 16 && r.queue != [] ==>
                  r.queue[0].tick > tick + 1)
  {
    assert (es + [Hook(tick, usable)])[..|es|] == es;
    DrainTakesPrefix(RunOf(es).queue, tick + 1, usable, SKIP_MAX);
    DrainSkipsOnlyUnusable(RunOf(es).queue, tick + 1, usable, SKIP_MAX);
  }

  // ---- the exchange's output slot ------------------------------------------

  /** An output slot of the exchange hook, with its setpoint ring. */
  class OutputSlot {
    var queue: seq<Sp>
    var armed: bool
    var last: int
    var used: nat
    var late: nat
    var underrun: nat
    var droppedLost: nat

    constructor ()
      ensures queue == [] && !armed && used == late == underrun == droppedLost == 0
    {
      queue, armed, last, used, late, underrun, droppedLost := [], false, 0, 0, 0, 0, 0;
    }

    /** A SET command or a used setpoint. */
    method Apply(v: int) returns (out: Option<int>)
      modifies this`last, this`armed
      ensures last == v && armed && out == Some(v)
    {
      last, armed, out := v, true, Some(v);
    }

    /** The slot's part of the hook of one tick; `out` is what it writes into
        the process image, if anything. */
    method Hook(tick: nat, busLost: bool) returns (out: Option<int>)
      modifies this
      ensures var r := Drain(old(queue), tick + 1, !busLost, SKIP_MAX);
              && queue == r.rest
              && used == old(used) + (if r.used.Some? then 1 else 0)
              && late == old(late) + (if busLost then 0 else r.late + r.due)
              && droppedLost == old(droppedLost) + (if busLost then r.late + r.due else 0)
              && armed == (old(armed) || r.used.Some?)
              && last == (if r.used.Some? then r.used.value else old(last))
              && out == (if busLost || !armed then None else Some(last))
              && underrun == old(underrun) + (if r.used.None? && old(armed) && !busLost then 1 else 0)
    {
      var k1 := tick + 1;
      var skipped, got := 0, false;
      out := None;
      ghost var whole := Drain(queue, k1, !busLost, SKIP_MAX);
      while queue != []
        invariant skipped <= SKIP_MAX && !got && out == None
        invariant armed == old(armed) && last == old(last) && used == old(used) && underrun == old(underrun)
        invariant late == old(late) + (if busLost then 0 else skipped)
        invariant droppedLost == old(droppedLost) + (if busLost then skipped else 0)
        invariant var r := Drain(queue, k1, !busLost, SKIP_MAX - skipped);
                  whole.rest == r.rest && whole.used == r.used && whole.late + whole.due == r.late + r.due + skipped
        decreases |queue|
      {
        var e := queue[0];
        if e.tick < k1 || (busLost && e.tick == k1) {
          if skipped == SKIP_MAX {
            break;
          }
          if busLost {
            droppedLost := droppedLost + 1;
          } else {
            late := late + 1;
          }
          queue := queue[1..];
          skipped := skipped + 1;
          continue;
        }
        if busLost {
          break;
        }
        if e.tick == k1 {
          out := Apply(e.v);
          used := used + 1;
          queue := queue[1..];
          got := true;
        }
        break;
      }
      if !got && armed && !busLost {
        underrun := underrun + 1;
        out := Some(last);
      }
    }
  }
}
