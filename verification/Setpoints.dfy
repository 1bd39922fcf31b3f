/** Tick-keyed setpoints: the drain both the exchange hook and the axis hook run
    over a setpoint ring.

    The ring is its abstract queue (module Ring).  What the application pushes
    while a drain is running goes to the back and is either reached by the drain,
    as if it had been there before, or left for the next one. */
module Setpoints {
  import opened Wrappers

  datatype Sp = Sp(tick: nat, v: int)

  const SKIP_MAX: nat := 16

  /** What one drain did: entries dropped because their tick had passed, entries
      dropped at their tick because nothing could use them, and the one used. */
  datatype Drained = Drained(rest: seq<Sp>, late: nat, due: nat, used: Option<int>)

  /** An entry the hook for frame k1 must drop. */
  predicate Skippable(e: Sp, k1: nat, usable: bool) {
    e.tick < k1 || (e.tick == k1 && !usable)
  }

  function Drain(q: seq<Sp>, k1: nat, usable: bool, budget: nat): (r: Drained)
    decreases |q|
  {
    if q == [] || q[0].tick > k1 then Drained(q, 0, 0, None)
    else if Skippable(q[0], k1, usable) then
      if budget == 0 then Drained(q, 0, 0, None)
      else
        var r := Drain(q[1..], k1, usable, budget - 1);
        if q[0].tick < k1 then r.(late := r.late + 1) else r.(due := r.due + 1)
    else Drained(q[1..], 0, 0, Some(q[0].v))
  }

  ghost predicate AllSkippable(q: seq<Sp>, k1: nat, usable: bool) {
    forall i | 0 <= i < |q| :: Skippable(q[i], k1, usable)
  }

  function Skips(r: Drained): nat {
    r.late + r.due
  }

  /** Entries a drain takes off the ring. */
  function Taken(r: Drained): nat {
    Skips(r) + (if r.used.Some? then 1 else 0)
  }

  /** The drain takes a prefix of the ring, and the entry it uses is the last of
      it and keyed to frame k1. */
  lemma {:induction false} DrainTakesPrefix(q: seq<Sp>, k1: nat, usable: bool, budget: nat)
    ensures var r := Drain(q, k1, usable, budget);
            && Skips(r) <= budget && Taken(r) <= |q| && r.rest == q[Taken(r)..]
            && (r.used.Some? ==> usable && q[Skips(r)] == Sp(k1, r.used.value))
    decreases |q|
  {
    if q != [] && q[0].tick <= k1 && Skippable(q[0], k1, usable) && budget > 0 {
      DrainTakesPrefix(q[1..], k1, usable, budget - 1);
    }
  }

  /** Everything dropped could not go out in frame k1, and unless the budget is
      spent nothing is left for k1 or before. */
  lemma {:induction false} DrainSkipsOnlyUnusable(q: seq<Sp>, k1: nat, usable: bool, budget: nat)
    ensures var r := Drain(q, k1, usable, budget);
            && Skips(r) <= |q| && AllSkippable(q[..Skips(r)], k1, usable)
            && (r.used.None? && Skips(r) < budget ==> r.rest == [] || r.rest[0].tick > k1)
    decreases |q|
  {
    if q != [] && q[0].tick <= k1 && Skippable(q[0], k1, usable) && budget > 0 {
      DrainSkipsOnlyUnusable(q[1..], k1, usable, budget - 1);
      var n := Skips(Drain(q[1..], k1, usable, budget - 1));
      assert q[..n + 1] == [q[0]] + q[1..][..n];
    }
  }
}
