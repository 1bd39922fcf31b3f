/** Lock supervision over whole error runs, and the error window for odd cycles,
    against their descriptions in ecm_dc.h. */
module DcWindow {
  import opened Arith
  import opened DcLoop
  import opened DcProofs

  /** The sum of errors from .. to. */
  function Sum(es: seq<int>, from: nat, to: nat): int
    requires from <= to <= |es|
  {
    if from == to then 0 else Sum(es, from, to - 1) + es[to - 1]
  }

  /** Supervision of one sample with error e. */
  function Fed(d: Loop, e: int): (r: Loop)
    ensures r.cfg == d.cfg
  {
    Supervised(d.(servo := d.servo.(err := e)))
  }

  /** Supervision of successive samples with the first k of these errors. */
  function Watched(d: Loop, es: seq<int>, k: nat): (r: Loop)
    requires k <= |es|
    ensures r.cfg == d.cfg
  {
    if k == 0 then d else Fed(Watched(d, es, k - 1), es[k - 1])
  }

  /** At the start of an evaluation window. */
  predicate AtStart(d: Loop) {
    d.win.sum == 0 && d.win.n == 0 && d.cfg.lockSamples > 0 && !d.phase.Unanchored?
  }

  /** Nothing is decided inside a window. */
  lemma {:induction false} WindowFills(d: Loop, es: seq<int>, k: nat)
    requires AtStart(d) && k < d.cfg.lockSamples && k <= |es|
    ensures var r := Watched(d, es, k); r.win.sum == Sum(es, 0, k) && r.win.n == k && r.phase == d.phase
  {
    if k == 0 {
    } else {
      WindowFills(d, es, k - 1);
    }
  }

  /** At the end of a window the phase follows from the truncated mean of its
      errors alone: acquiring, it locks exactly if the mean is inside the lock
      window; locked, it unlocks exactly if the mean is beyond the unlock limit. */
  lemma WindowDecides(d: Loop, es: seq<int>)
    requires AtStart(d) && |es| == d.cfg.lockSamples
    ensures var r, mean := Watched(d, es, |es|), Abs(TDiv(Sum(es, 0, |es|), |es|));
            && AtStart(r)
            && (d.phase.Acquire? ==> r.phase == if mean < d.cfg.lockWindow then Locked else Acquire)
            && (d.phase.Locked? ==> r.phase == if mean > d.cfg.unlock then Acquire else Locked)
  {
    WindowFills(d, es, |es| - 1);
    Closes(Watched(d, es, |es| - 1), es[|es| - 1], Sum(es, 0, |es|));
  }

  lemma Closes(r: Loop, e: int, sum: int)
    requires r.cfg.lockSamples > 0 && r.win.n + 1 == r.cfg.lockSamples && sum == r.win.sum + e && !r.phase.Unanchored?
    ensures var t, mean := Fed(r, e), Abs(TDiv(sum, r.cfg.lockSamples));
            && AtStart(t)
            && t.phase == if r.phase.Acquire? then if mean < r.cfg.lockWindow then Locked else Acquire
                          else if mean > r.cfg.unlock then Acquire else Locked
  {
  }

  // ---- the description -----------------------------------------------------

  /** As described: so many consecutive errors inside the window lock, one error
      beyond the limit unlocks. */
  datatype Said = Said(locked: bool, run: nat)

  function SaidNext(c: Cfg, g: Said, e: int): Said {
    if g.locked then if Abs(e) > c.unlock then Said(false, 0) else g
    else if Abs(e) >= c.lockWindow then Said(false, 0)
    else if g.run + 1 >= c.lockSamples then Said(true, 0)
    else Said(false, g.run + 1)
  }

  function SaidRun(d: Loop, es: seq<int>, k: nat): Said
    requires k <= |es|
  {
    if k == 0 then Said(d.phase.Locked?, 0) else SaidNext(d.cfg, SaidRun(d, es, k - 1), es[k - 1])
  }

  /** Code and description agree after every sample. */
  ghost predicate DecideAlike(d: Loop, es: seq<int>) {
    forall k | 0 <= k <= |es| :: Watched(d, es, k).phase.Locked? == SaidRun(d, es, k).locked
  }

  // ---- when they part, by indices of the error list ------------------------

  /** How many errors of its evaluation window stand before error k. */
  function Offset(c: Cfg, k: nat): (n: nat)
    requires c.lockSamples > 0
    ensures n < c.lockSamples && n <= k
  {
    if k == 0 then 0 else Bump(Offset(c, k - 1), c.lockSamples)
  }

  lemma {:induction false} OffsetIsRemainder(c: Cfg, k: nat)
    requires c.lockSamples > 0
    ensures Offset(c, k) == k % c.lockSamples
  {
    if k == 0 {
    } else {
      OffsetIsRemainder(c, k - 1);
      BumpIsSuccessor(k - 1, c.lockSamples);
    }
  }

  /** The truncated mean of a whole window with that sum is below the bound. */
  predicate MeanBelow(c: Cfg, sum: int, bound: int) {
    Abs(sum) < bound * c.lockSamples
  }

  lemma MeanBelowIff(c: Cfg, sum: int, bound: int)
    requires c.lockSamples > 0
    ensures MeanBelow(c, sum, bound) <==> Abs(TDiv(sum, c.lockSamples)) < bound
  {
    var n := c.lockSamples;
    var q, r := Abs(sum) / n, Abs(sum) % n;
    TDivMagnitude(sum, n);
    assert Abs(sum) == q * n + r;
    if q < bound {
      MulAtLeast(bound - q, n);
      Distribute(bound, q, n);
    } else {
      MulMonotone(bound, q, n);
    }
  }

  lemma MulMonotone(a: int, b: int, n: nat)
    requires a <= b
    ensures a * n <= b * n
  {
  }

  /** Whether the window that starts at error a starts locked: each whole window
      before it decides by the truncated mean of its errors. */
  predicate LockedAt(c: Cfg, locked: bool, es: seq<int>, a: nat)
    requires c.lockSamples > 0 && a <= |es|
  {
    if a < c.lockSamples then locked
    else
      var from := a - c.lockSamples;
      MeanBelow(c, Sum(es, from, a), if LockedAt(c, locked, es, from) then c.unlock + 1 else c.lockWindow)
  }

  predicate Inside(c: Cfg, es: seq<int>, from: int, to: int)
    requires 0 <= from && to <= |es|
  {
    forall i | from <= i < to :: Abs(es[i]) < c.lockWindow
  }

  /** The m errors before k are inside, and were all seen acquiring: they lie in the
      window of k, or the window before that was an acquiring one too. */
  predicate RunTo(c: Cfg, locked: bool, es: seq<int>, k: nat, m: nat)
    requires 0 <= m < c.lockSamples && k <= |es|
  {
    var a := k - Offset(c, k);
    && (m <= k - a || (a >= c.lockSamples && !LockedAt(c, locked, es, a - c.lockSamples)))
    && m <= k && Inside(c, es, k - m, k)
  }

  /** Error k parts them. In a window that starts locked: it is beyond the unlock
      limit, but not the last of its window or not enough to take the mean there.
      In one that starts acquiring: it closes the window with a mean inside although
      not all its errors are, or it completes, before the window closes, a run of
      inside errors that started in the window before, an acquiring one too. */
  predicate PartsAt(c: Cfg, locked: bool, es: seq<int>, k: nat)
    requires k < |es| && c.lockSamples > 0
  {
    var a := k - Offset(c, k);
    var closes := k - a + 1 == c.lockSamples;
    var sum := Sum(es, a, k + 1);
    if LockedAt(c, locked, es, a) then Abs(es[k]) > c.unlock && !(closes && !MeanBelow(c, sum, c.unlock + 1))
    else if closes then MeanBelow(c, sum, c.lockWindow) && !Inside(c, es, a, k + 1)
    else RunTo(c, locked, es, k, c.lockSamples - 1) && Abs(es[k]) < c.lockWindow
  }

  /** The window and the phase before error k. */
  ghost predicate Standing(r: Loop, c: Cfg, locked: bool, es: seq<int>, k: nat, a: nat)
    requires c.lockSamples > 0 && a <= k <= |es|
  {
    && r.cfg == c && !r.phase.Unanchored? && r.win.n == k - a && r.win.sum == Sum(es, a, k)
    && r.phase.Locked? == LockedAt(c, locked, es, a)
  }

  /** One error more: the window grows, or its mean decides the phase. */
  ghost predicate Steps(c: Cfg, r: Loop, e: int, t: Loop) {
    && t.cfg == c && !t.phase.Unanchored?
    && if r.win.n + 1 < c.lockSamples then
         t.win.n == r.win.n + 1 && t.win.sum == r.win.sum + e && t.phase.Locked? == r.phase.Locked?
       else
         && t.win.n == 0 && t.win.sum == 0
         && t.phase.Locked? == MeanBelow(c, r.win.sum + e, if r.phase.Locked? then c.unlock + 1 else c.lockWindow)
  }

  lemma FedSteps(c: Cfg, r: Loop, e: int)
    requires c == r.cfg && !r.phase.Unanchored? && r.win.n < c.lockSamples
    ensures Steps(c, r, e, Fed(r, e))
  {
    if r.win.n + 1 == c.lockSamples {
      MeanBelowIff(c, r.win.sum + e, if r.phase.Locked? then c.unlock + 1 else c.lockWindow);
    }
  }

  lemma StandingNext(r: Loop, c: Cfg, locked: bool, es: seq<int>, k: nat, a: nat, t: Loop)
    requires c.lockSamples > 0 && a <= k < |es| && k - a < c.lockSamples && Standing(r, c, locked, es, k, a)
    requires Steps(c, r, es[k], t)
    ensures Standing(t, c, locked, es, k + 1, if k - a + 1 == c.lockSamples then k + 1 else a)
  {
  }

  /** The evaluation windows are consecutive blocks of the error list, whatever the
      phase: before error k the code holds the sum of the errors since the last block
      ended, and the phase that the means of the whole blocks decide. */
  lemma {:induction false} WindowIsRemainder(d: Loop, es: seq<int>, k: nat)
    requires AtStart(d) && k <= |es|
    ensures Standing(Watched(d, es, k), d.cfg, d.phase.Locked?, es, k, k - Offset(d.cfg, k))
    decreases k
  {
    if k == 0 {
      StandingFirst(d, es);
    } else {
      var j := k - 1;
      WindowIsRemainder(d, es, j);
      StandingOn(Watched(d, es, j), d.cfg, d.phase.Locked?, es, j);
    }
  }

  lemma StandingFirst(d: Loop, es: seq<int>)
    requires AtStart(d)
    ensures Standing(Watched(d, es, 0), d.cfg, d.phase.Locked?, es, 0, 0 - Offset(d.cfg, 0))
  {
  }

  lemma StandingOn(r: Loop, c: Cfg, locked: bool, es: seq<int>, k: nat)
    requires c.lockSamples > 0 && k < |es| && Standing(r, c, locked, es, k, k - Offset(c, k))
    ensures Standing(Fed(r, es[k]), c, locked, es, k + 1, k + 1 - Offset(c, k + 1))
  {
    FedSteps(c, r, es[k]);
    StandingNext(r, c, locked, es, k, k - Offset(c, k), Fed(r, es[k]));
  }

  // ---- while nothing parts them --------------------------------------------

  /** The description counts exactly the runs of inside errors seen acquiring. */
  ghost predicate Counts(c: Cfg, locked: bool, es: seq<int>, k: nat, g: Said)
    requires c.lockSamples > 0 && k <= |es|
  {
    g.run < c.lockSamples
    && (!g.locked ==> forall m | 0 <= m < c.lockSamples :: g.run >= m <==> RunTo(c, locked, es, k, m))
  }

  /** A run to the next error is this error inside and a run to it. */
  lemma RunNext(c: Cfg, locked: bool, es: seq<int>, k: nat, m: nat)
    requires 0 < m < c.lockSamples && k < |es| && !LockedAt(c, locked, es, k - Offset(c, k))
    ensures RunTo(c, locked, es, k + 1, m) <==> Abs(es[k]) < c.lockWindow && RunTo(c, locked, es, k, m - 1)
  {
    if m <= k + 1 {
      InsideNext(c, es, k + 1 - m, k);
    }
  }

  lemma InsideNext(c: Cfg, es: seq<int>, from: nat, k: nat)
    requires from <= k < |es|
    ensures Inside(c, es, from, k + 1) <==> Abs(es[k]) < c.lockWindow && Inside(c, es, from, k)
  {
  }

  /** Just after an unlock the run is empty. */
  lemma NoRunYet(c: Cfg, locked: bool, es: seq<int>, k: nat, m: nat)
    requires 0 < m < c.lockSamples && k < |es| && Offset(c, k) + 1 == c.lockSamples
    requires LockedAt(c, locked, es, k - Offset(c, k))
    ensures !RunTo(c, locked, es, k + 1, m)
  {
  }

  lemma CountsNext(c: Cfg, locked: bool, es: seq<int>, k: nat, g: Said)
    requires c.lockSamples > 0 && k < |es| && Counts(c, locked, es, k, g)
    requires g.locked == LockedAt(c, locked, es, k - Offset(c, k))
    requires g.locked && !SaidNext(c, g, es[k]).locked ==> Offset(c, k) + 1 == c.lockSamples
    ensures Counts(c, locked, es, k + 1, SaidNext(c, g, es[k]))
  {
    var h, next := SaidNext(c, g, es[k]), k + 1;
    if !h.locked {
      forall m | 0 <= m < c.lockSamples ensures h.run >= m <==> RunTo(c, locked, es, next, m) {
        if m > 0 && g.locked {
          NoRunYet(c, locked, es, k, m);
        } else if m > 0 {
          RunNext(c, locked, es, k, m);
        }
      }
    }
  }

  lemma OneMore(sum: int, n: nat, e: int, b: nat)
    requires Abs(sum) <= n * b && Abs(e) <= b
    ensures Abs(sum + e) <= (n + 1) * b
  {
    assert (n + 1) * b == n * b + b;
  }

  lemma {:induction false} SumWithin(es: seq<int>, from: nat, until: nat, b: nat)
    requires from <= until <= |es| && forall i | from <= i < until :: Abs(es[i]) <= b
    ensures Abs(Sum(es, from, until)) <= (until - from) * b
    decreases until
  {
    if from == until {
    } else {
      SumWithin(es, from, until - 1, b);
      OneMore(Sum(es, from, until - 1), until - 1 - from, es[until - 1], b);
    }
  }

  /** A whole window of errors within a bound has a mean within it. */
  lemma BlockWithin(c: Cfg, es: seq<int>, a: nat, to: nat, b: nat)
    requires a < to <= |es| && to - a <= c.lockSamples && forall i | a <= i < to :: Abs(es[i]) <= b
    ensures MeanBelow(c, Sum(es, a, to), b + 1)
  {
    SumWithin(es, a, to, b);
    MulMonotone(to - a, c.lockSamples, b);
    assert (b + 1) * c.lockSamples == c.lockSamples * b + c.lockSamples;
  }

  /** What holds before error k while nothing has parted them: the same phase, the
      description's count, and in a locked window no error beyond the limit. */
  ghost predicate Together(c: Cfg, locked: bool, es: seq<int>, k: nat, a: nat, g: Said)
    requires c.lockSamples > 0 && a <= k <= |es|
  {
    && g.locked == LockedAt(c, locked, es, a) && Counts(c, locked, es, k, g)
    && (g.locked ==> forall i | a <= i < k :: Abs(es[i]) <= c.unlock)
  }

  lemma LockedWindow(c: Cfg, locked: bool, es: seq<int>, k: nat, a: nat, r: Loop, g: Said, t: Loop)
    requires c.lockSamples > 0 && k < |es| && a == k - Offset(c, k) && Standing(r, c, locked, es, k, a)
    requires Together(c, locked, es, k, a, g) && g.locked && Steps(c, r, es[k], t)
    ensures t.phase.Locked? != SaidNext(c, g, es[k]).locked <==> PartsAt(c, locked, es, k)
  {
    if Abs(es[k]) <= c.unlock {
      BlockWithin(c, es, a, k + 1, c.unlock);
    }
  }

  lemma AcquiringWindow(c: Cfg, locked: bool, es: seq<int>, k: nat, a: nat, r: Loop, g: Said, t: Loop)
    requires c.lockSamples > 0 && k < |es| && a == k - Offset(c, k) && Standing(r, c, locked, es, k, a)
    requires Together(c, locked, es, k, a, g) && !g.locked && Steps(c, r, es[k], t)
    ensures t.phase.Locked? != SaidNext(c, g, es[k]).locked <==> PartsAt(c, locked, es, k)
  {
    assert g.run >= c.lockSamples - 1 <==> RunTo(c, locked, es, k, c.lockSamples - 1);
    InsideNext(c, es, a, k);
    if Inside(c, es, a, k + 1) {
      assert Abs(es[k]) < c.lockWindow;
      BlockWithin(c, es, a, k + 1, c.lockWindow - 1);
    }
  }

  /** An error parts them exactly if it shows at once. */
  lemma PartingShows(c: Cfg, locked: bool, es: seq<int>, k: nat, a: nat, r: Loop, g: Said, t: Loop)
    requires c.lockSamples > 0 && k < |es| && a == k - Offset(c, k) && Standing(r, c, locked, es, k, a)
    requires Together(c, locked, es, k, a, g) && Steps(c, r, es[k], t)
    ensures t.phase.Locked? != SaidNext(c, g, es[k]).locked <==> PartsAt(c, locked, es, k)
  {
    if g.locked {
      LockedWindow(c, locked, es, k, a, r, g, t);
    } else {
      AcquiringWindow(c, locked, es, k, a, r, g, t);
    }
  }

  lemma TogetherNext(c: Cfg, locked: bool, es: seq<int>, k: nat, a: nat, r: Loop, g: Said, t: Loop)
    requires c.lockSamples > 0 && k < |es| && a == k - Offset(c, k) && Standing(r, c, locked, es, k, a)
    requires Together(c, locked, es, k, a, g) && Steps(c, r, es[k], t) && !PartsAt(c, locked, es, k)
    ensures Together(c, locked, es, k + 1, k + 1 - Offset(c, k + 1), SaidNext(c, g, es[k]))
  {
    PartingShows(c, locked, es, k, a, r, g, t);
    StandingNext(r, c, locked, es, k, a, t);
    CountsNext(c, locked, es, k, g);
  }

  lemma FedKeepsTogether(c: Cfg, locked: bool, es: seq<int>, k: nat, r: Loop, g: Said)
    requires c.lockSamples > 0 && k < |es| && Standing(r, c, locked, es, k, k - Offset(c, k))
    requires Together(c, locked, es, k, k - Offset(c, k), g) && !PartsAt(c, locked, es, k)
    ensures Together(c, locked, es, k + 1, k + 1 - Offset(c, k + 1), SaidNext(c, g, es[k]))
  {
    FedSteps(c, r, es[k]);
    TogetherNext(c, locked, es, k, k - Offset(c, k), r, g, Fed(r, es[k]));
  }

  lemma {:induction false} StayTogether(d: Loop, es: seq<int>, k: nat)
    requires AtStart(d) && k <= |es| && forall j | 0 <= j < k :: !PartsAt(d.cfg, d.phase.Locked?, es, j)
    ensures Together(d.cfg, d.phase.Locked?, es, k, k - Offset(d.cfg, k), SaidRun(d, es, k))
    decreases k
  {
    if k == 0 {
    } else {
      var j := k - 1;
      StayTogether(d, es, j);
      WindowIsRemainder(d, es, j);
      FedKeepsTogether(d.cfg, d.phase.Locked?, es, j, Watched(d, es, j), SaidRun(d, es, j));
    }
  }

  lemma {:induction false} FirstParting(c: Cfg, locked: bool, es: seq<int>, n: nat) returns (k: nat)
    requires c.lockSamples > 0 && n <= |es| && exists j | 0 <= j < n :: PartsAt(c, locked, es, j)
    ensures k < n && PartsAt(c, locked, es, k) && forall j | 0 <= j < k :: !PartsAt(c, locked, es, j)
  {
    if exists j | 0 <= j < n - 1 :: PartsAt(c, locked, es, j) {
      k := FirstParting(c, locked, es, n - 1);
    } else {
      k := n - 1;
    }
  }

  lemma AlikeAfter(d: Loop, es: seq<int>, k: nat)
    requires AtStart(d) && k <= |es| && forall j | 0 <= j < k :: !PartsAt(d.cfg, d.phase.Locked?, es, j)
    ensures Watched(d, es, k).phase.Locked? == SaidRun(d, es, k).locked
  {
    StayTogether(d, es, k);
    WindowIsRemainder(d, es, k);
  }

  lemma ApartAfter(d: Loop, es: seq<int>, k: nat)
    requires AtStart(d) && k < |es| && PartsAt(d.cfg, d.phase.Locked?, es, k)
    requires forall j | 0 <= j < k :: !PartsAt(d.cfg, d.phase.Locked?, es, j)
    ensures Watched(d, es, k + 1).phase.Locked? != SaidRun(d, es, k + 1).locked
  {
    StayTogether(d, es, k);
    WindowIsRemainder(d, es, k);
    var r, g := Watched(d, es, k), SaidRun(d, es, k);
    FedSteps(d.cfg, r, es[k]);
    PartingShows(d.cfg, d.phase.Locked?, es, k, k - Offset(d.cfg, k), r, g, Fed(r, es[k]));
  }

  /** For every configuration, either phase and every run of errors, the code locks
      and unlocks as described if and only if no error of the run parts them. */
  lemma DecideAlikeIff(d: Loop, es: seq<int>)
    requires AtStart(d)
    ensures DecideAlike(d, es) <==> forall k | 0 <= k < |es| :: !PartsAt(d.cfg, d.phase.Locked?, es, k)
  {
    if forall k | 0 <= k < |es| :: !PartsAt(d.cfg, d.phase.Locked?, es, k) {
      forall k | 0 <= k <= |es| ensures Watched(d, es, k).phase.Locked? == SaidRun(d, es, k).locked {
        AlikeAfter(d, es, k);
      }
    } else {
      var k := FirstParting(d.cfg, d.phase.Locked?, es, |es|);
      ApartAfter(d, es, k);
    }
  }

  // ---- inputs --------------------------------------------------------------

  /** Errors that are all inside do lock if they fill one evaluation window. */
  lemma AllInsideLocks(d: Loop, es: seq<int>)
    requires AtStart(d) && |es| == d.cfg.lockSamples && d.phase.Acquire?
    requires forall i | 0 <= i < |es| :: Abs(es[i]) < d.cfg.lockWindow
    ensures Watched(d, es, |es|).phase.Locked?
  {
    assert Abs(es[0]) < d.cfg.lockWindow;
    BlockWithin(d.cfg, es, 0, |es|, d.cfg.lockWindow - 1);
    MeanBelowIff(d.cfg, Sum(es, 0, |es|), d.cfg.lockWindow);
    WindowDecides(d, es);
  }

  /** But not if they straddle two windows. */
  lemma StraddlingRunDoesNotLock(d: Loop, es: seq<int>)
    requires AtStart(d) && d.phase.Acquire? && d.cfg.lockSamples == 2 && d.cfg.lockWindow == 10
    requires es == [1000, 0, 0, 1000]
    ensures SaidRun(d, es, 3).locked && forall k | 0 <= k <= 4 :: Watched(d, es, k).phase.Acquire?
  {
    assert SaidRun(d, es, 1) == Said(false, 0) && SaidRun(d, es, 2) == Said(false, 1);
    assert Watched(d, es, 1).phase.Acquire? && Watched(d, es, 1).win.sum == 1000 && Watched(d, es, 1).win.n == 1;
    assert Watched(d, es, 2).phase.Acquire? && AtStart(Watched(d, es, 2));
    assert Watched(d, es, 3).phase.Acquire? && Watched(d, es, 3).win.sum == 0 && Watched(d, es, 3).win.n == 1;
  }

  /** Zero-sum errors, every one of them at least w. */
  function Cancelling(n: nat, w: int): (es: seq<int>)
    requires n >= 2 && w >= 0
    ensures |es| == n && forall i | 0 <= i < n :: Abs(es[i]) >= w
  {
    if n == 2 then [w, -w] else if n == 3 then [w, w, -2 * w] else Cancelling(n - 2, w) + [w, -w]
  }

  lemma {:induction false} SumOfPrefix(es: seq<int>, all: seq<int>, k: nat)
    requires k <= |es| && es <= all
    ensures Sum(all, 0, k) == Sum(es, 0, k)
  {
    if k == 0 {
    } else {
      SumOfPrefix(es, all, k - 1);
    }
  }

  lemma {:induction false} CancellingSum(n: nat, w: int, es: seq<int>)
    requires n >= 2 && w >= 0 && es == Cancelling(n, w)
    ensures Sum(es, 0, n) == 0
  {
    assert Sum(es, 0, n) == Sum(es, 0, n - 2) + es[n - 2] + es[n - 1];
    if n > 3 {
      CancellingSum(n - 2, w, Cancelling(n - 2, w));
      SumOfPrefix(Cancelling(n - 2, w), es, n - 2);
    }
  }

  /** Errors of either sign cancel: for every window of at least two samples there
      are errors, every one outside, on which it locks. */
  lemma CancellingErrorsLock(d: Loop, es: seq<int>)
    requires AtStart(d) && d.phase.Acquire? && d.cfg.lockSamples >= 2 && d.cfg.lockWindow > 0
    requires es == Cancelling(d.cfg.lockSamples, d.cfg.lockWindow)
    ensures (forall i | 0 <= i < |es| :: Abs(es[i]) >= d.cfg.lockWindow) && Watched(d, es, |es|).phase.Locked?
  {
    CancellingSum(d.cfg.lockSamples, d.cfg.lockWindow, es);
    WindowDecides(d, es);
  }

  /** And for every window of at least two samples errors beyond the unlock limit,
      every one of them, leave it locked. */
  lemma CancellingErrorsStayLocked(d: Loop, es: seq<int>)
    requires AtStart(d) && d.phase.Locked? && d.cfg.lockSamples >= 2 && d.cfg.unlock >= 0
    requires es == Cancelling(d.cfg.lockSamples, d.cfg.unlock + 1)
    ensures (forall i | 0 <= i < |es| :: Abs(es[i]) > d.cfg.unlock) && Watched(d, es, |es|).phase.Locked?
    ensures !SaidRun(d, es, 1).locked
  {
    CancellingSum(d.cfg.lockSamples, d.cfg.unlock + 1, es);
    WindowDecides(d, es);
  }

  /** One error beyond the limit unlocks as described, but not in the code unless it
      is the last of its window. */
  lemma OneErrorStaysLocked(d: Loop, e: int)
    requires AtStart(d) && d.phase.Locked? && d.cfg.lockSamples >= 2 && Abs(e) > d.cfg.unlock
    ensures !SaidRun(d, [e], 1).locked && Watched(d, [e], 1).phase.Locked?
  {
  }

  // ---- odd cycles ----------------------------------------------------------

  /** The error never exceeds half a cycle if and only if the cycle is even. */
  lemma HalfCycleIff(c: Cfg)
    requires CfgOk(c)
    ensures (forall x :: 2 * PhaseError(c, x) <= c.cycle) <==> c.cycle % 2 == 0
  {
    if c.cycle % 2 == 0 {
      forall x ensures 2 * PhaseError(c, x) <= c.cycle {
        PhaseErrorMeaning(c, x);
      }
    } else {
      OddCycleError(c, c.setpoint + (c.cycle + 1) / 2);
    }
  }

  lemma OddCycleError(c: Cfg, x: int)
    requires CfgOk(c) && c.cycle % 2 == 1 && x == c.setpoint + (c.cycle + 1) / 2
    ensures 2 * PhaseError(c, x) == c.cycle + 1
  {
    if x < c.cycle {
      DivModUnique(x, c.cycle, 0, x);
    } else {
      DivModUnique(x, c.cycle, 1, x - c.cycle);
    }
  }
}
