/** The two-slot handoff between one producer thread and one consumer thread.

    Every atomic load or store of the protocol is one step; the two plain
    copies (producer into the slot, consumer out of it) and the plain store of
    the sequence number are steps of their own, and a slot is `Torn` while the
    producer's copy is in progress.  A schedule is any sequence of events: it
    says which thread moves next and what the producer offers when it starts. */
module Handoff {
  import opened Wrappers

  /** Where the producer stands inside begin / fill / commit. `quiet` fields
      remember the other slot at the time of the first load (history only). */
  datatype Producer<T> =
    | Idle
    | Second(item: T, otherWasFull: bool)
    | Chosen(k: nat, item: T)
    | Copying(k: nat, item: T)
    | Copied(k: nat, item: T)
    | Stamped(k: nat, item: T)

  /** Where the consumer stands inside get. */
  datatype Consumer<T> =
    | Ready
    | Saw0(f0: bool, wasEmpty: bool)
    | Differ(f0: bool)
    | Choosing(f0: bool, f1: bool)
    | Reading(k: nat)
    | Held(k: nat, copy: Cell<T>)

  datatype State<T> = State(
    full: seq<bool>, stamp: seq<nat>, slot: seq<Cell<T>>,
    puts: nat, nextPut: nat, p: Producer<T>, c: Consumer<T>,
    // history: what was offered, committed, delivered, and how puts and gets failed
    offered: nat, abandoned: nat, drops: nat, wrongDrops: nat, wrongEmpties: nat,
    committed: seq<T>, delivered: seq<Cell<T>>)

  datatype Event<T> = Prod(item: T) | Abandon | Cons

  function Other(k: nat): (r: nat)
    ensures k < 2 ==> r < 2 && r != k
  {
    if k == 0 then 1 else 0
  }

  function Init<T>(): State<T> {
    State([false, false], [0, 0], [Torn, Torn], 0, 0, Idle, Ready, 0, 0, 0, 0, 0, [], [])
  }

  ghost predicate Shape<T>(s: State<T>) {
    && |s.full| == |s.stamp| == |s.slot| == 2 && s.nextPut < 2
    && (s.p.Chosen? || s.p.Copying? || s.p.Copied? || s.p.Stamped? ==> s.p.k < 2)
    && (s.c.Reading? || s.c.Held? ==> s.c.k < 2)
  }

  /** One step of the producer; `item` is what it offers if it starts a put. */
  function ProducerStep<T>(s: State<T>, item: T): (r: State<T>)
    requires Shape(s)
    ensures Shape(r)
  {
    match s.p
    case Idle =>
      var t := s.(offered := s.offered + 1);
      if s.full[s.nextPut] then t.(p := Second(item, s.full[Other(s.nextPut)]))
      else t.(p := Chosen(s.nextPut, item))
    case Second(x, otherWasFull) =>
      if s.full[Other(s.nextPut)] then
        s.(p := Idle, drops := s.drops + 1, wrongDrops := s.wrongDrops + (if otherWasFull then 0 else 1))
      else s.(p := Chosen(Other(s.nextPut), x))
    case Chosen(k, x) => s.(slot := s.slot[k := Torn], p := Copying(k, x))
    case Copying(k, x) => s.(slot := s.slot[k := Whole(x)], p := Copied(k, x))
    case Copied(k, x) => s.(puts := s.puts + 1, stamp := s.stamp[k := s.puts + 1], p := Stamped(k, x))
    case Stamped(k, x) =>
      s.(full := s.full[k := true], committed := s.committed + [x], nextPut := Other(k), p := Idle)
  }

  /** An open begin that is never committed: the producer starts over. */
  function AbandonStep<T>(s: State<T>): (r: State<T>)
    requires Shape(s)
    ensures Shape(r)
  {
    if s.p.Chosen? || s.p.Copying? || s.p.Copied? then s.(p := Idle, abandoned := s.abandoned + 1) else s
  }

  /** One step of the consumer. */
  function ConsumerStep<T>(s: State<T>): (r: State<T>)
    requires Shape(s)
    ensures Shape(r)
  {
    match s.c
    case Ready => s.(c := Saw0(s.full[0], !s.full[0] && !s.full[1]))
    case Saw0(f0, wasEmpty) =>
      var f1 := s.full[1];
      if !f0 && !f1 then s.(c := Ready, wrongEmpties := s.wrongEmpties + (if wasEmpty then 0 else 1))
      else if f0 != f1 then s.(c := Differ(f0))
      else s.(c := Choosing(true, true))
    case Differ(f0) =>
      var again := s.full[if f0 then 1 else 0];
      s.(c := if again then Choosing(true, true) else Choosing(f0, !f0))
    case Choosing(f0, f1) =>
      s.(c := Reading(if f0 && f1 then (if s.stamp[0] < s.stamp[1] then 0 else 1) else if f0 then 0 else 1))
    case Reading(k) => s.(c := Held(k, s.slot[k]))
    case Held(k, copy) => s.(full := s.full[k := false], delivered := s.delivered + [copy], c := Ready)
  }

  function Step<T>(s: State<T>, e: Event<T>): (r: State<T>)
    requires Shape(s)
    ensures Shape(r)
  {
    match e
    case Prod(x) => ProducerStep(s, x)
    case Abandon => AbandonStep(s)
    case Cons => ConsumerStep(s)
  }

  /** The state after a whole schedule. */
  function Exec<T>(es: seq<Event<T>>): (r: State<T>)
    ensures Shape(r)
  {
    if es == [] then Init() else Step(Exec(es[..|es| - 1]), es[|es| - 1])
  }

  // ---- the invariant -------------------------------------------------------

  ghost predicate ProducerOwns<T>(s: State<T>, k: nat) {
    (s.p.Chosen? || s.p.Copying? || s.p.Copied? || s.p.Stamped?) && s.p.k == k
  }

  /** Slots whose plain data (payload or sequence number) the consumer reads now. */
  ghost predicate ConsumerOwns<T>(s: State<T>, k: nat) {
    || (s.c.Choosing? && s.c.f0 && s.c.f1)
    || ((s.c.Reading? || s.c.Held?) && s.c.k == k)
  }

  function Count(full: seq<bool>): nat
    requires |full| == 2
  {
    (if full[0] then 1 else 0) + (if full[1] then 1 else 0)
  }

  ghost predicate SlotOk<T>(s: State<T>, k: nat)
    requires Shape(s) && k < 2
  {
    s.full[k] ==> |s.delivered| < s.stamp[k] <= |s.committed| && s.slot[k] == Whole(s.committed[s.stamp[k] - 1])
  }

  ghost predicate SlotsHoldTheRest<T>(s: State<T>)
    requires Shape(s)
  {
    && |s.delivered| <= |s.committed|
    && Count(s.full) == |s.committed| - |s.delivered|
    && SlotOk(s, 0) && SlotOk(s, 1)
    && (s.full[0] && s.full[1] ==> s.stamp[0] != s.stamp[1])
  }

  ghost predicate ProducerInv<T>(s: State<T>)
    requires Shape(s)
  {
    && s.puts == |s.committed| + (if s.p.Stamped? then 1 else 0)
    && (s.p.Second? && s.full[Other(s.nextPut)] ==> s.p.otherWasFull)
    && (s.p.Chosen? || s.p.Copying? || s.p.Copied? || s.p.Stamped? ==> !s.full[s.p.k])
    && (s.p.Copied? || s.p.Stamped? ==> s.slot[s.p.k] == Whole(s.p.item))
    && (s.p.Stamped? ==> s.stamp[s.p.k] == s.puts)
    && s.wrongDrops == 0
    && s.offered == |s.committed| + s.drops + s.abandoned + (if s.p.Idle? then 0 else 1)
  }

  /** The oldest pending item is the next one to deliver. */
  ghost predicate Oldest<T>(s: State<T>, k: nat)
    requires Shape(s)
  {
    k < 2 && s.full[k] && s.stamp[k] == |s.delivered| + 1
  }

  ghost predicate ConsumerInv<T>(s: State<T>)
    requires Shape(s)
  {
    && s.wrongEmpties == 0
    && (match s.c
        case Ready => true
        case Saw0(f0, wasEmpty) => (f0 ==> s.full[0]) && (!f0 && !s.full[1] ==> wasEmpty)
        case Differ(f0) => s.full[if f0 then 0 else 1]
        case Choosing(f0, f1) =>
          if f0 && f1 then s.full[0] && s.full[1] else (f0 || f1) && Oldest(s, if f0 then 0 else 1)
        case Reading(k) => Oldest(s, k)
        case Held(k, copy) => Oldest(s, k) && copy == s.slot[k])
  }

  ghost predicate Inv<T>(s: State<T>) {
    Shape(s) && SlotsHoldTheRest(s) && ProducerInv(s) && ConsumerInv(s)
    && forall i | 0 <= i < |s.delivered| :: s.delivered[i] == Whole(s.committed[i])
  }

  lemma PublishKeepsInv<T>(s: State<T>, item: T)
    requires Inv(s) && s.p.Stamped?
    ensures Inv(ProducerStep(s, item))
  {
  }

  /** Steps that leave the full slots and the consumer alone. */
  lemma PrivateKeepsInv<T>(s: State<T>, r: State<T>)
    requires Inv(s) && Shape(r) && ProducerInv(r)
    requires r.full == s.full && r.committed == s.committed && r.delivered == s.delivered
    requires r.c == s.c && r.wrongEmpties == s.wrongEmpties
    requires forall k | 0 <= k < 2 && s.full[k] :: r.slot[k] == s.slot[k] && r.stamp[k] == s.stamp[k]
    ensures Inv(r)
  {
  }

  lemma ProducerKeepsInv<T>(s: State<T>, item: T)
    requires Inv(s)
    ensures Inv(ProducerStep(s, item))
  {
    if s.p.Stamped? {
      PublishKeepsInv(s, item);
    } else {
      PrivateKeepsInv(s, ProducerStep(s, item));
    }
  }

  lemma ReleaseKeepsInv<T>(s: State<T>)
    requires Inv(s) && s.c.Held?
    ensures Inv(ConsumerStep(s))
  {
  }

  /** Loads and copies change only the consumer's own position. */
  lemma LookingKeepsInv<T>(s: State<T>)
    requires Inv(s) && !s.c.Held?
    ensures Inv(ConsumerStep(s))
  {
    var r := ConsumerStep(s);
    assert r.(c := s.c, wrongEmpties := s.wrongEmpties) == s;
    assert SlotsHoldTheRest(r) && ProducerInv(r);
    assert forall k: nat | k < 2 && Oldest(s, k) :: Oldest(r, k);
    if s.c.Differ? || s.c.Choosing? {
      assert Oldest(r, 0) || Oldest(r, 1);
    }
  }

  lemma ConsumerKeepsInv<T>(s: State<T>)
    requires Inv(s)
    ensures Inv(ConsumerStep(s))
  {
    if s.c.Held? {
      ReleaseKeepsInv(s);
    } else {
      LookingKeepsInv(s);
    }
  }

  lemma AbandonKeepsInv<T>(s: State<T>)
    requires Inv(s)
    ensures Inv(AbandonStep(s))
  {
  }

  lemma StepKeepsInv<T>(s: State<T>, e: Event<T>)
    requires Inv(s)
    ensures Inv(Step(s, e))
  {
    match e
    case Prod(x) => ProducerKeepsInv(s, x);
    case Abandon => AbandonKeepsInv(s);
    case Cons => ConsumerKeepsInv(s);
  }

  lemma InitInv<T>()
    ensures Inv(Init<T>())
  {
  }

  lemma {:induction false} ExecKeepsInv<T>(es: seq<Event<T>>)
    ensures Inv(Exec(es))
  {
    if es == [] {
      InitInv<T>();
    } else {
      ExecKeepsInv(es[..|es| - 1]);
      StepKeepsInv(Exec(es[..|es| - 1]), es[|es| - 1]);
    }
  }

  // ---- main results --------------------------------------------------------

  /** Items waiting in full slots, oldest first. */
  function PendingIn<T>(full: seq<bool>, stamp: seq<nat>, slot: seq<Cell<T>>): seq<Cell<T>>
    requires |full| == |stamp| == |slot| == 2
  {
    if full[0] && full[1] then
      if stamp[0] < stamp[1] then [slot[0], slot[1]] else [slot[1], slot[0]]
    else if full[0] then [slot[0]]
    else if full[1] then [slot[1]]
    else []
  }

  function Pending<T>(s: State<T>): seq<Cell<T>>
    requires Shape(s)
  {
    PendingIn(s.full, s.stamp, s.slot)
  }

  function Wholes<T>(xs: seq<T>): (r: seq<Cell<T>>) {
    seq(|xs|, i requires 0 <= i < |xs| => Whole(xs[i]))
  }

  /** In every interleaving the delivered items followed by the full slots are
      the committed items in commit order: nothing lost, duplicated, torn or
      reordered. */
  lemma DeliveredInOrder<T>(es: seq<Event<T>>)
    ensures var s := Exec(es); s.delivered + Pending(s) == Wholes(s.committed)
  {
    ExecKeepsInv(es);
    InvDelivers(Exec(es));
  }

  /** The full slots hold the commits after the delivered ones, in order. */
  lemma PendingIsRest<T>(s: State<T>)
    requires Shape(s) && SlotsHoldTheRest(s)
    ensures |s.delivered| + |Pending(s)| == |s.committed|
    ensures forall j | 0 <= j < |Pending(s)| :: Pending(s)[j] == Whole(s.committed[|s.delivered| + j])
  {
  }

  lemma Joins<T>(xs: seq<Cell<T>>, ys: seq<Cell<T>>, all: seq<T>)
    requires |xs| + |ys| == |all|
    requires forall i | 0 <= i < |xs| :: xs[i] == Whole(all[i])
    requires forall j | 0 <= j < |ys| :: ys[j] == Whole(all[|xs| + j])
    ensures xs + ys == Wholes(all)
  {
  }

  lemma InvDelivers<T>(s: State<T>)
    requires Inv(s)
    ensures s.delivered + Pending(s) == Wholes(s.committed)
  {
    PendingIsRest(s);
    Joins(s.delivered, Pending(s), s.committed);
  }

  /** No plain datum is read by one thread while the other may write it. */
  lemma NoSlotRace<T>(es: seq<Event<T>>, k: nat)
    ensures !(ProducerOwns(Exec(es), k) && ConsumerOwns(Exec(es), k))
  {
    ExecKeepsInv(es);
    InvExcludesRace(Exec(es), k);
  }

  lemma InvExcludesRace<T>(s: State<T>, k: nat)
    requires Inv(s)
    ensures !(ProducerOwns(s, k) && ConsumerOwns(s, k))
  {
  }

  /** A put is dropped only if both slots were full at its first load, a get
      answers "empty" only if both were empty at its first load, and every
      offered item is accounted for. */
  lemma FailuresAreHonest<T>(es: seq<Event<T>>)
    ensures var s := Exec(es);
            && s.wrongDrops == 0 && s.wrongEmpties == 0
            && s.offered == |s.committed| + s.drops + s.abandoned + (if s.p.Idle? then 0 else 1)
  {
    ExecKeepsInv(es);
  }

  // ---- the re-check is needed ----------------------------------------------

  /** The consumer as it would be without looking at the other slot again. */
  function NoRecheckStep<T>(s: State<T>): (r: State<T>)
    requires Shape(s)
    ensures Shape(r)
  {
    if s.c.Differ? then s.(c := Choosing(s.c.f0, !s.c.f0)) else ConsumerStep(s)
  }

  function PutAll<T>(s: State<T>, x: T): (r: State<T>)
    requires Shape(s)
    ensures Shape(r)
  {
    ProducerStep(ProducerStep(ProducerStep(ProducerStep(ProducerStep(s, x), x), x), x), x)
  }

  /** Without the re-check the second item can be delivered before the first: slot 0
      is seen empty, then both slots are filled, then the get goes on. */
  lemma NoRecheckReorders()
    ensures var s0 := NoRecheckStep(Init<int>());
            var s1 := PutAll(PutAll(s0, 1), 2);
            var s2 := NoRecheckStep(NoRecheckStep(NoRecheckStep(NoRecheckStep(NoRecheckStep(s1)))));
            s1.committed == [1, 2] && s2.delivered == [Whole(2)]
  {
    var s0 := NoRecheckStep(Init<int>());
    var a := PutAll(s0, 1);
    assert a.committed == [1] && a.full == [true, false] && a.p.Idle? && a.nextPut == 1;
    var s1 := PutAll(a, 2);
    assert s1.committed == [1, 2] && s1.full == [true, true] && s1.slot[1] == Whole(2);
    assert s1.c == Saw0(false, true);
  }

  // ---- the sequential code -------------------------------------------------

  /** put and get as one thread runs them without interruption, over the same
      fields as the protocol state and with the same notion of pending items. */
  class TwoSlot<T(0)> {
    var full: seq<bool>
    var stamp: seq<nat>
    var slot: seq<Cell<T>>
    var puts: nat
    var drops: nat
    var nextPut: nat

    ghost predicate Valid()
      reads this
    {
      && |full| == |stamp| == |slot| == 2 && nextPut < 2
      && (forall k | 0 <= k < 2 && full[k] :: stamp[k] <= puts && slot[k].Whole?)
      && (full[0] && full[1] ==> stamp[0] != stamp[1])
    }

    /** What is waiting, oldest first. */
    ghost function Queue(): seq<Cell<T>>
      reads this
      requires Valid()
    {
      PendingIn(full, stamp, slot)
    }

    constructor ()
      ensures Valid() && Queue() == []
    {
      full, stamp, slot := [false, false], [0, 0], [Torn, Torn];
      puts, drops, nextPut := 0, 0, 0;
    }

    method Put(x: T) returns (ok: bool)
      requires Valid()
      modifies this
      ensures Valid()
      ensures ok <==> |old(Queue())| < 2
      ensures Queue() == if ok then old(Queue()) + [Whole(x)] else old(Queue())
      ensures drops == old(drops) + (if ok then 0 else 1)
    {
      var k := nextPut;
      if full[k] {
        k := Other(k);
        if full[k] {
          drops := drops + 1;
          return false;
        }
      }
      slot := slot[k := Whole(x)];
      puts := puts + 1;
      stamp := stamp[k := puts];
      full := full[k := true];
      nextPut := Other(k);
      ok := true;
    }

    method Get() returns (ok: bool, x: Cell<T>)
      requires Valid()
      modifies this
      ensures Valid()
      ensures ok <==> old(Queue()) != []
      ensures ok ==> x.Whole? && old(Queue()) == [x] + Queue()
      ensures !ok ==> Queue() == old(Queue())
    {
      var f0 := full[0];
      var f1 := full[1];
      if !f0 && !f1 {
        return false, Torn;
      }
      if f0 != f1 {
        if full[if f0 then 1 else 0] {
          f0, f1 := true, true;
        }
      }
      var k := if f0 && f1 then (if stamp[0] < stamp[1] then 0 else 1) else if f0 then 0 else 1;
      ok, x := true, slot[k];
      full := full[k := false];
    }
  }
}
