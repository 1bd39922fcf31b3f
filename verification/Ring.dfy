/** The single-producer single-consumer ring with wrapping unsigned counters.

    `m` is the range of the counters (2^64 for the exchange rings, 2^32 for the
    event and command rings) and `cap` the capacity, which divides it.  Every
    atomic load or store is one step; copying an element in takes two steps and
    the slot is `Torn` in between. */
module Ring {
  import opened Arith
  import opened Wrappers

  datatype Producer<T> = Idle | Admitted(item: T) | Copying(item: T) | Copied(item: T)
  datatype Consumer<T> = Ready | Reading | Peeked(copy: Cell<T>)

  datatype State<T> = State(
    cap: nat, m: nat, buf: seq<Cell<T>>, head: nat, tail: nat, p: Producer<T>, c: Consumer<T>,
    // history: everything pushed, everything popped, refusals and their errors
    pushed: seq<T>, popped: seq<Cell<T>>, offered: nat, refused: nat, wrongRefusals: nat, wrongEmpties: nat)

  datatype Event<T> = Prod(item: T) | Cons(pop: bool)

  ghost predicate Geometry(cap: nat, m: nat) {
    0 < cap < m && m % cap == 0
  }

  /** The capacity the exchange ring settles on: the requested one if it is a
      power of two up to 512, else 512.  Whatever is asked, it divides the range
      of the counters. */
  function EffectiveCap(cap: nat): (r: nat)
    ensures Geometry(r, 0x1_0000_0000_0000_0000) && r <= 512
    ensures r == if exists k | 0 <= k <= 9 :: cap == Pow2(k) then cap else 512
  {
    assert Pow2(3) == 8 && Pow2(6) == 64 && Pow2(9) == 512;
    if cap in {1, 2, 4, 8, 16, 32, 64, 128, 256} then cap else 512
  }

  ghost predicate Shape<T>(s: State<T>) {
    Geometry(s.cap, s.m) && |s.buf| == s.cap && s.head < s.m && s.tail < s.m
  }

  function Init<T>(cap: nat, m: nat): (r: State<T>)
    requires Geometry(cap, m)
    ensures Shape(r)
  {
    State(cap, m, seq(cap, i => Torn), 0, 0, Idle, Ready, [], [], 0, 0, 0, 0)
  }

  /** Unsigned subtraction of two counters. */
  function Distance(head: nat, tail: nat, m: nat): (d: nat)
    requires head < m && tail < m
    ensures d < m
  {
    if head >= tail then head - tail else head + m - tail
  }

  function ProducerStep<T>(s: State<T>, item: T): (r: State<T>)
    requires Shape(s)
    ensures Shape(r)
  {
    match s.p
    case Idle =>
      if Distance(s.head, s.tail, s.m) >= s.cap then
        s.(offered := s.offered + 1, refused := s.refused + 1,
           wrongRefusals := s.wrongRefusals + (if |s.pushed| - |s.popped| == s.cap then 0 else 1))
      else s.(offered := s.offered + 1, p := Admitted(item))
    case Admitted(x) => s.(buf := s.buf[s.head % s.cap := Torn], p := Copying(x))
    case Copying(x) => s.(buf := s.buf[s.head % s.cap := Whole(x)], p := Copied(x))
    case Copied(x) => s.(head := Bump(s.head, s.m), pushed := s.pushed + [x], p := Idle)
  }

  /** `pop` says whether a consumer holding an element removes it or peeks again. */
  function ConsumerStep<T>(s: State<T>, pop: bool): (r: State<T>)
    requires Shape(s)
    ensures Shape(r)
  {
    match s.c
    case Ready =>
      if s.tail == s.head then
        s.(wrongEmpties := s.wrongEmpties + (if |s.pushed| == |s.popped| then 0 else 1))
      else s.(c := Reading)
    case Reading => s.(c := Peeked(s.buf[s.tail % s.cap]))
    case Peeked(copy) =>
      if pop then s.(tail := Bump(s.tail, s.m), popped := s.popped + [copy], c := Ready)
      else s.(c := Ready)
  }

  function Step<T>(s: State<T>, e: Event<T>): (r: State<T>)
    requires Shape(s)
    ensures Shape(r)
  {
    match e
    case Prod(x) => ProducerStep(s, x)
    case Cons(pop) => ConsumerStep(s, pop)
  }

  function Exec<T>(cap: nat, m: nat, es: seq<Event<T>>): (r: State<T>)
    requires Geometry(cap, m)
    ensures Shape(r)
  {
    if es == [] then Init(cap, m) else Step(Exec(cap, m, es[..|es| - 1]), es[|es| - 1])
  }

  // ---- wrapping arithmetic -------------------------------------------------

  /** The unsigned difference of the counters is the number of elements waiting,
      however often either counter has wrapped. */
  lemma DistanceIsOccupancy(n: nat, k: nat, m: nat)
    requires k <= n < k + m && m > 0
    ensures Distance(n % m, k % m, m) == n - k
  {
    var q, r, d := k / m, k % m, n - k;
    assert k == q * m + r;
    if r + d < m {
      DivModUnique(n, m, q, r + d);
    } else {
      assert n == (q + 1) * m + (r + d - m);
      DivModUnique(n, m, q + 1, r + d - m);
    }
  }

  // ---- the invariant -------------------------------------------------------

  ghost predicate Counts<T>(s: State<T>)
    requires Shape(s)
  {
    && |s.popped| <= |s.pushed| <= |s.popped| + s.cap
    && s.head == |s.pushed| % s.m && s.tail == |s.popped| % s.m
  }

  /** Live elements are where their index says, and delivered ones were intact. */
  ghost predicate Contents<T>(s: State<T>)
    requires Shape(s) && Counts(s)
  {
    && (forall i | |s.popped| <= i < |s.pushed| :: s.buf[i % s.cap] == Whole(s.pushed[i]))
    && (forall i | 0 <= i < |s.popped| :: s.popped[i] == Whole(s.pushed[i]))
  }

  ghost predicate ProducerInv<T>(s: State<T>)
    requires Shape(s) && Counts(s)
  {
    && (!s.p.Idle? ==> |s.pushed| < |s.popped| + s.cap)
    && (s.p.Copied? ==> s.buf[|s.pushed| % s.cap] == Whole(s.p.item))
    && s.wrongRefusals == 0
    && s.offered == |s.pushed| + s.refused + (if s.p.Idle? then 0 else 1)
  }

  ghost predicate ConsumerInv<T>(s: State<T>)
    requires Shape(s) && Counts(s)
  {
    && (!s.c.Ready? ==> |s.popped| < |s.pushed|)
    && (s.c.Peeked? ==> s.c.copy == Whole(s.pushed[|s.popped|]))
    && s.wrongEmpties == 0
  }

  ghost predicate Inv<T>(s: State<T>) {
    Shape(s) && Counts(s) && Contents(s) && ProducerInv(s) && ConsumerInv(s)
  }

  lemma CopyKeepsInv<T>(s: State<T>, cell: Cell<T>, p: Producer<T>)
    requires Inv(s) && (s.p.Admitted? || s.p.Copying?)
    requires p == Copying(s.p.item) || (p == Copied(s.p.item) && cell == Whole(s.p.item))
    ensures s.head % s.cap == |s.pushed| % s.cap
    ensures Inv(s.(buf := s.buf[s.head % s.cap := cell], p := p))
  {
    ModOfMultiple(|s.pushed|, s.cap, s.m);
    forall i | |s.popped| <= i < |s.pushed| ensures i % s.cap != |s.pushed| % s.cap {
      DistinctMods(i, |s.pushed|, s.cap);
    }
  }

  lemma ProducerKeepsInv<T>(s: State<T>, item: T)
    requires Inv(s)
    ensures Inv(ProducerStep(s, item))
  {
    match s.p
    case Idle => DistanceIsOccupancy(|s.pushed|, |s.popped|, s.m);
    case Admitted(x) => CopyKeepsInv(s, Torn, Copying(x));
    case Copying(x) => CopyKeepsInv(s, Whole(x), Copied(x));
    case Copied(x) => BumpIsSuccessor(|s.pushed|, s.m);
  }

  lemma ConsumerKeepsInv<T>(s: State<T>, pop: bool)
    requires Inv(s)
    ensures Inv(ConsumerStep(s, pop))
  {
    match s.c
    case Ready => DistanceIsOccupancy(|s.pushed|, |s.popped|, s.m);
    case Reading => ModOfMultiple(|s.popped|, s.cap, s.m);
    case Peeked(copy) => BumpIsSuccessor(|s.popped|, s.m);
  }

  lemma {:induction false} ExecKeepsInv<T>(cap: nat, m: nat, es: seq<Event<T>>)
    requires Geometry(cap, m)
    ensures Inv(Exec(cap, m, es)) && Exec(cap, m, es).cap == cap && Exec(cap, m, es).m == m
  {
    if es == [] {
    } else {
      ExecKeepsInv(cap, m, es[..|es| - 1]);
      var s := Exec(cap, m, es[..|es| - 1]);
      match es[|es| - 1]
      case Prod(x) => ProducerKeepsInv(s, x);
      case Cons(pop) => ConsumerKeepsInv(s, pop);
    }
  }

  // ---- main results --------------------------------------------------------

  /** The abstract bounded queue: what was pushed and not yet popped. */
  function Queue<T>(s: State<T>): seq<T>
    requires |s.popped| <= |s.pushed|
  {
    s.pushed[|s.popped|..]
  }

  /** In every interleaving, across any number of counter wraps, the consumer
      has received exactly the first pushes in order and intact, and what waits
      fits the capacity. */
  lemma RingIsFifo<T>(cap: nat, m: nat, es: seq<Event<T>>)
    requires Geometry(cap, m)
    ensures Fifo(Exec(cap, m, es), cap)
  {
    ExecKeepsInv(cap, m, es);
    InvIsFifo(Exec(cap, m, es));
  }

  /** The popped elements are the first ones pushed, whole and in order, and the
      others lie in the buffer, whole and in order. */
  ghost predicate Fifo<T>(s: State<T>, cap: nat) {
    && cap > 0 && |s.buf| == cap && |s.popped| <= |s.pushed| && |Queue(s)| <= cap
    && (forall i | 0 <= i < |s.popped| :: s.popped[i] == Whole(s.pushed[i]))
    && (forall i | 0 <= i < |Queue(s)| :: s.buf[(|s.popped| + i) % cap] == Whole(Queue(s)[i]))
  }

  lemma InvIsFifo<T>(s: State<T>)
    requires Inv(s)
    ensures Fifo(s, s.cap)
  {
    forall i | 0 <= i < |Queue(s)| ensures s.buf[(|s.popped| + i) % s.cap] == Whole(Queue(s)[i]) {
      assert Queue(s)[i] == s.pushed[|s.popped| + i];
    }
  }

  /** Every step is exactly one queue operation: publishing enqueues the offered
      element at the back, below capacity; popping dequeues the front, which is what
      was peeked; every other step leaves the queue alone. */
  lemma StepRefinesQueue<T>(cap: nat, m: nat, es: seq<Event<T>>, e: Event<T>)
    requires Geometry(cap, m)
    ensures QueueStep(Exec(cap, m, es), e, Exec(cap, m, es + [e]))
  {
    assert (es + [e])[..|es|] == es;
    ExecKeepsInv(cap, m, es);
    InvStep(Exec(cap, m, es), e);
  }

  /** What a step does to the abstract queue. */
  ghost predicate QueueStep<T>(s: State<T>, e: Event<T>, r: State<T>) {
    && |s.popped| <= |s.pushed| && |r.popped| <= |r.pushed|
    && if s.p.Copied? && e.Prod? then |Queue(s)| < s.cap && Queue(r) == Queue(s) + [s.p.item]
       else if s.c.Peeked? && e == Cons(true) then
         Queue(s) != [] && s.c.copy == Whole(Queue(s)[0]) && Queue(r) == Queue(s)[1..]
       else Queue(r) == Queue(s)
  }

  lemma InvStep<T>(s: State<T>, e: Event<T>)
    requires Inv(s)
    ensures QueueStep(s, e, Step(s, e))
  {
    if e.Prod? && s.p.Copied? {
      SuffixGrows(s.pushed, s.p.item, |s.popped|);
    } else if e == Cons(true) && s.c.Peeked? {
      assert s.pushed[|s.popped|..][1..] == s.pushed[|s.popped| + 1..];
    }
  }

  lemma SuffixGrows<T>(xs: seq<T>, x: T, k: nat)
    requires k <= |xs|
    ensures (xs + [x])[k..] == xs[k..] + [x]
  {
  }

  /** A push is refused only when the ring was full at its tail load, a peek
      finds nothing only when it was empty at its head load, and no offer
      disappears. */
  lemma RefusalsAreHonest<T>(cap: nat, m: nat, es: seq<Event<T>>)
    requires Geometry(cap, m)
    ensures var s := Exec(cap, m, es);
            && s.wrongRefusals == 0 && s.wrongEmpties == 0
            && s.offered == |s.pushed| + s.refused + (if s.p.Idle? then 0 else 1)
  {
    ExecKeepsInv(cap, m, es);
  }

  /** The producer never writes the slot the consumer is copying. */
  lemma NoSlotRace<T>(cap: nat, m: nat, es: seq<Event<T>>)
    requires Geometry(cap, m)
    ensures var s := Exec(cap, m, es); !s.p.Idle? && !s.c.Ready? ==> s.head % cap != s.tail % cap
  {
    ExecKeepsInv(cap, m, es);
    var s := Exec(cap, m, es);
    if !s.p.Idle? && !s.c.Ready? {
      ModOfMultiple(|s.pushed|, cap, m);
      ModOfMultiple(|s.popped|, cap, m);
      DistinctMods(|s.popped|, |s.pushed|, cap);
    }
  }

  // ---- the sequential code -------------------------------------------------

  /** push, peek and pop over the element buffer; `all` and `gone` are what
      was ever pushed and how much of it was popped. */
  class SpscRing<T(0)> {
    const m: nat
    var buf: array<T>
    var head: nat
    var tail: nat
    var fullDrops: nat
    ghost var all: seq<T>
    ghost var gone: nat

    ghost predicate Valid()
      reads this, buf
    {
      && Geometry(buf.Length, m)
      && gone <= |all| <= gone + buf.Length
      && head == |all| % m && tail == gone % m
      && forall i | gone <= i < |all| :: buf[i % buf.Length] == all[i]
    }

    ghost function Queue(): seq<T>
      reads this
      requires gone <= |all|
    {
      all[gone..]
    }

    constructor (cap: nat, range: nat)
      requires Geometry(cap, range)
      ensures Valid() && fresh(buf) && buf.Length == cap && m == range && Queue() == []
    {
      m := range;
      buf := new T[cap];
      head, tail, fullDrops, all, gone := 0, 0, 0, [], 0;
    }

    method Push(x: T) returns (ok: bool)
      requires Valid()
      modifies this, buf
      ensures Valid() && buf == old(buf)
      ensures ok <==> |old(Queue())| < buf.Length
      ensures Queue() == if ok then old(Queue()) + [x] else old(Queue())
      ensures fullDrops == old(fullDrops) + (if ok then 0 else 1)
    {
      DistanceIsOccupancy(|all|, gone, m);
      if Distance(head, tail, m) >= buf.Length {
        fullDrops := fullDrops + 1;
        return false;
      }
      ModOfMultiple(|all|, buf.Length, m);
      forall i | gone <= i < |all| ensures i % buf.Length != |all| % buf.Length {
        DistinctMods(i, |all|, buf.Length);
      }
      buf[head % buf.Length] := x;
      BumpIsSuccessor(|all|, m);
      head := Bump(head, m);
      all := all + [x];
      ok := true;
    }

    method Peek() returns (ok: bool, x: T)
      requires Valid()
      ensures ok <==> Queue() != []
      ensures ok ==> x == Queue()[0]
    {
      DistanceIsOccupancy(|all|, gone, m);
      ModOfMultiple(gone, buf.Length, m);
      ok := tail != head;
      if ok {
        x := buf[tail % buf.Length];
      } else {
        x := *;
      }
    }

    /** Called after a successful peek. */
    method Pop()
      requires Valid() && Queue() != []
      modifies this
      ensures Valid() && buf == old(buf)
      ensures Queue() == old(Queue())[1..]
    {
      BumpIsSuccessor(gone, m);
      tail := Bump(tail, m);
      gone := gone + 1;
    }
  }
}
