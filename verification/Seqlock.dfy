/** The sequence-locked record: one writer that never waits, any number of
    readers that copy the words and accept the copy only if the sequence number
    did not move.

    A record is the tick followed by its words, `len` in all; the sequence
    number counts modulo 2 * half (half is 2^31 in the source).  Each load and
    each store is one step of an arbitrary schedule. */
module Seqlock {
  import opened Arith

  datatype Writer<V> = Idle | Storing(rec: seq<V>, i: nat)

  /** `from` / `to` count the completed writes at the two loads of the sequence
      number (history only). */
  datatype Reader<V> =
    | Start
    | Copying(s1: nat, copy: seq<V>, from: nat)
    | Accepted(copy: seq<V>, from: nat, to: nat)

  datatype State<V> = State(
    len: nat, half: nat, num: nat, mem: seq<V>, w: Writer<V>, readers: map<nat, Reader<V>>,
    written: seq<seq<V>>)  // history: written[k] is the record after k writes

  datatype Event<V> = Write(rec: seq<V>) | Read(id: nat)

  ghost predicate Shape<V>(s: State<V>) {
    && s.half > 0 && s.num < 2 * s.half && |s.mem| == s.len
    && (s.w.Storing? ==> |s.w.rec| == s.len && s.w.i <= s.len)
    && (forall id | id in s.readers && s.readers[id].Copying? :: |s.readers[id].copy| <= s.len)
  }

  function Init<V>(half: nat, rec: seq<V>): (r: State<V>)
    requires half > 0
    ensures Shape(r)
  {
    State(|rec|, half, 0, rec, Idle, map[], [rec])
  }

  /** The writer: odd number, words one by one, even number. */
  function WriterStep<V>(s: State<V>, rec: seq<V>): (r: State<V>)
    requires Shape(s)
    ensures Shape(r)
  {
    match s.w
    case Idle =>
      if |rec| == s.len then s.(num := Bump(s.num, 2 * s.half), w := Storing(rec, 0)) else s
    case Storing(x, i) =>
      if i < s.len then s.(mem := s.mem[i := x[i]], w := Storing(x, i + 1))
      else s.(num := Bump(s.num, 2 * s.half), w := Idle, written := s.written + [x])
  }

  /** One try of a reader; a moved or odd sequence number sends it back. */
  function ReaderNext<V>(s: State<V>, r: Reader<V>): (r': Reader<V>)
    requires Shape(s) && (r.Copying? ==> |r.copy| <= s.len)
    ensures r'.Copying? ==> |r'.copy| <= s.len
  {
    match r
    case Copying(s1, copy, from) =>
      if |copy| < s.len then Copying(s1, copy + [s.mem[|copy|]], from)
      else if s.num == s1 then Accepted(copy, from, |s.written|)
      else Start
    case _ => if s.num % 2 == 1 then Start else Copying(s.num, [], |s.written|)
  }

  function ReaderStep<V>(s: State<V>, id: nat): (r: State<V>)
    requires Shape(s)
    ensures Shape(r)
  {
    s.(readers := s.readers[id := ReaderNext(s, if id in s.readers then s.readers[id] else Start)])
  }

  function Step<V>(s: State<V>, e: Event<V>): (r: State<V>)
    requires Shape(s)
    ensures Shape(r)
  {
    match e
    case Write(rec) => WriterStep(s, rec)
    case Read(id) => ReaderStep(s, id)
  }

  function Exec<V>(half: nat, rec: seq<V>, es: seq<Event<V>>): (r: State<V>)
    requires half > 0
    ensures Shape(r)
  {
    if es == [] then Init(half, rec) else Step(Exec(half, rec, es[..|es| - 1]), es[|es| - 1])
  }

  // ---- the invariant -------------------------------------------------------

  /** Running value of the sequence number before reduction. */
  ghost function Raw<V>(s: State<V>): int {
    2 * (|s.written| - 1) + (if s.w.Idle? then 0 else 1)
  }

  ghost predicate WriterInv<V>(s: State<V>)
    requires Shape(s)
  {
    && |s.written| >= 1 && s.num == Raw(s) % (2 * s.half)
    && (forall k | 0 <= k < |s.written| :: |s.written[k]| == s.len)
    && (s.w.Idle? ==> s.mem == s.written[|s.written| - 1])
    && (s.w.Storing? ==> s.mem[..s.w.i] == s.w.rec[..s.w.i])
  }

  /** Until the next write starts, what a reader has copied is the record that
      was current when it loaded the sequence number. */
  ghost predicate ReaderInv<V>(s: State<V>, r: Reader<V>)
    requires Shape(s) && WriterInv(s)
  {
    match r
    case Start => true
    case Copying(s1, copy, from) =>
      && 1 <= from <= |s.written| && |copy| <= s.len
      && s1 == (2 * (from - 1)) % (2 * s.half)
      && (from == |s.written| && s.w.Idle? ==> copy == s.mem[..|copy|])
    case Accepted(copy, from, to) =>
      && 1 <= from <= to <= |s.written|
      && (to - from < s.half ==> copy == s.written[from - 1])
  }

  ghost predicate Inv<V>(s: State<V>) {
    Shape(s) && WriterInv(s)
    && forall id | id in s.readers :: ReaderInv(s, s.readers[id])
  }

  /** The reduced number is odd exactly while a write is in progress. */
  lemma ParityTellsWriting(n: nat, half: nat)
    requires half > 0
    ensures (n % (2 * half)) % 2 == n % 2
  {
    ModOfMultiple(n, 2, 2 * half);
  }

  /** Equal even numbers fewer than `half` writes apart mean no write at all. */
  lemma EqualNumbersMeanNoWrite(a: nat, n: nat, half: nat)
    requires half > 0 && 2 * a <= n < 2 * a + 2 * half
    requires (2 * a) % (2 * half) == n % (2 * half)
    ensures n == 2 * a
  {
    if n > 2 * a {
      DistinctMods(2 * a, n, 2 * half);
    }
  }

  lemma WriterKeepsInv<V>(s: State<V>, rec: seq<V>)
    requires Inv(s)
    ensures Inv(WriterStep(s, rec))
  {
    BumpIsSuccessor(Raw(s), 2 * s.half);
    var r := WriterStep(s, rec);
    if s.w.Storing? && s.w.i < s.len {
      assert r.mem[..s.w.i + 1] == s.w.rec[..s.w.i + 1];
    } else if s.w.Storing? {
      assert s.mem == s.mem[..s.len] && s.w.rec == s.w.rec[..s.len];
    }
    assert WriterInv(r);
    forall id | id in r.readers ensures ReaderInv(r, r.readers[id]) {
      assert ReaderInv(s, s.readers[id]);
    }
  }

  lemma ReaderNextKeepsInv<V>(s: State<V>, r: Reader<V>)
    requires Inv(s) && ReaderInv(s, r)
    ensures ReaderInv(s, ReaderNext(s, r))
  {
    match r
    case Copying(s1, copy, from) =>
      if |copy| < s.len {
        CopyGrows(s, s1, copy, from);
      } else if s.num == s1 {
        CopyAccepted(s, s1, copy, from);
      }
    case _ => ParityTellsWriting(Raw(s), s.half);
  }

  lemma CopyGrows<V>(s: State<V>, s1: nat, copy: seq<V>, from: nat)
    requires Shape(s) && WriterInv(s) && ReaderInv(s, Copying(s1, copy, from)) && |copy| < s.len
    ensures ReaderInv(s, Copying(s1, copy + [s.mem[|copy|]], from))
  {
    assert s.mem[..|copy|] + [s.mem[|copy|]] == s.mem[..|copy| + 1];
  }

  lemma CopyAccepted<V>(s: State<V>, s1: nat, copy: seq<V>, from: nat)
    requires Shape(s) && WriterInv(s) && ReaderInv(s, Copying(s1, copy, from)) && |copy| == s.len && s.num == s1
    ensures ReaderInv(s, Accepted(copy, from, |s.written|))
  {
    if |s.written| - from < s.half {
      EqualNumbersMeanNoWrite(from - 1, Raw(s), s.half);
      assert s.mem == s.mem[..s.len];
    }
  }

  lemma ReaderKeepsInv<V>(s: State<V>, id: nat)
    requires Inv(s)
    ensures Inv(ReaderStep(s, id))
  {
    var r := if id in s.readers then s.readers[id] else Start;
    assert ReaderInv(s, r);
    ReaderNextKeepsInv(s, r);
    var t := ReaderStep(s, id);
    forall j | j in t.readers ensures ReaderInv(t, t.readers[j]) {
      if j != id {
        assert ReaderInv(s, s.readers[j]);
      }
    }
  }

  lemma InitInv<V>(half: nat, rec: seq<V>)
    requires half > 0
    ensures Inv(Init(half, rec))
  {
    DivModUnique(0, 2 * half, 0, 0);
  }

  lemma {:induction false} ExecKeepsInv<V>(half: nat, rec: seq<V>, es: seq<Event<V>>)
    requires half > 0
    ensures Inv(Exec(half, rec, es)) && Exec(half, rec, es).half == half && Exec(half, rec, es).len == |rec|
  {
    if es == [] {
      InitInv(half, rec);
    } else {
      ExecKeepsInv(half, rec, es[..|es| - 1]);
      var s := Exec(half, rec, es[..|es| - 1]);
      match es[|es| - 1]
      case Write(x) => WriterKeepsInv(s, x);
      case Read(id) => ReaderKeepsInv(s, id);
    }
  }

  // ---- main result ---------------------------------------------------------

  /** In every schedule, with any number of readers and across wraps of the
      sequence number: a copy accepted with fewer than `half` writes between
      its two loads is exactly the one record that was current at the first. */
  lemma AcceptedCopyIsOneRecord<V>(half: nat, rec: seq<V>, es: seq<Event<V>>, s: State<V>, id: nat, r: Reader<V>)
    requires half > 0 && s == Exec(half, rec, es) && id in s.readers && r == s.readers[id] && r.Accepted?
    ensures 1 <= r.from <= r.to <= |s.written|
    ensures r.to - r.from < half ==> r.copy == s.written[r.from - 1]
  {
    ExecKeepsInv(half, rec, es);
    assert ReaderInv(s, r);
  }

  // ---- the bound is exact --------------------------------------------------

  const OLD: seq<int> := [0, 0]
  const NEW: seq<int> := [1, 1]

  function Blocks(k: nat): seq<Event<int>> {
    if k == 0 then [Read(0), Read(0)]
    else Blocks(k - 1) + [Write(NEW), Write(NEW), Write(NEW), Write(NEW)]
  }

  lemma ExecSnoc<V>(half: nat, rec: seq<V>, es: seq<Event<V>>, e: Event<V>)
    requires half > 0
    ensures Exec(half, rec, es + [e]) == Step(Exec(half, rec, es), e)
  {
  }

  lemma FirstWordCopied(half: nat)
    requires half > 0
    ensures Exec(half, OLD, Blocks(0)) == Init(half, OLD).(readers := map[0 := Copying(0, [0], 1)])
  {
    assert Blocks(0) == [Read(0)] + [Read(0)];
    var s := Init(half, OLD);
    var one: seq<Event<int>> := [Read(0)];
    assert one[..0] == [];
    assert Exec(half, OLD, one) == ReaderStep(s, 0);
    var t := ReaderStep(s, 0);
    assert t.readers == map[0 := Copying(0, [], 1)];
    ExecSnoc(half, OLD, one, Read(0));
    assert ReaderNext(t, Copying(0, [], 1)) == Copying(0, [0], 1);
    assert ReaderStep(t, 0).readers == map[0 := Copying(0, [0], 1)];
  }

  /** Two reader steps, then k whole writes. */
  lemma {:induction false} ExecBlocks(half: nat, k: nat)
    requires half > 0
    ensures var s := Exec(half, OLD, Blocks(k));
            && s.half == half && s.len == 2 && s.w.Idle? && |s.written| == k + 1
            && s.readers == map[0 := Copying(0, [0], 1)]
            && s.mem == (if k == 0 then OLD else NEW)
            && (forall i | 0 <= i <= k :: s.written[i] == if i == 0 then OLD else NEW)
  {
    if k == 0 {
      FirstWordCopied(half);
    } else {
      ExecBlocks(half, k - 1);
      OneBlock(half, k);
    }
  }

  lemma BlockEffect(s: State<int>)
    requires Shape(s) && s.w.Idle? && s.len == 2
    ensures var r := WriterStep(WriterStep(WriterStep(WriterStep(s, NEW), NEW), NEW), NEW);
            && r.w.Idle? && r.mem == NEW && r.written == s.written + [NEW]
            && r.readers == s.readers && r.len == 2 && r.half == s.half
  {
  }

  lemma OneBlock(half: nat, k: nat)
    requires half > 0 && k > 0
    requires var s := Exec(half, OLD, Blocks(k - 1)); s.w.Idle? && s.len == 2
    ensures var s, r := Exec(half, OLD, Blocks(k - 1)), Exec(half, OLD, Blocks(k));
            && r.w.Idle? && r.mem == NEW && r.written == s.written + [NEW]
            && r.readers == s.readers && r.len == 2 && r.half == s.half
  {
    var es, e := Blocks(k - 1), Write(NEW);
    assert Blocks(k) == (((es + [e]) + [e]) + [e]) + [e];
    ExecSnoc(half, OLD, es, e);
    ExecSnoc(half, OLD, es + [e], e);
    ExecSnoc(half, OLD, (es + [e]) + [e], e);
    ExecSnoc(half, OLD, ((es + [e]) + [e]) + [e], e);
    BlockEffect(Exec(half, OLD, es));
  }

  lemma NumberComesRound(half: nat)
    requires half > 0
    ensures Exec(half, OLD, Blocks(half)).num == 0
  {
    ExecBlocks(half, half);
    ExecKeepsInv(half, OLD, Blocks(half));
    DivModUnique(2 * half, 2 * half, 1, 0);
  }

  /** With exactly `half` writes inside one read the number comes round and a
      mixed copy, equal to no record ever written, is accepted. */
  lemma HalfWritesCanTear(half: nat)
    requires half > 0
    ensures var s := Exec(half, OLD, Blocks(half) + [Read(0)] + [Read(0)]);
            && 0 in s.readers && s.readers[0] == Accepted([0, 1], 1, half + 1)
            && [0, 1] !in s.written
  {
    ExecBlocks(half, half);
    NumberComesRound(half);
    var s := Exec(half, OLD, Blocks(half));
    ExecSnoc(half, OLD, Blocks(half), Read(0));
    ExecSnoc(half, OLD, Blocks(half) + [Read(0)], Read(0));
    LastReads(s, ReaderStep(s, 0));
  }

  /** The second word and the second load of a read begun at number zero. */
  lemma LastReads(s: State<int>, t: State<int>)
    requires Shape(s) && s.len == 2 && s.num == 0 && s.mem == NEW && s.readers == map[0 := Copying(0, [0], 1)]
    requires t == ReaderStep(s, 0)
    ensures var r := ReaderStep(t, 0);
            0 in r.readers && r.readers[0] == Accepted([0, 1], 1, |s.written|) && r.written == s.written
  {
    assert t.readers[0] == Copying(0, [0] + [1], 1);
  }

  // ---- the sequential code -------------------------------------------------

  /** The record as the writer fills it and a reader copies it. */
  class Record<V(0)> {
    const half: nat
    var num: nat
    var mem: array<V>

    ghost predicate Valid()
      reads this
    {
      half > 0 && num < 2 * half
    }

    constructor (n: nat, h: nat)
      requires h > 0
      ensures Valid() && num == 0 && half == h && fresh(mem) && mem.Length == n
    {
      half, num, mem := h, 0, new V[n];
    }

    method Write(rec: seq<V>)
      requires Valid() && |rec| == mem.Length
      modifies this, mem
      ensures Valid() && mem == old(mem) && mem[..] == rec
      ensures num == (old(num) + 2) % (2 * half)
    {
      var q := num;
      num := Bump(q, 2 * half);
      for i := 0 to |rec|
        invariant mem == old(mem) && num == Bump(q, 2 * half)
        invariant mem[..i] == rec[..i]
      {
        mem[i] := rec[i];
      }
      assert mem[..] == mem[..|rec|];
      num := Bump(num, 2 * half);
      BumpTwice(q, half);
    }

    /** Alone, a reader is refused only if the number is odd. */
    method Read(tries: nat) returns (ok: bool, copy: seq<V>)
      requires Valid()
      ensures ok <==> num % 2 == 0 && tries > 0
      ensures ok ==> copy == mem[..]
    {
      ok, copy := false, [];
      var t := 0;
      while t < tries && !ok
        invariant t <= tries && (t > 0 ==> (ok <==> num % 2 == 0)) && (t == 0 ==> !ok)
        invariant ok ==> copy == mem[..]
      {
        var s1 := num;
        if s1 % 2 == 0 {
          copy := [];
          for i := 0 to mem.Length
            invariant copy == mem[..i]
          {
            copy := copy + [mem[i]];
          }
          assert mem[..mem.Length] == mem[..];
          ok := num == s1;
        }
        t := t + 1;
      }
    }
  }

  lemma BumpTwice(q: nat, half: nat)
    requires half > 0 && q < 2 * half
    ensures Bump(Bump(q, 2 * half), 2 * half) == (q + 2) % (2 * half)
  {
    if q + 2 >= 2 * half {
      DivModUnique(q + 2, 2 * half, 1, q + 2 - 2 * half);
    } else {
      DivModUnique(q + 2, 2 * half, 0, q + 2);
    }
  }
}
