/** The PDO entry table: entries appended with running offsets, and binding an
    object to a handle into the process image. */
module PdoTable {
  import opened Bits
  import opened Pdo

  const MAX_ENTRIES: nat := 1024
  const MAX_SLAVES: nat := 64

  datatype Entry = Entry(slave: nat, dir: Dir, pdo: nat, index: nat, sub: nat, bits: nat, off: nat)

  type Totals = map<(nat, Dir), nat>

  datatype Table = Table(entries: seq<Entry>, totals: Totals)

  function Total(ts: Totals, slave: nat, dir: Dir): nat {
    if (slave, dir) in ts then ts[(slave, dir)] else 0
  }

  /** Arguments of one add. */
  datatype Spec = Spec(slave: int, dir: Dir, pdo: nat, index: nat, sub: nat, bits: nat)

  predicate Accepted(t: Table, a: Spec) {
    |t.entries| < MAX_ENTRIES && 1 <= a.slave <= MAX_SLAVES && a.bits > 0
  }

  function Added(t: Table, a: Spec): Table {
    if !Accepted(t, a) then t
    else
      var off := Total(t.totals, a.slave, a.dir);
      Table(t.entries + [Entry(a.slave, a.dir, a.pdo, a.index, a.sub, a.bits, off)],
            t.totals[(a.slave, a.dir) := off + a.bits])
  }

  function Build(adds: seq<Spec>): Table {
    if adds == [] then Table([], map[]) else Added(Build(adds[..|adds| - 1]), adds[|adds| - 1])
  }

  // ---- tiling --------------------------------------------------------------

  predicate Covers(e: Entry, slave: nat, dir: Dir, x: nat) {
    e.slave == slave && e.dir == dir && e.off <= x < e.off + e.bits
  }

  predicate SameRange(e: Entry, f: Entry) {
    e.slave == f.slave && e.dir == f.dir
  }

  /** Entries lie inside their range and in order, without overlap. */
  ghost predicate Ordered(t: Table) {
    && (forall i | 0 <= i < |t.entries| ::
          var e := t.entries[i];
              1 <= e.slave <= MAX_SLAVES && e.bits > 0 && e.off + e.bits <= Total(t.totals, e.slave, e.dir))
    && (forall i, j | 0 <= i < j < |t.entries| && SameRange(t.entries[i], t.entries[j]) ::
          t.entries[i].off + t.entries[i].bits <= t.entries[j].off)
  }

  ghost predicate Held(t: Table, slave: nat, dir: Dir, x: nat) {
    exists i | 0 <= i < |t.entries| :: Covers(t.entries[i], slave, dir, x)
  }

  /** Every bit of a range belongs to an entry. */
  ghost predicate Full(t: Table) {
    forall slave: nat, dir: Dir, x: nat | x < Total(t.totals, slave, dir) :: Held(t, slave, dir, x)
  }

  lemma AddKeepsFull(t: Table, a: Spec)
    requires Full(t)
    ensures Full(Added(t, a))
  {
    var r := Added(t, a);
    if Accepted(t, a) {
      forall slave: nat, dir: Dir, x: nat | x < Total(r.totals, slave, dir)
        ensures Held(r, slave, dir, x)
      {
        if x < Total(t.totals, slave, dir) {
          assert Held(t, slave, dir, x);
          var i :| 0 <= i < |t.entries| && Covers(t.entries[i], slave, dir, x);
          assert Covers(r.entries[i], slave, dir, x);
        } else {
          assert Covers(r.entries[|t.entries|], slave, dir, x);
        }
      }
    }
  }

  /** However a table is built, its entries tile each slave's outputs and inputs:
      inside the range, in order, without overlap and without a gap. */
  lemma {:induction false} BuildTiles(adds: seq<Spec>)
    ensures Ordered(Build(adds)) && Full(Build(adds)) && |Build(adds).entries| <= MAX_ENTRIES
  {
    if adds == [] {
    } else {
      BuildTiles(adds[..|adds| - 1]);
      AddKeepsFull(Build(adds[..|adds| - 1]), adds[|adds| - 1]);
    }
  }

  // ---- handles -------------------------------------------------------------

  /** Where a slave's outputs and inputs start in its group's image. */
  datatype Loc = Loc(group: nat, outBit: nat, inBit: nat)

  function Base(loc: seq<Loc>, slave: nat, dir: Dir): nat
    requires slave < |loc|
  {
    if dir == Out then loc[slave].outBit else loc[slave].inBit
  }

  function HandleOf(loc: seq<Loc>, e: Entry): Handle
    requires e.slave < |loc|
  {
    Handle(e.slave, loc[e.slave].group, e.dir, Base(loc, e.slave, e.dir) + e.off, e.bits)
  }

  /** Ranges of one group do not overlap in its image; an empty range may lie
      anywhere. */
  ghost predicate RangesDisjoint(ts: Totals, loc: seq<Loc>) {
    forall s: nat, d: Dir, s': nat, d': Dir | s < |loc| && s' < |loc| && (s, d) != (s', d')
        && loc[s].group == loc[s'].group && Total(ts, s, d) > 0 && Total(ts, s', d') > 0 ::
      || Base(loc, s, d) + Total(ts, s, d) <= Base(loc, s', d')
      || Base(loc, s', d') + Total(ts, s', d') <= Base(loc, s, d)
  }

  /** Handles of different entries in one group name disjoint bits. */
  lemma HandlesDisjoint(adds: seq<Spec>, loc: seq<Loc>, i: nat, j: nat)
    requires |loc| > MAX_SLAVES && RangesDisjoint(Build(adds).totals, loc)
    requires i < |Build(adds).entries| && j < |Build(adds).entries| && i != j
    requires Build(adds).entries[i].slave < |loc| && Build(adds).entries[j].slave < |loc|
    requires loc[Build(adds).entries[i].slave].group == loc[Build(adds).entries[j].slave].group
    ensures var g, h := HandleOf(loc, Build(adds).entries[i]), HandleOf(loc, Build(adds).entries[j]);
            g.bit + g.bits <= h.bit || h.bit + h.bits <= g.bit
  {
    BuildTiles(adds);
    var t := Build(adds);
    var e, f := t.entries[i], t.entries[j];
    if SameRange(e, f) {
      if i < j {
        assert e.off + e.bits <= f.off;
      } else {
        assert f.off + f.bits <= e.off;
      }
    } else {
      assert (e.slave, e.dir) != (f.slave, f.dir);
    }
  }

  /** A set through one entry's handle never changes a get through another's. */
  lemma SetNeverDisturbs(adds: seq<Spec>, loc: seq<Loc>, i: nat, j: nat,
                         was: seq<byte>, io: seq<byte>, v: nat, before: nat, got: nat)
    requires |loc| > MAX_SLAVES && RangesDisjoint(Build(adds).totals, loc)
    requires i < |Build(adds).entries| && j < |Build(adds).entries| && i != j
    requires Build(adds).entries[i].slave < |loc| && Build(adds).entries[j].slave < |loc|
    requires loc[Build(adds).entries[i].slave].group == loc[Build(adds).entries[j].slave].group
    requires var g, h := HandleOf(loc, Build(adds).entries[i]), HandleOf(loc, Build(adds).entries[j]);
             && h.bit + h.bits <= 8 * |was| && Replaced(was, io, g.bit, g.bits, v)
             && Spells(was, h.bit, h.bits, before) && Spells(io, h.bit, h.bits, got)
    ensures got == before
  {
    HandlesDisjoint(adds, loc, i, j);
    var g, h := HandleOf(loc, Build(adds).entries[i]), HandleOf(loc, Build(adds).entries[j]);
    SetKeepsOthers(was, io, g.bit, g.bits, v, h.bit, h.bits, before, got);
  }

  // ---- the imperative code -------------------------------------------------

  predicate Matches(e: Entry, slave: int, index: nat, sub: nat) {
    e.slave == slave && e.index == index && e.sub == sub
  }

  datatype BindResult = Bound(handle: Handle) | Failed

  class EntryTable {
    var entries: seq<Entry>
    var totals: Totals

    ghost function View(): Table
      reads this
    {
      Table(entries, totals)
    }

    constructor ()
      ensures View() == Build([])
    {
      entries, totals := [], map[];
    }

    method Add(a: Spec) returns (ok: bool)
      modifies this
      ensures View() == Added(old(View()), a)
      ensures ok <==> Accepted(old(View()), a)
    {
      if |entries| >= MAX_ENTRIES || a.slave < 1 || a.slave > MAX_SLAVES || a.bits == 0 {
        return false;
      }
      var off := if (a.slave as nat, a.dir) in totals then totals[(a.slave as nat, a.dir)] else 0;
      entries := entries + [Entry(a.slave, a.dir, a.pdo, a.index, a.sub, a.bits, off)];
      totals := totals[(a.slave as nat, a.dir) := off + a.bits];
      ok := true;
    }

    /** Binds the first entry of the object; fails for padding, for an object
        that is not mapped, and for an entry longer than 64 bits. */
    method Bind(loc: seq<Loc>, slave: int, index: nat, sub: nat) returns (r: BindResult)
      requires forall i | 0 <= i < |entries| :: entries[i].slave < |loc|
      ensures r.Bound? ==>
                && index != 0
                && exists i | 0 <= i < |entries| ::
                     && Matches(entries[i], slave, index, sub) && entries[i].bits <= 64
                     && (forall k | 0 <= k < i :: !Matches(entries[k], slave, index, sub))
                     && r.handle == HandleOf(loc, entries[i])
      ensures r.Failed? ==>
                || index == 0
                || (forall k | 0 <= k < |entries| :: !Matches(entries[k], slave, index, sub))
                || exists i | 0 <= i < |entries| ::
                     && Matches(entries[i], slave, index, sub) && entries[i].bits > 64
                     && (forall k | 0 <= k < i :: !Matches(entries[k], slave, index, sub))
    {
      if index == 0 {
        return Failed;
      }
      for i := 0 to |entries|
        invariant forall k | 0 <= k < i :: !Matches(entries[k], slave, index, sub)
      {
        var e := entries[i];
        if e.slave != slave || e.index != index || e.sub != sub {
          continue;
        }
        assert Matches(entries[i], slave, index, sub);
        if e.bits > 64 {
          return Failed;
        }
        var base := if e.dir == Out then loc[e.slave].outBit else loc[e.slave].inBit;
        return Bound(Handle(e.slave, loc[e.slave].group, e.dir, base + e.off, e.bits));
      }
      r := Failed;
    }
  }
}
