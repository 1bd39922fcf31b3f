/** The published axis record: packed into eight 64-bit words by the hook,
    carried through the sequence-locked record, unpacked by a reader. */
module AxisRecord {
  import opened Arith
  import opened Bits
  import opened Setpoints
  import opened Axis
  import opened AxisRuns
  import Seqlock

  // ---- packing fields into a word ------------------------------------------

  datatype Field = Field(v: nat, off: nat, width: nat)

  /** The fields shifted to their places and or-ed together. */
  function Pack(fs: seq<Field>): nat {
    if fs == [] then 0 else Or(Shl(fs[0].v, fs[0].off), Pack(fs[1..]))
  }

  /** (word >> off) cut to width bits. */
  function Extract(word: nat, off: nat, width: nat): nat {
    And(Shr(word, off), Ones(width))
  }

  predicate Fits(f: Field) {
    f.v < Pow2(f.width)
  }

  /** Fields that fit and follow each other without overlap. */
  predicate Layout(fs: seq<Field>) {
    fs == [] || (Fits(fs[0]) && (|fs| == 1 || fs[0].off + fs[0].width <= fs[1].off) && Layout(fs[1..]))
  }

  lemma {:induction false} LayoutByIndex(fs: seq<Field>)
    requires forall i | 0 <= i < |fs| :: Fits(fs[i])
    requires forall i | 0 <= i < |fs| - 1 :: fs[i].off + fs[i].width <= fs[i + 1].off
    ensures Layout(fs)
  {
    if fs == [] {
    } else {
      LayoutByIndex(fs[1..]);
    }
  }

  /** Below the first field's offset nothing is set. */
  lemma {:induction false} NothingBelow(fs: seq<Field>, k: nat)
    requires Layout(fs) && (fs == [] || k < fs[0].off)
    ensures !Bit(Pack(fs), k)
    decreases |fs|
  {
    if fs == [] {
      BitOfZero(k);
    } else {
      BitOfOr(Shl(fs[0].v, fs[0].off), Pack(fs[1..]), k);
      BitOfShl(fs[0].v, fs[0].off, k);
      NothingBelow(fs[1..], k);
    }
  }

  /** Inside a field the packed word has the field's bits. */
  lemma {:induction false} BitOfPack(fs: seq<Field>, i: nat, k: nat)
    requires Layout(fs) && i < |fs| && k < fs[i].width
    ensures Bit(Pack(fs), fs[i].off + k) == Bit(fs[i].v, k)
    decreases |fs|
  {
    var at := fs[i].off + k;
    BitOfOr(Shl(fs[0].v, fs[0].off), Pack(fs[1..]), at);
    BitOfShl(fs[0].v, fs[0].off, at);
    if i == 0 {
      NothingBelow(fs[1..], at);
    } else {
      BitOfPack(fs[1..], i - 1, k);
      LayoutAscends(fs, i);
      HighBitsClear(fs[0].v, fs[0].width, at - fs[0].off);
    }
  }

  lemma {:induction false} LayoutAscends(fs: seq<Field>, i: nat)
    requires Layout(fs) && 0 < i < |fs|
    ensures fs[0].off + fs[0].width <= fs[i].off
    decreases |fs|
  {
    if i > 1 {
      LayoutAscends(fs[1..], i - 1);
    }
  }

  lemma {:induction false} LayoutFits(fs: seq<Field>, i: nat)
    requires Layout(fs) && i < |fs|
    ensures Fits(fs[i])
    decreases |fs|
  {
    if i > 0 {
      LayoutFits(fs[1..], i - 1);
    }
  }

  /** Every field of a proper layout is read back. */
  lemma ExtractsBack(fs: seq<Field>, i: nat)
    requires Layout(fs) && i < |fs|
    ensures Extract(Pack(fs), fs[i].off, fs[i].width) == fs[i].v
  {
    var f := fs[i];
    LayoutFits(fs, i);
    forall k: nat ensures Bit(Extract(Pack(fs), f.off, f.width), k) == Bit(f.v, k) {
      BitOfAnd(Shr(Pack(fs), f.off), Ones(f.width), k);
      BitOfOnes(f.width, k);
      BitOfShr(Pack(fs), f.off, k);
      if k < f.width {
        BitOfPack(fs, i, k);
      } else {
        HighBitsClear(f.v, f.width, k);
      }
    }
    SameBits(Extract(Pack(fs), f.off, f.width), f.v);
  }

  // ---- numbers of the record -----------------------------------------------

  function DsCode(d: Ds): nat {
    match d
    case Unknown => 0 case NotReady => 1 case Sod => 2 case Rtso => 3 case So => 4
    case Oe => 5 case Qsa => 6 case Fra => 7 case Fault => 8
  }

  function TargetCode(t: Target): nat {
    match t
    case Disabled => 0 case Enabled => 1 case QuickStop => 2
  }

  function ErrCode(e: Err): nat {
    match e
    case NoError => 0 case Timeout => 1 case DriveFault => 2 case BusLost => 3 case ModeErr => 4 case InFault => 5
    case Dropped => 6 case StepErr => 7 case ShutdownErr => 8 case Handshake => 9 case HomingErr => 10
    case ConfigErr => 11 case SlaveFailed => 12
  }

  function HmCode(h: HmPhase): nat {
    match h
    case HmIdle => 0 case HmRunning => 1 case HmDone => 2 case HmFailed => 3
  }

  function Word(c: Control): nat {
    c.base + (if c.b4 then 0x10 else 0) + (if c.b5 then 0x20 else 0) + (if c.b6 then 0x40 else 0)
  }

  /** Two's complement of a 32-bit or 8-bit number, and back. */
  function U32(x: int): nat {
    x % 0x1_0000_0000
  }

  function S32(u: nat): int {
    if u < 0x8000_0000 then u else u - 0x1_0000_0000
  }

  function U8(x: int): nat {
    x % 256
  }

  function S8(u: nat): int {
    if u < 128 then u else u - 256
  }

  /** What a reader gets. */
  datatype Record = Record(
    tick: nat, sw: nat, cw: nat, ecode: nat, ds: nat, target: nat, err: nat, errDs: nat, modeOk: nat,
    modeDisp: int, modeReq: int, apos: int, avel: int, used: nat, late: nat, underrun: nat, dropped: nat,
    lastSeq: nat, stepRefused: nat, homed: nat, hmPhase: nat, ppPhase: nat, ppN: nat, ppAcked: nat)

  /** The axis state as a record; counters are cut to their published width. */
  function StateOf(a: Axis, tick: nat): Record {
    Record(tick, a.drive.sw.word, Word(a.cw), a.drive.ecode, DsCode(a.drive.ds), TargetCode(a.power.target),
           ErrCode(a.power.err), DsCode(a.power.errDs), Num(a.mode.ok), a.drive.modeDisp, a.mode.req, a.drive.apos,
           a.drive.avel, a.motion.used % 0x1_0000_0000_0000_0000, a.motion.late % 0x1_0000_0000_0000_0000,
           a.motion.underrun % 0x1_0000_0000_0000_0000, a.motion.dropped % 0x1_0000_0000, a.lastSeq,
           a.motion.stepRefused % 0x1_0000_0000, Num(a.hm.homed), HmCode(a.hm.phase), a.pp.phase, a.pp.n,
           a.pp.acked % 0x1_0000_0000)
  }

  function Fields0(a: Axis): seq<Field> {
    [Field(a.drive.sw.word, 0, 16), Field(Word(a.cw), 16, 16), Field(DsCode(a.drive.ds), 32, 8),
     Field(TargetCode(a.power.target), 40, 8), Field(ErrCode(a.power.err), 48, 8), Field(DsCode(a.power.errDs), 56, 8)]
  }

  function Fields1(a: Axis): seq<Field> {
    [Field(U32(a.drive.apos), 0, 32), Field(U32(a.drive.avel), 32, 32)]
  }

  function Fields2(a: Axis): seq<Field> {
    [Field(a.drive.ecode, 0, 16), Field(U8(a.drive.modeDisp), 16, 8), Field(Num(a.mode.ok), 24, 8),
     Field(U8(a.mode.req), 32, 8), Field(Num(a.hm.homed), 40, 1), Field(HmCode(a.hm.phase), 41, 2),
     Field(a.pp.phase, 43, 2), Field(a.pp.n, 45, 5)]
  }

  function Fields6(a: Axis): seq<Field> {
    [Field(a.lastSeq, 0, 32), Field(a.motion.stepRefused % 0x1_0000_0000, 32, 32)]
  }

  function Fields7(a: Axis): seq<Field> {
    [Field(a.motion.dropped % 0x1_0000_0000, 0, 32), Field(a.pp.acked % 0x1_0000_0000, 32, 32)]
  }

  /** The eight words the hook publishes, after the tick. */
  function Published(a: Axis, tick: nat): (ws: seq<nat>)
    ensures |ws| == 9
  {
    [tick, Pack(Fields0(a)), Pack(Fields1(a)), Pack(Fields2(a)), a.motion.used % 0x1_0000_0000_0000_0000,
     a.motion.late % 0x1_0000_0000_0000_0000, a.motion.underrun % 0x1_0000_0000_0000_0000,
     Pack(Fields6(a)), Pack(Fields7(a))]
  }

  /** The reader's decoding of tick and words. */
  function Unpacked(ws: seq<nat>): Record
    requires |ws| == 9
  {
    var w0, w1, w2, w6, w7 := ws[1], ws[2], ws[3], ws[7], ws[8];
    Record(ws[0], Extract(w0, 0, 16), Extract(w0, 16, 16), Extract(w2, 0, 16), Extract(w0, 32, 8), Extract(w0, 40, 8),
           Extract(w0, 48, 8), Extract(w0, 56, 8), Extract(w2, 24, 8), S8(Extract(w2, 16, 8)), S8(Extract(w2, 32, 8)),
           S32(Extract(w1, 0, 32)), S32(Extract(w1, 32, 32)), ws[4], ws[5], ws[6], Extract(w7, 0, 32),
           Extract(w6, 0, 32), Extract(w6, 32, 32), Extract(w2, 40, 1), Extract(w2, 41, 2), Extract(w2, 43, 2),
           Extract(w2, 45, 5), Extract(w7, 32, 32))
  }

  // ---- round trip ----------------------------------------------------------

  /** Process data within the width of their objects. */
  predicate DriveInRange(d: Drive) {
    && d.sw.word < 0x1_0000 && d.ecode < 0x1_0000 && -128 <= d.modeDisp < 128
    && -0x8000_0000 <= d.apos < 0x8000_0000 && -0x8000_0000 <= d.avel < 0x8000_0000
  }

  predicate InRange(a: Axis) {
    && DriveInRange(a.drive) && -128 <= a.mode.req < 128 && a.lastSeq < 0x1_0000_0000
    && a.cw.base < 0x100 && PointsShape(a.pp)
  }

  lemma PowersOfTwo()
    ensures Pow2(1) == 2 && Pow2(2) == 4 && Pow2(5) == 32 && Pow2(8) == 256
    ensures Pow2(16) == 0x1_0000 && Pow2(32) == 0x1_0000_0000
  {
    assert Pow2(4) == 16;
    assert Pow2(12) == 4096;
    assert Pow2(20) == 0x10_0000;
    assert Pow2(24) == 0x100_0000;
    assert Pow2(28) == 0x1000_0000;
  }

  ghost predicate AllReadBack(fs: seq<Field>, w: nat) {
    forall i | 0 <= i < |fs| :: Extract(w, fs[i].off, fs[i].width) == fs[i].v
  }

  lemma AllBack(fs: seq<Field>)
    requires forall i | 0 <= i < |fs| :: Fits(fs[i])
    requires forall i | 0 <= i < |fs| - 1 :: fs[i].off + fs[i].width <= fs[i + 1].off
    ensures AllReadBack(fs, Pack(fs))
  {
    LayoutByIndex(fs);
    forall i | 0 <= i < |fs| ensures Extract(Pack(fs), fs[i].off, fs[i].width) == fs[i].v {
      ExtractsBack(fs, i);
    }
  }

  lemma Word0(a: Axis, w: nat)
    requires InRange(a) && AllReadBack(Fields0(a), w)
    ensures Extract(w, 0, 16) == a.drive.sw.word && Extract(w, 16, 16) == Word(a.cw)
    ensures Extract(w, 32, 8) == DsCode(a.drive.ds) && Extract(w, 40, 8) == TargetCode(a.power.target)
    ensures Extract(w, 48, 8) == ErrCode(a.power.err) && Extract(w, 56, 8) == DsCode(a.power.errDs)
  {
    var fs := Fields0(a);
    assert fs[0].off == 0 && fs[1].off == 16 && fs[2].off == 32 && fs[3].off == 40 && fs[4].off == 48
        && fs[5].off == 56;
  }

  lemma Word2(a: Axis, w: nat)
    requires InRange(a) && AllReadBack(Fields2(a), w)
    ensures Extract(w, 0, 16) == a.drive.ecode && Extract(w, 16, 8) == U8(a.drive.modeDisp)
    ensures Extract(w, 24, 8) == Num(a.mode.ok) && Extract(w, 32, 8) == U8(a.mode.req)
    ensures Extract(w, 40, 1) == Num(a.hm.homed) && Extract(w, 41, 2) == HmCode(a.hm.phase)
    ensures Extract(w, 43, 2) == a.pp.phase && Extract(w, 45, 5) == a.pp.n
  {
    var fs := Fields2(a);
    assert fs[0].off == 0 && fs[1].off == 16 && fs[2].off == 24 && fs[3].off == 32;
    assert fs[4].off == 40 && fs[5].off == 41 && fs[6].off == 43 && fs[7].off == 45;
  }

  /** Two 32-bit halves of a word. */
  lemma Halves(fs: seq<Field>)
    requires |fs| == 2 && fs[0].v < 0x1_0000_0000 && fs[1].v < 0x1_0000_0000
    requires fs[0].off == 0 && fs[0].width == fs[1].off == fs[1].width == 32
    ensures Extract(Pack(fs), 0, 32) == fs[0].v && Extract(Pack(fs), 32, 32) == fs[1].v
  {
    PowersOfTwo();
    AllBack(fs);
  }

  lemma Fits16(f: Field)
    requires f.width == 16 && f.v < 0x1_0000
    ensures Fits(f)
  {
    PowersOfTwo();
  }

  lemma Fits8(f: Field)
    requires f.width == 8 && f.v < 256
    ensures Fits(f)
  {
  }

  lemma FitsSmall(f: Field)
    requires (f.width == 1 && f.v < 2) || (f.width == 2 && f.v < 4) || (f.width == 5 && f.v < 32)
    ensures Fits(f)
  {
  }

  lemma Fields0Fit(a: Axis, fs: seq<Field>)
    requires InRange(a) && fs == Fields0(a)
    ensures forall i | 0 <= i < |fs| :: Fits(fs[i])
  {
    Fits16(fs[0]); Fits16(fs[1]); Fits8(fs[2]); Fits8(fs[3]); Fits8(fs[4]); Fits8(fs[5]);
  }

  lemma Fields2Fit(a: Axis, fs: seq<Field>)
    requires InRange(a) && fs == Fields2(a)
    ensures forall i | 0 <= i < |fs| :: Fits(fs[i])
  {
    Fits16(fs[0]); Fits8(fs[1]); Fits8(fs[2]); Fits8(fs[3]);
    FitsSmall(fs[4]); FitsSmall(fs[5]); FitsSmall(fs[6]); FitsSmall(fs[7]);
  }

  lemma SignsBack(a: Axis)
    requires InRange(a)
    ensures S32(U32(a.drive.apos)) == a.drive.apos && S32(U32(a.drive.avel)) == a.drive.avel
    ensures S8(U8(a.drive.modeDisp)) == a.drive.modeDisp && S8(U8(a.mode.req)) == a.mode.req
  {
  }

  lemma Words02Back(a: Axis)
    requires InRange(a)
    ensures AllReadBack(Fields0(a), Pack(Fields0(a))) && AllReadBack(Fields2(a), Pack(Fields2(a)))
  {
    Fields0Fit(a, Fields0(a));
    Fields2Fit(a, Fields2(a));
    AllBack(Fields0(a));
    AllBack(Fields2(a));
  }

  lemma WordsBack(a: Axis, w0: nat, w1: nat, w2: nat, w6: nat, w7: nat)
    requires InRange(a)
    requires w0 == Pack(Fields0(a)) && w1 == Pack(Fields1(a)) && w2 == Pack(Fields2(a))
    requires w6 == Pack(Fields6(a)) && w7 == Pack(Fields7(a))
    ensures AllReadBack(Fields0(a), w0) && AllReadBack(Fields2(a), w2)
    ensures Extract(w1, 0, 32) == U32(a.drive.apos) && Extract(w1, 32, 32) == U32(a.drive.avel)
    ensures Extract(w6, 0, 32) == a.lastSeq && Extract(w6, 32, 32) == a.motion.stepRefused % 0x1_0000_0000
    ensures Extract(w7, 0, 32) == a.motion.dropped % 0x1_0000_0000 && Extract(w7, 32, 32) == a.pp.acked % 0x1_0000_0000
  {
    Words02Back(a);
    Halves(Fields1(a));
    Halves(Fields6(a));
    Halves(Fields7(a));
  }

  lemma DecodeWords(a: Axis, ws: seq<nat>)
    requires InRange(a) && |ws| == 9 && AllReadBack(Fields0(a), ws[1]) && AllReadBack(Fields2(a), ws[3])
    requires Extract(ws[2], 0, 32) == U32(a.drive.apos) && Extract(ws[2], 32, 32) == U32(a.drive.avel)
    requires Extract(ws[7], 0, 32) == a.lastSeq && Extract(ws[7], 32, 32) == a.motion.stepRefused % 0x1_0000_0000
    requires Extract(ws[8], 0, 32) == a.motion.dropped % 0x1_0000_0000
    requires Extract(ws[8], 32, 32) == a.pp.acked % 0x1_0000_0000
    requires ws[4] == a.motion.used % 0x1_0000_0000_0000_0000 && ws[5] == a.motion.late % 0x1_0000_0000_0000_0000
    requires ws[6] == a.motion.underrun % 0x1_0000_0000_0000_0000
    ensures Unpacked(ws) == StateOf(a, ws[0])
  {
    Word0(a, ws[1]);
    Word2(a, ws[3]);
    SignsBack(a);
  }

  /** What is published decodes to the axis state it came from. */
  lemma ReadsBack(a: Axis, tick: nat)
    requires InRange(a)
    ensures Unpacked(Published(a, tick)) == StateOf(a, tick)
  {
    WordsDecode(a, Published(a, tick));
  }

  lemma WordsDecode(a: Axis, ws: seq<nat>)
    requires InRange(a) && |ws| == 9 && ws[1] == Pack(Fields0(a)) && ws[2] == Pack(Fields1(a))
    requires ws[3] == Pack(Fields2(a)) && ws[7] == Pack(Fields6(a)) && ws[8] == Pack(Fields7(a))
    requires ws[4] == a.motion.used % 0x1_0000_0000_0000_0000 && ws[5] == a.motion.late % 0x1_0000_0000_0000_0000
    requires ws[6] == a.motion.underrun % 0x1_0000_0000_0000_0000
    ensures Unpacked(ws) == StateOf(a, ws[0])
  {
    WordsBack(a, ws[1], ws[2], ws[3], ws[7], ws[8]);
    DecodeWords(a, ws);
  }

  // ---- the record over runs ------------------------------------------------

  predicate EventInRange(e: Event) {
    match e
    case Cmd(_, sequence, _, _) => sequence < 0x1_0000_0000
    case Frame(i, _) =>
      && i.sw.word < 0x1_0000 && i.ecode < 0x1_0000 && -128 <= i.modeDisp < 128
      && -0x8000_0000 <= i.apos < 0x8000_0000 && -0x8000_0000 <= i.avel < 0x8000_0000
    case _ => true
  }

  lemma TickInRange(c: Cfg, a: Axis, q: seq<Sp>, i: Input, tick: nat)
    requires InRange(a) && EventInRange(Frame(i, tick))
    ensures InRange(Tick(c, a, q, i, tick).axis)
  {
    var f := Supervised(c, a, i, tick);
    assert DriveInRange(f.drive);
    assert f.walk.base < 0x100;
    if !i.busLost {
      var v := Moving(c, f.walk, f.drive, f.mode, a.motion, q, tick);
      assert v.base < 0x100;
    }
  }

  lemma CommandInRange(c: Cfg, shutdown: bool, ext: Err, a: Axis, op: Op, sequence: nat, tick: nat)
    requires InRange(a) && sequence < 0x1_0000_0000
    ensures InRange(Applied(c, shutdown, ext, a, op, sequence, tick))
  {
  }

  /** Every reachable axis state fits its record. */
  lemma {:induction false} RunInRange(c: Cfg, es: seq<Event>)
    requires forall i | 0 <= i < |es| :: EventInRange(es[i])
    ensures InRange(RunOf(c, es).axis)
  {
    if es == [] {
    } else {
      var pre, e := es[..|es| - 1], es[|es| - 1];
      RunInRange(c, pre);
      var w := RunOf(c, pre);
      assert EventInRange(e);
      match e
      case Cmd(op, n, tick, ext) => CommandInRange(c, w.shutdown, ext, w.axis, op, n, tick);
      case Frame(i, tick) => TickInRange(c, w.axis, w.queue, i, tick);
      case _ =>
    }
  }

  /** A tick's axis state, and when it was. */
  datatype Publication = Publication(axis: Axis, tick: nat)

  /** What the ticks of a run publish, in order. */
  function Ticks(c: Cfg, es: seq<Event>): seq<Publication> {
    if es == [] then []
    else
      var pre := Ticks(c, es[..|es| - 1]);
      if es[|es| - 1].Frame? then pre + [Publication(RunOf(c, es).axis, es[|es| - 1].tick)] else pre
  }

  function Words(p: Publication): seq<nat> {
    Published(p.axis, p.tick)
  }

  /** The words decode to the axis state of that publication. */
  predicate Decodes(rec: seq<nat>, p: Publication) {
    |rec| == 9 && Unpacked(rec) == StateOf(p.axis, p.tick)
  }

  /** Whatever a run publishes decodes to the state of its tick. */
  lemma {:induction false} TicksDecode(c: Cfg, es: seq<Event>)
    requires forall i | 0 <= i < |es| :: EventInRange(es[i])
    ensures forall k | 0 <= k < |Ticks(c, es)| :: Decodes(Words(Ticks(c, es)[k]), Ticks(c, es)[k])
  {
    if es == [] {
    } else {
      TicksDecode(c, es[..|es| - 1]);
      RunInRange(c, es);
      if es[|es| - 1].Frame? {
        ReadsBack(RunOf(c, es).axis, es[|es| - 1].tick);
      }
    }
  }

  /** The writer of the schedule is the hook: the record it starts is always the
      one of the next tick. */
  ghost predicate Publishes(ts: seq<Publication>, initial: seq<nat>, schedule: seq<Seqlock.Event<nat>>) {
    schedule == [] ||
    var pre, e := schedule[..|schedule| - 1], schedule[|schedule| - 1];
    var s := Seqlock.Exec(0x8000_0000, initial, pre);
    && Publishes(ts, initial, pre)
    && (e.Write? && s.w.Idle? ==> 1 <= |s.written| <= |ts| && e.rec == Words(ts[|s.written| - 1]))
  }

  function AllWords(ts: seq<Publication>): (recs: seq<seq<nat>>)
    ensures |recs| == |ts| && forall k | 0 <= k < |ts| :: recs[k] == Words(ts[k])
  {
    seq(|ts|, k requires 0 <= k < |ts| => Words(ts[k]))
  }

  /** After the initial record come these, in order; the one being stored is next. */
  ghost predicate WrittenAre(recs: seq<seq<nat>>, s: Seqlock.State<nat>) {
    && s.len == 9 && 1 <= |s.written| <= |recs| + 1
    && (forall k | 1 <= k < |s.written| :: s.written[k] == recs[k - 1])
    && (s.w.Storing? ==> |s.written| <= |recs| && s.w.rec == recs[|s.written| - 1])
  }

  lemma StepWrites(recs: seq<seq<nat>>, s: Seqlock.State<nat>, e: Seqlock.Event<nat>, r: Seqlock.State<nat>)
    requires Seqlock.Shape(s) && WrittenAre(recs, s) && r == Seqlock.Step(s, e)
    requires e.Write? && s.w.Idle? ==> |s.written| <= |recs| && e.rec == recs[|s.written| - 1]
    ensures WrittenAre(recs, r)
  {
  }

  lemma {:induction false} ScheduleWrites(ts: seq<Publication>, initial: seq<nat>, schedule: seq<Seqlock.Event<nat>>)
    requires |initial| == 9 && Publishes(ts, initial, schedule)
    ensures WrittenAre(AllWords(ts), Seqlock.Exec(0x8000_0000, initial, schedule))
  {
    if schedule == [] {
    } else {
      var n := |schedule| - 1;
      ScheduleWrites(ts, initial, schedule[..n]);
      StepWrites(AllWords(ts), Seqlock.Exec(0x8000_0000, initial, schedule[..n]), schedule[n],
                 Seqlock.Exec(0x8000_0000, initial, schedule));
    }
  }

  /** For every run of the axis with wire-sized inputs and every schedule in which
      the hook publishes its ticks: a reader that accepts a copy, with fewer than
      2^31 writes during its read, decodes exactly the axis state of one tick, the
      last one published when the read began. */
  lemma ReaderSeesOneTick(c: Cfg, es: seq<Event>, initial: seq<nat>, schedule: seq<Seqlock.Event<nat>>, id: nat,
                          s: Seqlock.State<nat>, r: Seqlock.Reader<nat>)
    requires (forall i | 0 <= i < |es| :: EventInRange(es[i])) && |initial| == 9
    requires Publishes(Ticks(c, es), initial, schedule) && s == Seqlock.Exec(0x8000_0000, initial, schedule)
    requires id in s.readers && r == s.readers[id] && r.Accepted? && r.to - r.from < 0x8000_0000 && r.from >= 2
    ensures r.from - 2 < |Ticks(c, es)| && Decodes(r.copy, Ticks(c, es)[r.from - 2])
  {
    TicksDecode(c, es);
    ScheduleWrites(Ticks(c, es), initial, schedule);
    Seqlock.AcceptedCopyIsOneRecord(0x8000_0000, initial, schedule, s, id, r);
    assert s.written[r.from - 1] == Words(Ticks(c, es)[r.from - 2]);
  }
}
