/** Process data: bit-granular get and set on the process image. */
module Pdo {
  import opened Arith
  import opened Bits

  datatype Dir = Out | In

  datatype Handle = Handle(slave: nat, group: nat, dir: Dir, bit: nat, bits: nat)

  // ---- bits of the process image -------------------------------------------

  /** Bit i of the image, little endian. */
  predicate BitAt(io: seq<byte>, i: nat)
    requires i < 8 * |io|
  {
    Bit(io[i / 8], i % 8)
  }

  function Cast8(x: nat): (b: byte) {
    MaskIsMod(x, 8);
    assert Pow2(8) == 256;
    And(x, Ones(8))
  }

  /** Bits first .. first + n of the image, as the number they spell. */
  ghost predicate Spells(io: seq<byte>, first: nat, n: nat, v: nat)
    requires first + n <= 8 * |io|
  {
    forall j: nat :: Bit(v, j) == (j < n && BitAt(io, first + j))
  }

  /** One chunk read out of a byte and placed at k. */
  lemma GetChunk(b: byte, sh: nat, take: nat, k: nat, j: nat)
    ensures Bit(Shl(And(Shr(b, sh), Ones(take)), k), j) == (k <= j < k + take && Bit(b, sh + j - k))
  {
    BitOfShl(And(Shr(b, sh), Ones(take)), k, j);
    if j >= k {
      BitOfAnd(Shr(b, sh), Ones(take), j - k);
      BitOfShr(b, sh, j - k);
      BitOfOnes(take, j - k);
    }
  }

  /** One chunk of v from k on written into a byte at sh. */
  function Patched(b: byte, v: nat, sh: nat, take: nat, k: nat): byte {
    var mask := Cast8(Shl(Ones(take), sh));
    var part := Cast8(Shl(And(Shr(v, k), Ones(take)), sh));
    Cast8(Or(AndNot(b, mask), part))
  }

  lemma BitOfCast8(x: nat, j: nat)
    requires j < 8
    ensures Bit(Cast8(x), j) == Bit(x, j)
  {
    BitOfAnd(x, Ones(8), j);
    BitOfOnes(8, j);
  }

  lemma SetChunk(b: byte, v: nat, sh: nat, take: nat, k: nat, j: nat)
    requires j < 8
    ensures Bit(Patched(b, v, sh, take, k), j) == if sh <= j < sh + take then Bit(v, k + j - sh) else Bit(b, j)
  {
    var ones, field := Shl(Ones(take), sh), Shl(And(Shr(v, k), Ones(take)), sh);
    var mask, part := Cast8(ones), Cast8(field);
    BitOfCast8(Or(AndNot(b, mask), part), j);
    BitOfOr(AndNot(b, mask), part, j);
    BitOfAndNot(b, mask, j);
    BitOfCast8(ones, j);
    BitOfCast8(field, j);
    BitOfShl(Ones(take), sh, j);
    BitOfShl(And(Shr(v, k), Ones(take)), sh, j);
    if j >= sh {
      BitOfOnes(take, j - sh);
      BitOfAnd(Shr(v, k), Ones(take), j - sh);
      BitOfShr(v, k, j - sh);
    }
  }

  lemma InByte(bit: nat, d: nat)
    requires bit % 8 + d < 8
    ensures (bit + d) / 8 == bit / 8 && (bit + d) % 8 == bit % 8 + d
  {
  }

  /** One more chunk of the image spells one more part of the number. */
  lemma ChunkExtends(io: seq<byte>, first: nat, k: nat, take: nat, v: nat, b: byte, sh: nat, part: nat)
    requires first + k + take <= 8 * |io| && 0 < take && Spells(io, first, k, v)
    requires sh == (first + k) % 8 && sh + take <= 8 && b == io[(first + k) / 8] && part == And(Shr(b, sh), Ones(take))
    ensures Spells(io, first, k + take, Or(v, Shl(part, k)))
  {
    forall j: nat ensures Bit(Or(v, Shl(part, k)), j) == (j < k + take && BitAt(io, first + j)) {
      BitOfOr(v, Shl(part, k), j);
      GetChunk(b, sh, take, k, j);
      if k <= j < k + take {
        InByte(first + k, j - k);
      }
    }
  }

  /** Reads the bits of the handle. */
  method Get(h: Handle, io: array<byte>) returns (v: nat)
    requires h.bits <= 64 && h.bit + h.bits <= 8 * io.Length
    ensures Spells(io[..], h.bit, h.bits, v)
  {
    v := 0;
    var bit, k := h.bit, 0;
    forall j: nat ensures !Bit(0, j) {
      BitOfZero(j);
    }
    while k < h.bits
      invariant k <= h.bits && bit == h.bit + k
      invariant Spells(io[..], h.bit, k, v)
    {
      var byt, sh := bit / 8, bit % 8;
      var take := 8 - sh;
      if take > h.bits - k {
        take := h.bits - k;
      }
      var part := And(Shr(io[byt], sh), Ones(take));
      ChunkExtends(io[..], h.bit, k, take, v, io[byt], sh, part);
      v := Or(v, Shl(part, k));
      k := k + take;
      bit := bit + take;
    }
  }

  /** The image with the bits of a handle replaced by those of v. */
  ghost predicate Replaced(was: seq<byte>, io: seq<byte>, first: nat, n: nat, v: nat) {
    && |io| == |was| && first + n <= 8 * |io|
    && forall i: nat | i < 8 * |io| :: BitAt(io, i) == if first <= i < first + n then Bit(v, i - first)
        else BitAt(was, i)
  }

  /** One bit of the image after one patched byte. */
  lemma PatchedBit(io: seq<byte>, byt: nat, sh: nat, v: nat, take: nat, k: nat, i: nat)
    requires byt < |io| && i < 8 * |io| && sh + take <= 8
    ensures var bit := 8 * byt + sh;
            BitAt(io[byt := Patched(io[byt], v, sh, take, k)], i) ==
            if bit <= i < bit + take then Bit(v, k + i - bit) else BitAt(io, i)
  {
    assert i == 8 * (i / 8) + i % 8;
    if i / 8 == byt {
      SetChunk(io[byt], v, sh, take, k, i % 8);
    }
  }

  lemma PatchExtends(was: seq<byte>, io: seq<byte>, first: nat, k: nat, take: nat, v: nat, byt: nat, sh: nat)
    requires Replaced(was, io, first, k, v) && first + k + take <= 8 * |io| && take > 0
    requires first + k == 8 * byt + sh && sh + take <= 8
    ensures Replaced(was, io[byt := Patched(io[byt], v, sh, take, k)], first, k + take, v)
  {
    var now := io[byt := Patched(io[byt], v, sh, take, k)];
    forall i: nat | i < 8 * |io|
      ensures BitAt(now, i) == if first <= i < first + k + take then Bit(v, i - first) else BitAt(was, i)
    {
      PatchedBit(io, byt, sh, v, take, k, i);
    }
  }

  /** Writes the low bits of v through the handle and nothing else. */
  method Set(h: Handle, io: array<byte>, v: nat)
    requires h.bits <= 64 && h.bit + h.bits <= 8 * io.Length
    modifies io
    ensures Replaced(old(io[..]), io[..], h.bit, h.bits, v)
  {
    var bit, k := h.bit, 0;
    ghost var was := io[..];
    while k < h.bits
      invariant k <= h.bits && bit == h.bit + k
      invariant Replaced(was, io[..], h.bit, k, v)
    {
      var byt, sh := bit / 8, bit % 8;
      var take := 8 - sh;
      if take > h.bits - k {
        take := h.bits - k;
      }
      ghost var before := io[..];
      PatchExtends(was, before, h.bit, k, take, v, byt, sh);
      var mask := Cast8(Shl(Ones(take), sh));
      var part := Cast8(Shl(And(Shr(v, k), Ones(take)), sh));
      io[byt] := Cast8(Or(AndNot(io[byt], mask), part));
      assert io[..] == before[byt := Patched(before[byt], v, sh, take, k)];
      k := k + take;
      bit := bit + take;
    }
  }

  // ---- laws of get and set -------------------------------------------------

  /** Reading back what was written gives the value modulo 2^bits. */
  lemma GetAfterSet(was: seq<byte>, io: seq<byte>, first: nat, n: nat, v: nat, got: nat)
    requires Replaced(was, io, first, n, v) && Spells(io, first, n, got)
    ensures got == v % Pow2(n)
  {
    forall j: nat ensures Bit(got, j) == Bit(And(v, Ones(n)), j) {
      BitOfAnd(v, Ones(n), j);
      BitOfOnes(n, j);
    }
    SameBits(got, And(v, Ones(n)));
    MaskIsMod(v, n);
  }

  /** Writing one range leaves every disjoint range reading the same. */
  lemma SetKeepsOthers(was: seq<byte>, io: seq<byte>, first: nat, n: nat, v: nat, other: nat, m: nat, before: nat,
      got: nat)
    requires Replaced(was, io, first, n, v) && other + m <= 8 * |io|
    requires first + n <= other || other + m <= first
    requires Spells(was, other, m, before) && Spells(io, other, m, got)
    ensures got == before
  {
    forall j: nat ensures Bit(got, j) == Bit(before, j) {
      if j < m {
        assert BitAt(io, other + j) == BitAt(was, other + j);
      }
    }
    SameBits(got, before);
  }
}
