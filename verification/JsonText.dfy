/** JSON text: scanning strings and numbers, the escaper of the statistics
    writer and the unescaper of the reader, and the round trip between them
    (section 7 of RFC 8259). */
module JsonText {
  import opened Wrappers
  import opened Bits

  type Text = seq<byte>

  const QUOTE: byte := 0x22
  const BACKSLASH: byte := 0x5C
  const LETTER_U: byte := 0x75

  predicate IsWs(c: byte) {
    c == 0x20 || c == 0x09 || c == 0x0A || c == 0x0D
  }

  function SkipWs(s: Text, pos: nat): (r: nat)
    requires pos <= |s|
    ensures pos <= r <= |s| && (r < |s| ==> !IsWs(s[r])) && forall i | pos <= i < r :: IsWs(s[i])
    decreases |s| - pos
  {
    if pos < |s| && IsWs(s[pos]) then SkipWs(s, pos + 1) else pos
  }

  predicate IsDigit(c: byte) {
    0x30 <= c <= 0x39
  }

  predicate IsHex(c: byte) {
    IsDigit(c) || 0x61 <= c <= 0x66 || 0x41 <= c <= 0x46
  }

  function HexValue(c: byte): (v: nat)
    requires IsHex(c)
    ensures v < 16
  {
    if IsDigit(c) then c - 0x30 else if c >= 0x61 then c - 0x61 + 10 else c - 0x41 + 10
  }

  predicate FourHex(s: Text, pos: nat)
    requires pos + 3 < |s|
  {
    IsHex(s[pos]) && IsHex(s[pos + 1]) && IsHex(s[pos + 2]) && IsHex(s[pos + 3])
  }

  /** Characters the scanner lets follow a backslash; it searches a C string, so
      the terminating NUL is found as well. */
  predicate ScannerEscape(c: byte) {
    c in {0x22, 0x5C, 0x2F, 0x62, 0x66, 0x6E, 0x72, 0x74, 0x00}
  }

  /** Position after the element (character or escape) at pos, if it is one. */
  function ElementEnd(s: Text, pos: nat): (r: Option<nat>)
    requires pos < |s|
    ensures r.Some? ==> pos < r.value <= |s|
  {
    if s[pos] < 0x20 || s[pos] == QUOTE then None
    else if s[pos] != BACKSLASH then Some(pos + 1)
    else if pos + 1 >= |s| then None
    else if s[pos + 1] == LETTER_U then
      if pos + 5 >= |s| || !FourHex(s, pos + 2) then None else Some(pos + 6)
    else if ScannerEscape(s[pos + 1]) then Some(pos + 2)
    else None
  }

  /** Position of the closing quote of a string whose contents start at pos. */
  function StringEnd(s: Text, pos: nat): (r: Option<nat>)
    ensures r.Some? ==> pos <= r.value < |s| && s[r.value] == QUOTE
    decreases |s| - pos
  {
    if pos >= |s| then None
    else if s[pos] == QUOTE then Some(pos)
    else
      var e := ElementEnd(s, pos);
      if e.None? then None else StringEnd(s, e.value)
  }

  /** End of a run of digits. */
  function Digits(s: Text, pos: nat): (r: nat)
    requires pos <= |s|
    ensures pos <= r <= |s| && (r < |s| ==> !IsDigit(s[r])) && forall i | pos <= i < r :: IsDigit(s[i])
    decreases |s| - pos
  {
    if pos < |s| && IsDigit(s[pos]) then Digits(s, pos + 1) else pos
  }

  function SomeDigits(s: Text, pos: nat): (r: Option<nat>)
    requires pos <= |s|
    ensures r.Some? ==> pos < r.value <= |s|
  {
    if pos < |s| && IsDigit(s[pos]) then Some(Digits(s, pos)) else None
  }

  /** Integer part, fraction and exponent of a number at pos. */
  function IntEnd(s: Text, pos: nat): (r: Option<nat>)
    requires pos <= |s|
    ensures r.Some? ==> pos < r.value <= |s|
  {
    var i := if pos < |s| && s[pos] == 0x2D then pos + 1 else pos;
    if i >= |s| then None
    else if s[i] == 0x30 then Some(i + 1)
    else SomeDigits(s, i)
  }

  function FracEnd(s: Text, pos: nat): (r: Option<nat>)
    requires pos <= |s|
    ensures r.Some? ==> pos <= r.value <= |s|
  {
    if pos < |s| && s[pos] == 0x2E then SomeDigits(s, pos + 1) else Some(pos)
  }

  function ExpEnd(s: Text, pos: nat): (r: Option<nat>)
    requires pos <= |s|
    ensures r.Some? ==> pos <= r.value <= |s|
  {
    if pos < |s| && (s[pos] == 0x65 || s[pos] == 0x45) then
      var i := if pos + 1 < |s| && (s[pos + 1] == 0x2B || s[pos + 1] == 0x2D) then pos + 2 else pos + 1;
      SomeDigits(s, i)
    else Some(pos)
  }

  function NumberEnd(s: Text, pos: nat): (r: Option<nat>)
    requires pos <= |s|
    ensures r.Some? ==> pos < r.value <= |s|
  {
    var a := IntEnd(s, pos);
    if a.None? then None
    else
      var b := FracEnd(s, a.value);
      if b.None? then None else ExpEnd(s, b.value)
  }

  // ---- escaping and unescaping ---------------------------------------------

  function HexDigit(v: nat): (c: byte)
    requires v < 16
    ensures IsHex(c) && HexValue(c) == v
  {
    if v < 10 then 0x30 + v else 0x61 + v - 10
  }

  function EscapedByte(b: byte): (e: Text)
    ensures e != []
  {
    if b == QUOTE || b == BACKSLASH then [BACKSLASH, b]
    else if b < 0x20 then [BACKSLASH, LETTER_U, 0x30, 0x30, HexDigit(b / 16), HexDigit(b % 16)]
    else [b]
  }

  function Escaped(s: Text): Text {
    if s == [] then [] else EscapedByte(s[0]) + Escaped(s[1..])
  }

  /** A string literal as the writer emits it. */
  function Literal(s: Text): Text {
    [QUOTE] + Escaped(s) + [QUOTE]
  }

  /** The byte an element stands for; a code point from 0x80 on, and NUL, become
      a question mark. */
  function ElementValue(s: Text, pos: nat): byte
    requires pos < |s| && ElementEnd(s, pos).Some?
  {
    if s[pos] != BACKSLASH then s[pos]
    else if s[pos + 1] == 0x62 then 0x08
    else if s[pos + 1] == 0x66 then 0x0C
    else if s[pos + 1] == 0x6E then 0x0A
    else if s[pos + 1] == 0x72 then 0x0D
    else if s[pos + 1] == 0x74 then 0x09
    else if s[pos + 1] == LETTER_U then
      var u := HexValue(s[pos + 2]) * 4096 + HexValue(s[pos + 3]) * 256 + HexValue(s[pos + 4]) * 16
          + HexValue(s[pos + 5]);
      if 0 < u < 0x80 then u else 0x3F
    else s[pos + 1]
  }

  /** The text from pos to end is elements all the way. */
  predicate WholeElements(s: Text, pos: nat, end: nat)
    decreases |s| - pos
  {
    pos == end <= |s|
    || (pos < end <= |s| && ElementEnd(s, pos).Some? && WholeElements(s, ElementEnd(s, pos).value, end))
  }

  function Unescaped(s: Text, pos: nat, end: nat): Text
    requires WholeElements(s, pos, end)
    decreases |s| - pos
  {
    if pos == end then [] else [ElementValue(s, pos)] + Unescaped(s, ElementEnd(s, pos).value, end)
  }

  // ---- the round trip ------------------------------------------------------

  lemma EscapedFirst(t: Text, pre: Text, b: byte, rest: Text, post: Text, at: nat, next: Text)
    requires b != 0 && t == pre + (EscapedByte(b) + rest) + [QUOTE] + post && at == |pre|
             && next == pre + EscapedByte(b)
    ensures at < |t| && t[at] != QUOTE && ElementEnd(t, at) == Some(|next|) && ElementValue(t, at) == b
    ensures t == next + rest + [QUOTE] + post && |next| == at + |EscapedByte(b)|
  {
  }

  /** The scanner accepts what the escaper wrote, stops at the closing quote, and
      unescaping what it scanned undoes the escaping. */
  lemma {:induction false} EscapedReadsBack(t: Text, pre: Text, s: Text, post: Text, at: nat, end: nat)
    requires 0 !in s && t == pre + Escaped(s) + [QUOTE] + post && at == |pre| && end == at + |Escaped(s)|
    ensures StringEnd(t, at) == Some(end)
    ensures WholeElements(t, at, end) && Unescaped(t, at, end) == s
    decreases |s|
  {
    if s == [] {
      assert t[at] == QUOTE;
    } else {
      var next := pre + EscapedByte(s[0]);
      EscapedFirst(t, pre, s[0], Escaped(s[1..]), post, at, next);
      EscapedReadsBack(t, next, s[1..], post, |next|, end);
      ElementFirst(t, at, |next|, end, s);
    }
  }

  lemma ElementFirst(t: Text, at: nat, next: nat, end: nat, s: Text)
    requires s != [] && at < next <= end && at < |t| && t[at] != QUOTE
    requires ElementEnd(t, at) == Some(next) && ElementValue(t, at) == s[0]
    requires StringEnd(t, next) == Some(end) && WholeElements(t, next, end) && Unescaped(t, next, end) == s[1..]
    ensures StringEnd(t, at) == Some(end) && WholeElements(t, at, end) && Unescaped(t, at, end) == s
  {
    assert s == [s[0]] + s[1..];
  }

  /** Round trip: wherever the writer puts the literal of a NUL-free string, the
      scanner finds its contents and unescaping them gives the string back. */
  lemma StringRoundTrip(t: Text, pre: Text, s: Text, post: Text, start: nat, end: nat)
    requires 0 !in s && t == pre + Literal(s) + post
    requires start == |pre| + 1 && end == start + |Escaped(s)|
    ensures t[|pre|] == QUOTE && StringEnd(t, start) == Some(end)
    ensures WholeElements(t, start, end) && Unescaped(t, start, end) == s
  {
    EscapedReadsBack(t, pre + [QUOTE], s, post, start, end);
  }

  /** The contents of every scanned string can be unescaped. */
  lemma {:induction false} ScannedIsWhole(s: Text, pos: nat)
    requires StringEnd(s, pos).Some?
    ensures WholeElements(s, pos, StringEnd(s, pos).value)
    decreases |s| - pos
  {
    if s[pos] != QUOTE {
      ScannedIsWhole(s, ElementEnd(s, pos).value);
    }
  }

  // ---- the imperative code -------------------------------------------------

  lemma {:induction false} EscapedSnoc(s: Text, b: byte)
    ensures Escaped(s + [b]) == Escaped(s) + EscapedByte(b)
  {
    if s == [] {
      assert s + [b] == [b];
      assert Escaped([b]) == EscapedByte(b) + Escaped([]);
    } else {
      assert (s + [b])[1..] == s[1..] + [b];
      EscapedSnoc(s[1..], b);
    }
  }

  /** The bounded output buffer: what does not fit sets the overflow flag and
      nothing more is written; one byte is kept for the terminator. */
  class Writer {
    const cap: nat
    var buf: Text
    var ovf: bool

    constructor (n: nat)
      ensures cap == n && buf == [] && !ovf
    {
      cap, buf, ovf := n, [], false;
    }

    method Raw(x: Text)
      modifies this
      ensures ovf <==> old(ovf) || |old(buf)| + |x| + 1 > cap
      ensures buf == if ovf then old(buf) else old(buf) + x
    {
      if ovf {
        return;
      }
      if |buf| + |x| + 1 > cap {
        ovf := true;
        return;
      }
      buf := buf + x;
    }

    /** One byte of a string literal. */
    method Char(b: byte)
      modifies this
      ensures ovf <==> old(ovf) || |old(buf)| + |EscapedByte(b)| + 1 > cap
      ensures buf == if ovf then old(buf) else old(buf) + EscapedByte(b)
    {
      if b == QUOTE || b == BACKSLASH {
        Raw([BACKSLASH, b]);
      } else if b < 0x20 {
        Raw([BACKSLASH, LETTER_U, 0x30, 0x30, HexDigit(b / 16), HexDigit(b % 16)]);
      } else {
        Raw([b]);
      }
    }

    /** The contents of a string literal, byte by byte; the buffer has room for
        the terminator unless it has overflowed. */
    method Chars(s: Text)
      requires ovf || |buf| + 1 <= cap
      modifies this
      ensures ovf <==> old(ovf) || |old(buf)| + |Escaped(s)| + 1 > cap
      ensures !ovf ==> buf == old(buf) + Escaped(s)
    {
      ghost var done: Text := [];
      for i := 0 to |s|
        invariant done == Escaped(s[..i])
        invariant ovf <==> old(ovf) || |old(buf)| + |done| + 1 > cap
        invariant !ovf ==> buf == old(buf) + done
      {
        assert s[..i + 1] == s[..i] + [s[i]];
        EscapedSnoc(s[..i], s[i]);
        Char(s[i]);
        done := done + EscapedByte(s[i]);
      }
      assert s[..|s|] == s;
    }

    /** A string literal. */
    method Str(s: Text)
      modifies this
      ensures ovf <==> old(ovf) || |old(buf)| + |Literal(s)| + 1 > cap
      ensures !ovf ==> buf == old(buf) + Literal(s)
    {
      Raw([QUOTE]);
      Chars(s);
      Raw([QUOTE]);
    }
  }

  /** The character or escape at i, and its length. */
  method DecodeOne(s: Text, i: nat) returns (c: byte, n: nat)
    requires i < |s| && ElementEnd(s, i).Some?
    ensures c == ElementValue(s, i) && ElementEnd(s, i) == Some(i + n)
  {
    c, n := s[i], 1;
    if c == BACKSLASH {
      var e := s[i + 1];
      c, n := e, 2;
      if e == 0x62 {
        c := 0x08;
      } else if e == 0x66 {
        c := 0x0C;
      } else if e == 0x6E {
        c := 0x0A;
      } else if e == 0x72 {
        c := 0x0D;
      } else if e == 0x74 {
        c := 0x09;
      } else if e == LETTER_U {
        var u := HexValue(s[i + 2]) * 4096 + HexValue(s[i + 3]) * 256 + HexValue(s[i + 4]) * 16 + HexValue(s[i + 5]);
        c, n := if 0 < u < 0x80 then u else 0x3F, 6;
      }
    }
  }

  /** Unescapes into a buffer of `cap` bytes, one of them for the terminator. */
  method FillString(s: Text, start: nat, end: nat, cap: nat, ghost whole: Text) returns (ok: bool, out: Text)
    requires WholeElements(s, start, end) && whole == Unescaped(s, start, end) && cap > 0
    ensures ok ==> out == whole && |whole| + 1 <= cap
    ensures !ok ==> |whole| + 1 > cap
  {
    var i := start;
    out := [];
    ghost var left := whole;
    while i < end
      invariant i <= end && WholeElements(s, i, end) && left == Unescaped(s, i, end)
      invariant whole == out + left && |out| + 1 <= cap
      decreases end - i
    {
      var c, n := DecodeOne(s, i);
      i := i + n;
      assert left == [c] + left[1..];
      if |out| + 1 >= cap {
        return false, out;
      }
      out, left := out + [c], left[1..];
    }
    ok := true;
  }

  /** The value of a string token, if it fits `cap` bytes with its terminator. */
  method StringValue(s: Text, start: nat, end: nat, cap: nat) returns (r: Option<Text>)
    requires WholeElements(s, start, end)
    ensures r == if |Unescaped(s, start, end)| + 1 <= cap then Some(Unescaped(s, start, end)) else None
  {
    if cap == 0 {
      return None;
    }
    var ok, out := FillString(s, start, end, cap, Unescaped(s, start, end));
    r := if ok then Some(out) else None;
  }
}
