/** The strings and numbers of RFC 8259 (sections 6, 7 and 8.1), and exactly where
    the scanner departs from them. */
module JsonRfc {
  import opened Wrappers
  import opened Bits
  import opened JsonText

  // ---- well-formed UTF-8 ---------------------------------------------------

  /** The second byte of a sequence is narrower after E0, ED, F0 and F4. */
  predicate SecondByte(lead: byte, x: byte) {
    (if lead == 0xE0 then 0xA0 else if lead == 0xF0 then 0x90 else 0x80) <= x
    <= (if lead == 0xED then 0x9F else if lead == 0xF4 then 0x8F else 0xBF)
  }

  predicate Tail(s: Text, i: nat) {
    i < |s| && 0x80 <= s[i] <= 0xBF
  }

  /** Length of the code point at pos; 0 if it is not well-formed. */
  function CodePoint(s: Text, pos: nat): (n: nat)
    requires pos < |s|
    ensures pos + n <= |s| && (n > 1 ==> forall i | pos <= i < pos + n :: s[i] >= 0x80) && (n == 1 <==> s[pos] < 0x80)
  {
    var b := s[pos];
    if b < 0x80 then 1
    else if pos + 1 >= |s| || !SecondByte(b, s[pos + 1]) then 0
    else if 0xC2 <= b <= 0xDF then 2
    else if 0xE0 <= b <= 0xEF && Tail(s, pos + 2) then 3
    else if 0xF0 <= b <= 0xF4 && Tail(s, pos + 2) && Tail(s, pos + 3) then 4
    else 0
  }

  /** The bytes from pos to end are well-formed UTF-8. */
  predicate Utf8(s: Text, pos: nat, end: nat)
    decreases |s| - pos
  {
    pos == end <= |s|
    || (pos < end <= |s| && CodePoint(s, pos) > 0 && Utf8(s, pos + CodePoint(s, pos), end))
  }

  lemma {:induction false} AsciiBefore(s: Text, pos: nat, mid: nat, end: nat)
    requires pos <= mid <= end <= |s| && forall i | pos <= i < mid :: s[i] < 0x80
    ensures Utf8(s, pos, end) <==> Utf8(s, mid, end)
    decreases mid - pos
  {
    if pos == mid {
    } else {
      AsciiBefore(s, pos + 1, mid, end);
    }
  }

  // ---- strings -------------------------------------------------------------

  /** One character of an RFC 8259 string, from pos to end: an unescaped code point,
      or one of the escapes. */
  predicate RfcCharacter(s: Text, pos: nat, end: nat) {
    && pos < end <= |s|
    && (|| (end == pos + CodePoint(s, pos) && s[pos] >= 0x20 && s[pos] != QUOTE && s[pos] != BACKSLASH)
        || (end == pos + 2 && s[pos] == BACKSLASH && s[pos + 1] in {0x22, 0x5C, 0x2F, 0x62, 0x66, 0x6E, 0x72, 0x74})
        || (end == pos + 6 && s[pos] == BACKSLASH && s[pos + 1] == LETTER_U && FourHex(s, pos + 2)))
  }

  /** RFC 8259 characters from pos up to a closing quote at `close`. */
  predicate RfcContents(s: Text, pos: nat, close: nat)
    decreases |s| - pos
  {
    close < |s| && s[close] == QUOTE
    && (pos == close || exists end | pos < end <= close :: RfcCharacter(s, pos, end) && RfcContents(s, end, close))
  }

  /** Some element of the contents is a backslash followed by a NUL byte. */
  predicate NulEscape(s: Text, pos: nat)
    requires StringEnd(s, pos).Some?
    decreases |s| - pos
  {
    s[pos] != QUOTE && ((s[pos] == BACKSLASH && s[pos + 1] == 0) || NulEscape(s, ElementEnd(s, pos).value))
  }

  /** The scanner accepts the string, no backslash stands before a NUL, and the
      bytes are well-formed UTF-8. */
  predicate CleanString(s: Text, pos: nat, close: nat) {
    StringEnd(s, pos) == Some(close) && !NulEscape(s, pos) && Utf8(s, pos, close)
  }

  /** The scanner steps over the bytes of a code point one by one. */
  lemma {:induction false} PlainRun(s: Text, pos: nat, end: nat)
    requires pos <= end <= |s| && forall i | pos <= i < end :: s[i] >= 0x20 && s[i] != QUOTE && s[i] != BACKSLASH
    ensures StringEnd(s, pos) == StringEnd(s, end)
    ensures StringEnd(s, pos).Some? ==> (NulEscape(s, pos) <==> NulEscape(s, end))
    decreases end - pos
  {
    if pos == end {
    } else {
      PlainRun(s, pos + 1, end);
    }
  }

  lemma CharacterIsClean(s: Text, pos: nat, end: nat, close: nat)
    requires RfcCharacter(s, pos, end) && CleanString(s, end, close)
    ensures CleanString(s, pos, close)
  {
    if s[pos] == BACKSLASH {
      assert ElementEnd(s, pos) == Some(end);
      AsciiBefore(s, pos, end, close);
    } else {
      PlainRun(s, pos, end);
    }
  }

  lemma {:induction false} RfcIsClean(s: Text, pos: nat, close: nat)
    requires RfcContents(s, pos, close)
    ensures CleanString(s, pos, close)
    decreases |s| - pos
  {
    if pos == close {
    } else {
      var end :| pos < end <= close && RfcCharacter(s, pos, end) && RfcContents(s, end, close);
      RfcIsClean(s, end, close);
      CharacterIsClean(s, pos, end, close);
    }
  }

  /** The first character of a clean string, and what is left. */
  lemma CleanStep(s: Text, pos: nat, close: nat, end: nat)
    requires CleanString(s, pos, close) && pos < close
    requires end == if s[pos] < 0x80 then ElementEnd(s, pos).value else pos + CodePoint(s, pos)
    ensures pos < end <= close && RfcCharacter(s, pos, end) && CleanString(s, end, close)
  {
    if s[pos] < 0x80 {
      AsciiBefore(s, pos, end, close);
    } else {
      PlainRun(s, pos, end);
    }
  }

  lemma {:induction false} CleanIsRfc(s: Text, pos: nat, close: nat)
    requires CleanString(s, pos, close)
    ensures RfcContents(s, pos, close)
    decreases |s| - pos
  {
    if s[pos] == QUOTE {
    } else {
      var end := if s[pos] < 0x80 then ElementEnd(s, pos).value else pos + CodePoint(s, pos);
      CleanStep(s, pos, close, end);
      CleanIsRfc(s, end, close);
    }
  }

  /** Exactly where the scanner departs from the RFC: contents up to a quote are an
      RFC 8259 string if and only if the scanner accepts them up to that quote, no
      backslash stands before a NUL, and the bytes are well-formed UTF-8. */
  lemma StrictIff(s: Text, pos: nat, close: nat)
    ensures RfcContents(s, pos, close) <==> CleanString(s, pos, close)
  {
    if RfcContents(s, pos, close) {
      RfcIsClean(s, pos, close);
    }
    if CleanString(s, pos, close) {
      CleanIsRfc(s, pos, close);
    }
  }

  /** Two strings the scanner accepts although RFC 8259 does not. */
  lemma NulEscapeAccepted(close: nat)
    ensures StringEnd([BACKSLASH, 0, QUOTE], 0) == Some(2) && !RfcContents([BACKSLASH, 0, QUOTE], 0, close)
  {
    var s: Text := [BACKSLASH, 0, QUOTE];
    assert ElementEnd(s, 0) == Some(2);
    StrictIff(s, 0, close);
  }

  lemma BadByteAccepted(close: nat)
    ensures StringEnd([0xFF, QUOTE], 0) == Some(1) && !RfcContents([0xFF, QUOTE], 0, close)
  {
    var s: Text := [0xFF, QUOTE];
    assert ElementEnd(s, 0) == Some(1) && CodePoint(s, 0) == 0;
    StrictIff(s, 0, close);
  }

  // ---- numbers -------------------------------------------------------------

  predicate AllDigits(s: Text, a: nat, b: nat) {
    a < b <= |s| && forall i | a <= i < b :: IsDigit(s[i])
  }

  /** The three parts of an RFC 8259 number. */
  predicate RfcInt(s: Text, a: nat, b: nat) {
    var i := if a < |s| && s[a] == 0x2D then a + 1 else a;
    AllDigits(s, i, b) && (s[i] == 0x30 ==> b == i + 1)
  }

  predicate RfcFrac(s: Text, a: nat, b: nat) {
    a == b || (a < |s| && s[a] == 0x2E && AllDigits(s, a + 1, b))
  }

  predicate RfcExp(s: Text, a: nat, b: nat) {
    a == b
    || (a < |s| && s[a] in {0x65, 0x45}
        && (AllDigits(s, a + 1, b) || (a + 1 < |s| && s[a + 1] in {0x2B, 0x2D} && AllDigits(s, a + 2, b))))
  }

  predicate RfcNumber(s: Text, a: nat, b: nat) {
    exists i, f | a < i <= f <= b :: RfcInt(s, a, i) && RfcFrac(s, i, f) && RfcExp(s, f, b)
  }

  /** What the scanner takes for a number is one. */
  lemma NumbersAreRfc(s: Text, pos: nat, end: nat)
    requires pos <= |s| && NumberEnd(s, pos) == Some(end)
    ensures RfcNumber(s, pos, end)
  {
    var i := IntEnd(s, pos).value;
    var f := FracEnd(s, i).value;
    IntIsRfc(s, pos, i);
    FracIsRfc(s, i, f);
    ExpIsRfc(s, f, end);
  }

  lemma IntIsRfc(s: Text, a: nat, b: nat)
    requires a <= |s| && IntEnd(s, a) == Some(b)
    ensures a < b && RfcInt(s, a, b)
  {
  }

  lemma FracIsRfc(s: Text, a: nat, b: nat)
    requires a <= |s| && FracEnd(s, a) == Some(b)
    ensures a <= b && RfcFrac(s, a, b)
  {
  }

  lemma ExpIsRfc(s: Text, a: nat, b: nat)
    requires a <= |s| && ExpEnd(s, a) == Some(b)
    ensures a <= b && RfcExp(s, a, b)
  {
  }

  lemma IntTaken(s: Text, a: nat, b: nat)
    requires a < b <= |s| && RfcInt(s, a, b) && (b < |s| ==> !IsDigit(s[b]))
    ensures IntEnd(s, a) == Some(b)
  {
  }

  lemma FracTaken(s: Text, a: nat, b: nat)
    requires a <= b <= |s| && RfcFrac(s, a, b) && (b < |s| ==> !IsDigit(s[b]) && s[b] != 0x2E)
    ensures FracEnd(s, a) == Some(b)
  {
  }

  lemma ExpTaken(s: Text, a: nat, b: nat)
    requires a <= b <= |s| && RfcExp(s, a, b) && (b < |s| ==> !IsDigit(s[b]) && s[b] !in {0x65, 0x45})
    ensures ExpEnd(s, a) == Some(b)
  {
  }

  /** Every number is taken whole, if what follows cannot be part of one. */
  lemma RfcNumbersAreTaken(s: Text, pos: nat, end: nat)
    requires RfcNumber(s, pos, end) && end <= |s|
    requires end < |s| ==> !IsDigit(s[end]) && s[end] !in {0x2E, 0x65, 0x45}
    ensures pos <= |s| && NumberEnd(s, pos) == Some(end)
  {
    var i, f :| pos < i <= f <= end && RfcInt(s, pos, i) && RfcFrac(s, i, f) && RfcExp(s, f, end);
    IntTaken(s, pos, i);
    FracTaken(s, i, f);
    ExpTaken(s, f, end);
  }
}
