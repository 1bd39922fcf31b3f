/** The language the tokenizer reads: recursive descent as a function from text to
    tree, the grammar of RFC 8259 as a relation, and their equivalence. */
module JsonGrammar {
  import opened Wrappers
  import opened Bits
  import opened JsonText
  import opened JsonRfc
  import opened JsonTree

  datatype Value = NoValue | Value(tree: Tree, end: nat)
  datatype Items = NoItems | Items(forest: Forest, end: nat)

  function Append(f: Forest, g: Forest): Forest {
    match f
    case Nil => g
    case Cons(h, r) => Cons(h, Append(r, g))
  }

  function Word(k: Kind): (w: Text)
    ensures w != [] ==> k in {True, False, Null}
  {
    match k
    case True => [0x74, 0x72, 0x75, 0x65]
    case False => [0x66, 0x61, 0x6C, 0x73, 0x65]
    case Null => [0x6E, 0x75, 0x6C, 0x6C]
    case _ => []
  }

  function Open(obj: bool): byte {
    if obj then 0x7B else 0x5B
  }

  function Close(obj: bool): byte {
    if obj then 0x7D else 0x5D
  }

  const COMMA: byte := 0x2C
  const COLON: byte := 0x3A

  predicate StartsNumber(c: byte) {
    c == 0x2D || IsDigit(c)
  }

  // ---- recursive descent ---------------------------------------------------

  /** The string whose opening quote is at pos. */
  function ParseString(s: Text, pos: nat): (r: Value)
    requires pos < |s|
    ensures r.Value? ==> pos < r.end <= |s|
  {
    var e := StringEnd(s, pos + 1);
    if e.None? then NoValue else Value(Node(Str, pos + 1, e.value, Nil), e.value + 1)
  }

  function ParseNumber(s: Text, pos: nat): (r: Value)
    requires pos < |s|
    ensures r.Value? ==> pos < r.end <= |s|
  {
    var e := NumberEnd(s, pos);
    if e.None? then NoValue else Value(Node(Num, pos, e.value, Nil), e.value)
  }

  function ParseWord(s: Text, pos: nat, k: Kind): (r: Value)
    requires pos < |s| && Word(k) != []
    ensures r.Value? ==> pos < r.end <= |s|
  {
    var end := pos + |Word(k)|;
    if end > |s| || s[pos..end] != Word(k) then NoValue else Value(Node(k, pos, end, Nil), end)
  }

  function ParseScalar(s: Text, pos: nat): (r: Value)
    requires pos < |s|
    ensures r.Value? ==> pos < r.end <= |s|
  {
    var c := s[pos];
    if c == QUOTE then ParseString(s, pos)
    else if StartsNumber(c) then ParseNumber(s, pos)
    else if c == 0x74 then ParseWord(s, pos, True)
    else if c == 0x66 then ParseWord(s, pos, False)
    else if c == 0x6E then ParseWord(s, pos, Null)
    else NoValue
  }

  /** A value, after white space. */
  function ParseValue(s: Text, pos: nat): (r: Value)
    requires pos <= |s|
    ensures r.Value? ==> pos < r.end <= |s|
    decreases |s| - pos, 0
  {
    var p := SkipWs(s, pos);
    if p >= |s| then NoValue
    else if s[p] == Open(true) then ParseContainer(s, p, true)
    else if s[p] == Open(false) then ParseContainer(s, p, false)
    else ParseScalar(s, p)
  }

  /** The object or array whose opening bracket is at pos. */
  function ParseContainer(s: Text, pos: nat, obj: bool): (r: Value)
    requires pos < |s|
    ensures r.Value? ==> pos < r.end <= |s|
    decreases |s| - pos - 1, 4
  {
    var r := ParseBody(s, pos + 1, obj);
    if r.NoItems? then NoValue else Value(Node(if obj then Obj else Arr, pos, r.end, r.forest), r.end)
  }

  /** The inside of a container: nothing or items, and the closing bracket. */
  function ParseBody(s: Text, pos: nat, obj: bool): (r: Items)
    requires pos <= |s|
    ensures r.Items? ==> pos < r.end <= |s|
    decreases |s| - pos, 3
  {
    var q := SkipWs(s, pos);
    if q < |s| && s[q] == Close(obj) then Items(Nil, q + 1) else ParseItems(s, pos, obj)
  }

  /** Items up to and with the closing bracket. */
  function ParseItems(s: Text, pos: nat, obj: bool): (r: Items)
    requires pos <= |s|
    ensures r.Items? ==> pos < r.end <= |s|
    decreases |s| - pos, 2
  {
    var item := ParseItem(s, pos, obj);
    if item.NoItems? then NoItems else ParseMore(s, item.forest, item.end, obj)
  }

  /** After an item: a comma and more items, or the closing bracket. */
  function ParseMore(s: Text, item: Forest, pos: nat, obj: bool): (r: Items)
    requires pos <= |s|
    ensures r.Items? ==> pos < r.end <= |s|
    decreases |s| - pos, 2
  {
    var q := SkipWs(s, pos);
    if q >= |s| then NoItems
    else if s[q] == COMMA then
      var r := ParseItems(s, q + 1, obj);
      if r.NoItems? then NoItems else Items(Append(item, r.forest), r.end)
    else if s[q] == Close(obj) then Items(item, q + 1)
    else NoItems
  }

  /** One item: a value, or a key, a colon and a value. */
  function ParseItem(s: Text, pos: nat, obj: bool): (r: Items)
    requires pos <= |s|
    ensures r.Items? ==> pos < r.end <= |s|
    decreases |s| - pos, 1
  {
    if !obj then
      var v := ParseValue(s, pos);
      if v.NoValue? then NoItems else Items(Cons(v.tree, Nil), v.end)
    else
      var k := ParseKey(s, pos);
      if k.NoValue? then NoItems
      else
        var v := ParseValue(s, k.end);
        if v.NoValue? then NoItems else Items(Cons(k.tree, Cons(v.tree, Nil)), v.end)
  }

  /** A key and the colon after it. */
  function ParseKey(s: Text, pos: nat): (r: Value)
    requires pos <= |s|
    ensures r.Value? ==> pos < r.end <= |s|
  {
    var p := SkipWs(s, pos);
    if p >= |s| || s[p] != QUOTE then NoValue
    else
      var k := ParseString(s, p);
      if k.NoValue? then NoValue
      else
        var q := SkipWs(s, k.end);
        if q >= |s| || s[q] != COLON then NoValue else Value(k.tree, q + 1)
  }

  /** A value and nothing but white space around it. */
  function Document(s: Text): Option<Tree> {
    var r := ParseValue(s, 0);
    if r.NoValue? || SkipWs(s, r.end) != |s| then None else Some(r.tree)
  }

  // ---- the trees that come out ---------------------------------------------

  /** Where a value's text ends: one past the quote of a string. */
  function TextEnd(t: Tree): nat {
    if t.kind == Str then t.end + 1 else t.end
  }

  lemma {:induction false} ParsedWellFormed(s: Text, pos: nat)
    requires pos <= |s| && ParseValue(s, pos).Value?
    ensures var r := ParseValue(s, pos); WellFormed(r.tree) && pos <= r.tree.start && r.end == TextEnd(r.tree)
    decreases |s| - pos, 0
  {
    var p := SkipWs(s, pos);
    if s[p] == Open(true) {
      ContainerWellFormed(s, p, true);
    } else if s[p] == Open(false) {
      ContainerWellFormed(s, p, false);
    }
  }

  lemma {:induction false} ContainerWellFormed(s: Text, pos: nat, obj: bool)
    requires pos < |s| && ParseContainer(s, pos, obj).Value?
    ensures var t := ParseContainer(s, pos, obj).tree;
            WellFormed(t) && t.start == pos && t.kind == if obj then Obj else Arr
    ensures ParseContainer(s, pos, obj).end == ParseContainer(s, pos, obj).tree.end
    decreases |s| - pos - 1, 3
  {
    var q, r := SkipWs(s, pos + 1), ParseBody(s, pos + 1, obj);
    if q >= |s| || s[q] != Close(obj) {
      ItemsWellFormed(s, pos + 1, obj, pos, ParseItems(s, pos + 1, obj));
    }
  }

  lemma PairOrdered(k: Tree, v: Tree, lo: nat, hi: nat)
    requires k.kind == Str && k.kids.Nil? && lo < k.start <= k.end < v.start && WellFormed(v) && v.end < hi
    ensures var f := Cons(k, Cons(v, Nil)); Ordered(f, lo, hi) && Paired(f) && Last(f, lo) == v.end
  {
    var f := Cons(v, Nil);
    assert Ordered(Nil, v.end, hi) && Last(Nil, v.end) == v.end;
    assert Ordered(f, k.end, hi) && Last(f, k.end) == v.end;
    assert Paired(Nil) && WellFormed(k);
  }

  lemma {:induction false} ItemWellFormed(s: Text, pos: nat, obj: bool, lo: nat)
    requires pos <= |s| && lo < pos && ParseItem(s, pos, obj).Items?
    ensures var r := ParseItem(s, pos, obj); Ordered(r.forest, lo, r.end + 1) && (obj ==> Paired(r.forest))
    ensures Last(ParseItem(s, pos, obj).forest, lo) <= ParseItem(s, pos, obj).end
    decreases |s| - pos, 1
  {
    if !obj {
      ParsedWellFormed(s, pos);
      assert Last(Cons(ParseValue(s, pos).tree, Nil), lo) == ParseValue(s, pos).tree.end;
    } else {
      var k := ParseKey(s, pos);
      ParsedWellFormed(s, k.end);
      PairOrdered(k.tree, ParseValue(s, k.end).tree, lo, ParseValue(s, k.end).end + 1);
    }
  }

  lemma {:induction false} ItemsWellFormed(s: Text, pos: nat, obj: bool, lo: nat, r: Items)
    requires pos <= |s| && lo < pos && r == ParseItems(s, pos, obj) && r.Items?
    ensures Ordered(r.forest, lo, r.end) && (obj ==> Paired(r.forest))
    decreases |s| - pos, 2
  {
    var item := ParseItem(s, pos, obj);
    ItemWellFormed(s, pos, obj, lo);
    MoreWellFormed(s, item.forest, item.end, obj, lo, r);
  }

  lemma {:induction false} MoreWellFormed(s: Text, item: Forest, pos: nat, obj: bool, lo: nat, r: Items)
    requires pos <= |s| && r == ParseMore(s, item, pos, obj) && r.Items?
    requires Ordered(item, lo, pos + 1) && (obj ==> Paired(item)) && Last(item, lo) <= pos
    ensures Ordered(r.forest, lo, r.end) && (obj ==> Paired(r.forest))
    decreases |s| - pos, 2
  {
    var q := SkipWs(s, pos);
    if s[q] == COMMA {
      var more := ParseItems(s, q + 1, obj);
      ItemsWellFormed(s, q + 1, obj, Last(item, lo), more);
      AppendOrdered(item, lo, pos + 1, more.forest, more.end, obj);
    } else {
      Widen(item, lo, pos + 1, q + 1);
    }
  }

  /** Where the last tree of a forest ends. */
  function Last(f: Forest, lo: nat): nat {
    match f
    case Nil => lo
    case Cons(h, r) => Last(r, h.end)
  }

  lemma {:induction false} AppendOrdered(f: Forest, lo: nat, mid: nat, g: Forest, hi: nat, obj: bool)
    requires Ordered(f, lo, mid) && Ordered(g, Last(f, lo), hi) && mid <= hi
    requires obj ==> Paired(f) && Paired(g)
    ensures Ordered(Append(f, g), lo, hi) && (obj ==> Paired(Append(f, g)))
  {
    if f.Cons? {
      AppendOrdered(f.tail, f.head.end, mid, g, hi, false);
      if obj {
        AppendOrdered(f.tail.tail, f.tail.head.end, mid, g, hi, true);
      }
    }
  }

  // ---- the grammar ---------------------------------------------------------

  predicate Gap(s: Text, a: nat, b: nat) {
    a <= b <= |s| && forall i | a <= i < b :: IsWs(s[i])
  }

  /** White space and then the character c, ending at b. */
  predicate Mark(s: Text, a: nat, c: byte, b: nat) {
    a < b && Gap(s, a, b - 1) && b <= |s| && s[b - 1] == c
  }

  /** Which strings and numbers the grammar is about: what the scanner takes for
      one, or what RFC 8259 calls one. */
  datatype Terminals = Scanner | Rfc

  predicate StringFrom(g: Terminals, s: Text, start: nat, end: nat) {
    if g == Scanner then StringEnd(s, start) == Some(end) else RfcContents(s, start, end)
  }

  predicate NumberFrom(g: Terminals, s: Text, start: nat, end: nat) {
    start <= |s| && if g == Scanner then NumberEnd(s, start) == Some(end) else RfcNumber(s, start, end)
  }

  /** White space and a value with that tree stand at pos. */
  predicate Derives(g: Terminals, s: Text, t: Tree, pos: nat)
    decreases t
  {
    match t.kind
    case Obj => Mark(s, pos, Open(true), t.start + 1) && DerivesBody(g, s, t.kids, true, t.start + 1, t.end)
    case Arr => Mark(s, pos, Open(false), t.start + 1) && DerivesBody(g, s, t.kids, false, t.start + 1, t.end)
    case Str => t.kids.Nil? && Mark(s, pos, QUOTE, t.start) && StringFrom(g, s, t.start, t.end)
    case Num => t.kids.Nil? && Gap(s, pos, t.start) && NumberFrom(g, s, t.start, t.end)
    case _ =>
      && t.kids.Nil? && Gap(s, pos, t.start)
      && t.end == t.start + |Word(t.kind)| <= |s| && s[t.start..t.end] == Word(t.kind)
  }

  /** The inside of a container, up to and with its closing bracket. */
  predicate DerivesBody(g: Terminals, s: Text, f: Forest, obj: bool, pos: nat, end: nat)
    decreases f, 2
  {
    if f.Nil? then Mark(s, pos, Close(obj), end) else DerivesItems(g, s, f, obj, pos, end)
  }

  predicate DerivesItems(g: Terminals, s: Text, f: Forest, obj: bool, pos: nat, end: nat)
    decreases f, 1
  {
    if !obj then DerivesRest(g, s, f, obj, pos, end)
    else
      f.Cons? && f.head.kind == Str && Derives(g, s, f.head, pos)
      && exists c | f.head.end < c <= |s| ::
           Mark(s, TextEnd(f.head), COLON, c) && DerivesRest(g, s, f.tail, obj, c, end)
  }

  predicate DerivesRest(g: Terminals, s: Text, f: Forest, obj: bool, pos: nat, end: nat)
    decreases f, 0
  {
    f.Cons? && Derives(g, s, f.head, pos) &&
    if f.tail.Nil? then Mark(s, TextEnd(f.head), Close(obj), end)
    else
      exists c | f.head.end < c <= |s| ::
        Mark(s, TextEnd(f.head), COMMA, c) && DerivesItems(g, s, f.tail, obj, c, end)
  }

  lemma GapEnds(s: Text, a: nat, b: nat)
    requires Gap(s, a, b) && (b < |s| ==> !IsWs(s[b]))
    ensures SkipWs(s, a) == b
    decreases b - a
  {
  }

  // ---- the descent accepts exactly the grammar -----------------------------

  lemma {:induction false} Sound(s: Text, pos: nat, t: Tree, end: nat)
    requires pos <= |s| && ParseValue(s, pos) == Value(t, end)
    ensures Derives(Scanner, s, t, pos) && end == TextEnd(t)
    decreases |s| - pos, 0
  {
    var p := SkipWs(s, pos);
    if s[p] == Open(true) {
      SoundContainer(s, p, true, t, end);
    } else if s[p] == Open(false) {
      SoundContainer(s, p, false, t, end);
    }
  }

  lemma {:induction false} SoundContainer(s: Text, pos: nat, obj: bool, t: Tree, end: nat)
    requires pos < |s| && ParseContainer(s, pos, obj) == Value(t, end)
    ensures t.kind == (if obj then Obj else Arr) && t.start == pos && t.end == end
    ensures DerivesBody(Scanner, s, t.kids, obj, pos + 1, end)
    decreases |s| - pos - 1, 3
  {
    var q, r := SkipWs(s, pos + 1), ParseBody(s, pos + 1, obj);
    if q >= |s| || s[q] != Close(obj) {
      SoundItems(s, pos + 1, obj, t.kids, end);
    }
  }

  lemma {:induction false} SoundItems(s: Text, pos: nat, obj: bool, f: Forest, end: nat)
    requires pos <= |s| && ParseItems(s, pos, obj) == Items(f, end)
    ensures f.Cons? && DerivesItems(Scanner, s, f, obj, pos, end)
    decreases |s| - pos, 2
  {
    var item := ParseItem(s, pos, obj);
    if !obj {
      var v := ParseValue(s, pos);
      Sound(s, pos, v.tree, v.end);
      SoundMore(s, pos, v.tree, v.end, obj, f, end);
    } else {
      var k := ParseKey(s, pos);
      var v := ParseValue(s, k.end);
      Sound(s, k.end, v.tree, v.end);
      SoundKeyed(s, pos, k.tree, k.end, v.tree, v.end, f, end);
    }
  }

  lemma {:induction false} SoundMore(s: Text, pos: nat, v: Tree, at: nat, obj: bool, f: Forest, end: nat)
    requires pos < at <= |s| && Derives(Scanner, s, v, pos) && at == TextEnd(v)
    requires ParseMore(s, Cons(v, Nil), at, obj) == Items(f, end)
    ensures DerivesRest(Scanner, s, f, obj, pos, end)
    decreases |s| - pos, 1
  {
    var q := SkipWs(s, at);
    if s[q] == COMMA {
      var more := ParseItems(s, q + 1, obj);
      AppendOne(v, more.forest);
      SoundItems(s, q + 1, obj, more.forest, end);
      assert Mark(s, at, COMMA, q + 1);
    }
  }

  lemma {:induction false} SoundKeyed(s: Text, pos: nat, k: Tree, mid: nat, v: Tree, at: nat, f: Forest, end: nat)
    requires pos < mid < at <= |s| && ParseKey(s, pos) == Value(k, mid) && Derives(Scanner, s, v, mid)
             && at == TextEnd(v)
    requires ParseMore(s, Cons(k, Cons(v, Nil)), at, true) == Items(f, end)
    ensures DerivesItems(Scanner, s, f, true, pos, end)
    decreases |s| - pos, 1
  {
    MoreAfterKey(s, k, Cons(v, Nil), at, f, end);
    SoundMore(s, mid, v, at, true, f.tail, end);
    SoundKey(s, pos, k, mid);
  }

  lemma MoreAfterKey(s: Text, k: Tree, item: Forest, at: nat, f: Forest, end: nat)
    requires at <= |s| && ParseMore(s, Cons(k, item), at, true) == Items(f, end)
    ensures f.Cons? && f.head == k && ParseMore(s, item, at, true) == Items(f.tail, end)
  {
  }

  lemma SoundKey(s: Text, pos: nat, k: Tree, mid: nat)
    requires pos <= |s| && ParseKey(s, pos) == Value(k, mid)
    ensures k.kind == Str && Derives(Scanner, s, k, pos) && k.end < mid <= |s| && Mark(s, TextEnd(k), COLON, mid)
  {
  }

  lemma {:induction false} Complete(s: Text, t: Tree, pos: nat)
    requires Derives(Scanner, s, t, pos)
    ensures pos <= |s| && ParseValue(s, pos) == Value(t, TextEnd(t))
    decreases t, 3
  {
    match t.kind {
      case Obj =>
        GapEnds(s, pos, t.start);
        CompleteContainer(s, t, true);
      case Arr =>
        GapEnds(s, pos, t.start);
        CompleteContainer(s, t, false);
      case Str => GapEnds(s, pos, t.start - 1);
      case Num => GapEnds(s, pos, t.start);
      case _ =>
        assert s[t.start] == s[t.start..t.end][0];
        GapEnds(s, pos, t.start);
    }
  }

  lemma {:induction false} CompleteContainer(s: Text, t: Tree, obj: bool)
    requires t.kind == (if obj then Obj else Arr) && t.start < |s|
             && DerivesBody(Scanner, s, t.kids, obj, t.start + 1, t.end)
    ensures ParseContainer(s, t.start, obj) == Value(t, t.end)
    decreases t, 2
  {
    if t.kids.Nil? {
      EmptyBody(s, obj, t.start + 1, t.end);
    } else {
      CompleteItems(s, t.kids, obj, t.start + 1, t.end);
      ItemsStart(s, t.start + 1, obj);
    }
    BodyCloses(s, t, obj);
  }

  lemma EmptyBody(s: Text, obj: bool, pos: nat, end: nat)
    requires Mark(s, pos, Close(obj), end)
    ensures ParseBody(s, pos, obj) == Items(Nil, end)
  {
    GapEnds(s, pos, end - 1);
  }

  lemma BodyCloses(s: Text, t: Tree, obj: bool)
    requires t.kind == (if obj then Obj else Arr) && t.start < |s|
    requires ParseBody(s, t.start + 1, obj) == Items(t.kids, t.end)
    ensures ParseContainer(s, t.start, obj) == Value(t, t.end)
  {
  }

  lemma KeyAt(s: Text, k: Tree, pos: nat, c: nat)
    requires k.kind == Str && Derives(Scanner, s, k, pos) && Mark(s, TextEnd(k), COLON, c)
    ensures pos <= |s| && ParseKey(s, pos) == Value(k, c)
  {
  }

  lemma MoreClose(s: Text, item: Forest, pos: nat, obj: bool, end: nat)
    requires Mark(s, pos, Close(obj), end)
    ensures ParseMore(s, item, pos, obj) == Items(item, end)
  {
  }

  lemma {:induction false} CompleteItems(s: Text, f: Forest, obj: bool, pos: nat, end: nat)
    requires DerivesItems(Scanner, s, f, obj, pos, end)
    ensures pos <= |s| && ParseItems(s, pos, obj) == Items(f, end)
    decreases f, 1
  {
    if !obj {
      CompleteRest(s, f, obj, pos, end, Cons(f.head, Nil));
      assert ParseItem(s, pos, obj) == Items(Cons(f.head, Nil), TextEnd(f.head));
      assert Append(Cons(f.head, Nil), f.tail) == f;
    } else {
      CompletePairs(s, f, pos, end);
    }
  }

  lemma {:induction false} CompletePairs(s: Text, f: Forest, pos: nat, end: nat)
    requires DerivesItems(Scanner, s, f, true, pos, end)
    ensures pos <= |s| && ParseItems(s, pos, true) == Items(f, end)
    decreases f, 0
  {
    var c :| f.head.end < c <= |s| && Mark(s, TextEnd(f.head), COLON, c)
        && DerivesRest(Scanner, s, f.tail, true, c, end);
    var item := Cons(f.head, Cons(f.tail.head, Nil));
    KeyAt(s, f.head, pos, c);
    CompleteRest(s, f.tail, true, c, end, item);
    assert ParseItem(s, pos, true) == Items(item, TextEnd(f.tail.head));
    AppendPair(f.head, f.tail.head, f.tail.tail);
  }

  lemma AppendOne(v: Tree, r: Forest)
    ensures Append(Cons(v, Nil), r) == Cons(v, r)
  {
  }

  lemma AppendPair(k: Tree, v: Tree, r: Forest)
    ensures Append(Cons(k, Cons(v, Nil)), r) == Cons(k, Cons(v, r))
  {
    assert Append(Cons(v, Nil), r) == Cons(v, Append(Nil, r));
  }

  lemma {:induction false} CompleteRest(s: Text, f: Forest, obj: bool, pos: nat, end: nat, item: Forest)
    requires DerivesRest(Scanner, s, f, obj, pos, end)
    ensures pos <= |s| && ParseValue(s, pos) == Value(f.head, TextEnd(f.head))
    ensures ParseMore(s, item, TextEnd(f.head), obj) == Items(Append(item, f.tail), end)
    decreases f, 0
  {
    Complete(s, f.head, pos);
    var e := TextEnd(f.head);
    if f.tail.Nil? {
      MoreClose(s, item, e, obj, end);
      AppendNil(item);
    } else {
      var c :| f.head.end < c <= |s| && Mark(s, e, COMMA, c) && DerivesItems(Scanner, s, f.tail, obj, c, end);
      CompleteItems(s, f.tail, obj, c, end);
    }
  }

  lemma AppendNil(f: Forest)
    ensures Append(f, Nil) == f
  {
  }

  lemma ItemsStart(s: Text, pos: nat, obj: bool)
    requires pos <= |s| && ParseItems(s, pos, obj).Items?
    ensures SkipWs(s, pos) < |s| && s[SkipWs(s, pos)] != Close(obj)
  {
    assert ParseItem(s, pos, obj).Items?;
    if !obj {
      assert ParseValue(s, pos).Value?;
    }
  }

  /** The tokenizer's descent finds a value exactly where the grammar over its own
      strings and numbers derives one. */
  lemma DescentIsScanned(s: Text, pos: nat, t: Tree, end: nat)
    requires pos <= |s|
    ensures ParseValue(s, pos) == Value(t, end) <==> Derives(Scanner, s, t, pos) && end == TextEnd(t)
  {
    if ParseValue(s, pos) == Value(t, end) {
      Sound(s, pos, t, end);
    }
    if Derives(Scanner, s, t, pos) {
      Complete(s, t, pos);
    }
  }

  // ---- and the grammar of RFC 8259 -----------------------------------------

  /** Every string of the tree has no backslash before a NUL and is well-formed
      UTF-8. */
  predicate Clean(s: Text, t: Tree) {
    (t.kind == Str ==> CleanString(s, t.start, t.end)) && CleanAll(s, t.kids)
  }

  predicate CleanAll(s: Text, f: Forest) {
    match f
    case Nil => true
    case Cons(h, r) => Clean(s, h) && CleanAll(s, r)
  }

  /** What follows cannot be part of a number. */
  predicate Delimited(s: Text, pos: nat) {
    pos <= |s| && (pos < |s| ==> !IsDigit(s[pos]) && s[pos] !in {0x2E, 0x65, 0x45})
  }

  lemma MarkDelimits(s: Text, a: nat, c: byte, b: nat)
    requires Mark(s, a, c, b) && c in {COMMA, COLON, Close(true), Close(false)}
    ensures Delimited(s, a)
  {
    assert a < b - 1 ==> IsWs(s[a]);
  }

  /** Over delimited values: an RFC derivation is a scanner derivation with clean
      strings, and the other way round. */
  lemma {:induction false} RfcIff(s: Text, t: Tree, pos: nat)
    requires Delimited(s, TextEnd(t))
    ensures Derives(Rfc, s, t, pos) <==> Derives(Scanner, s, t, pos) && Clean(s, t)
    decreases t, 3
  {
    match t.kind {
      case Obj => RfcBodyIff(s, t.kids, true, t.start + 1, t.end);
      case Arr => RfcBodyIff(s, t.kids, false, t.start + 1, t.end);
      case Str => StrictIff(s, t.start, t.end);
      case Num => NumberIff(s, t.start, t.end);
      case _ =>
    }
  }

  lemma NumberIff(s: Text, start: nat, end: nat)
    requires Delimited(s, end)
    ensures NumberFrom(Rfc, s, start, end) <==> NumberFrom(Scanner, s, start, end)
  {
    if NumberFrom(Rfc, s, start, end) {
      RfcNumbersAreTaken(s, start, end);
    }
    if NumberFrom(Scanner, s, start, end) {
      NumbersAreRfc(s, start, end);
    }
  }

  lemma {:induction false} RfcBodyIff(s: Text, f: Forest, obj: bool, pos: nat, end: nat)
    ensures DerivesBody(Rfc, s, f, obj, pos, end) <==> DerivesBody(Scanner, s, f, obj, pos, end) && CleanAll(s, f)
    decreases f, 2
  {
    if f.Cons? {
      RfcItemsIff(s, f, obj, pos, end);
    }
  }

  lemma KeyIff(s: Text, k: Tree, pos: nat)
    requires k.kind == Str
    ensures Derives(Rfc, s, k, pos) <==> Derives(Scanner, s, k, pos) && Clean(s, k)
  {
    StrictIff(s, k.start, k.end);
  }

  lemma {:induction false} RfcItemsIff(s: Text, f: Forest, obj: bool, pos: nat, end: nat)
    requires f.Cons?
    ensures DerivesItems(Rfc, s, f, obj, pos, end) <==> DerivesItems(Scanner, s, f, obj, pos, end) && CleanAll(s, f)
    decreases f, 1
  {
    if !obj {
      RfcRestIff(s, f, obj, pos, end);
    } else if f.head.kind == Str && f.tail.Cons? {
      KeyIff(s, f.head, pos);
      forall c | f.head.end < c <= |s|
        ensures DerivesRest(Rfc, s, f.tail, obj, c, end) <==>
                DerivesRest(Scanner, s, f.tail, obj, c, end) && CleanAll(s, f.tail)
      {
        RfcRestIff(s, f.tail, obj, c, end);
      }
    }
  }

  lemma {:induction false} RfcRestIff(s: Text, f: Forest, obj: bool, pos: nat, end: nat)
    requires f.Cons?
    ensures DerivesRest(Rfc, s, f, obj, pos, end) <==> DerivesRest(Scanner, s, f, obj, pos, end) && CleanAll(s, f)
    decreases f, 0
  {
    var e := TextEnd(f.head);
    if Delimited(s, e) {
      RfcIff(s, f.head, pos);
    }
    forall c, b | Mark(s, e, c, b) && c in {COMMA, Close(obj)} ensures Delimited(s, e) {
      MarkDelimits(s, e, c, b);
    }
    if f.tail.Cons? {
      forall c | f.head.end < c <= |s|
        ensures DerivesItems(Rfc, s, f.tail, obj, c, end) <==>
                DerivesItems(Scanner, s, f.tail, obj, c, end) && CleanAll(s, f.tail)
      {
        RfcItemsIff(s, f.tail, obj, c, end);
      }
    }
  }

  /** Where what follows cannot be part of a number, the descent finds a value with
      clean strings exactly where RFC 8259 derives one. */
  lemma DescentIsGrammar(s: Text, pos: nat, t: Tree, end: nat)
    requires pos <= |s| && Delimited(s, end)
    ensures ParseValue(s, pos) == Value(t, end) && Clean(s, t) <==> Derives(Rfc, s, t, pos) && end == TextEnd(t)
  {
    DescentIsScanned(s, pos, t, end);
    if end == TextEnd(t) {
      RfcIff(s, t, pos);
    }
  }

  /** A text is a JSON text of RFC 8259 exactly when it is accepted and its strings
      are clean: the tokenizer refuses no JSON text (but for room and depth), and the
      texts it accepts beyond the RFC are those with a backslash before a NUL or with
      bytes that are not UTF-8 in a string. */
  lemma DocumentIsGrammar(s: Text, t: Tree)
    ensures Document(s) == Some(t) && Clean(s, t) <==> Derives(Rfc, s, t, 0) && Gap(s, TextEnd(t), |s|)
  {
    var r, e := ParseValue(s, 0), TextEnd(t);
    if r.Value? {
      DescentIsScanned(s, 0, r.tree, r.end);
    }
    if Gap(s, e, |s|) {
      GapEnds(s, e, |s|);
      assert e < |s| ==> IsWs(s[e]);
      DescentIsGrammar(s, 0, t, e);
    }
  }

  /** Round trip of a whole text: the literal of a NUL-free string is tokenized to
      one string token, and unescaping that token gives the string back. */
  lemma LiteralIsDocument(x: Text, t: Text, end: nat)
    requires 0 !in x && t == Literal(x) && end == 1 + |Escaped(x)|
    ensures Document(t) == Some(Node(Str, 1, end, Nil))
    ensures WholeElements(t, 1, end) && Unescaped(t, 1, end) == x
  {
    assert t == [] + Literal(x) + [];
    StringRoundTrip(t, [], x, [], 1, end);
    StringIsDocument(t, end);
  }

  lemma StringIsDocument(t: Text, end: nat)
    requires |t| == end + 1 && end >= 1 && t[0] == QUOTE && StringEnd(t, 1) == Some(end)
    ensures Document(t) == Some(Node(Str, 1, end, Nil))
  {
    assert SkipWs(t, 0) == 0;
    assert ParseValue(t, 0) == Value(Node(Str, 1, end, Nil), end + 1);
  }
}
