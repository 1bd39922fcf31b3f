/** The tokenizer itself: recursive descent over a cursor that fills a bounded
    token array, refined to the grammar. */
module JsonParser {
  import opened Wrappers
  import opened JsonText
  import opened JsonTree
  import opened JsonGrammar

  const MAX_DEPTH: nat := 16

  /** Nesting of objects and arrays. */
  function Depth(t: Tree): nat {
    if t.kind == Obj || t.kind == Arr then 1 + DepthAll(t.kids) else 0
  }

  function DepthAll(f: Forest): nat {
    match f
    case Nil => 0
    case Cons(h, r) => if Depth(h) > DepthAll(r) then Depth(h) else DepthAll(r)
  }

  // ---- what the methods promise --------------------------------------------

  /** The array grew by the tokens of t. */
  predicate Took(before: seq<Token>, after: seq<Token>, t: Tree, parent: int) {
    |after| == |before| + Count(t) && before <= after && Holds(after, t, |before|, parent)
  }

  /** The array grew by the tokens of f, counted as children of token k. */
  predicate Grew(before: seq<Token>, after: seq<Token>, k: nat, f: Forest) {
    k < |before| && |after| == |before| + CountAll(f)
    && after[k] == before[k].(size := before[k].size + Size(f))
    && (forall j | 0 <= j < |before| && j != k :: after[j] == before[j])
    && HoldsAll(after, f, |before|, k)
  }

  /** A refusal is honest: a syntax error means there is no value; the other two
      mean that the value, if there is one, is too large or too deep. */
  predicate Refused(err: int, r: Value, used: nat, max: nat, depth: nat) {
    || (err == 0 && r.NoValue?)
    || (err == -2 && (r.Value? ==> used + Count(r.tree) > max))
    || (err == -3 && (r.Value? ==> depth + Depth(r.tree) > MAX_DEPTH))
  }

  predicate RefusedAll(err: int, r: Items, used: nat, max: nat, depth: nat) {
    || (err == 0 && r.NoItems?)
    || (err == -2 && (r.Items? ==> used + CountAll(r.forest) > max))
    || (err == -3 && (r.Items? ==> depth + DepthAll(r.forest) > MAX_DEPTH))
  }

  // ---- forests and arrays --------------------------------------------------

  lemma {:induction false} SameTokens(a: seq<Token>, b: seq<Token>, t: Tree, at: nat, parent: int)
    requires Holds(a, t, at, parent) && at + Count(t) <= |b|
    requires forall j | at <= j < at + Count(t) :: j < |a| && a[j] == b[j]
    ensures Holds(b, t, at, parent)
    decreases t
  {
    SameTokensAll(a, b, t.kids, at + 1, at);
  }

  lemma {:induction false} SameTokensAll(a: seq<Token>, b: seq<Token>, f: Forest, at: nat, parent: int)
    requires HoldsAll(a, f, at, parent) && at + CountAll(f) <= |b|
    requires forall j | at <= j < at + CountAll(f) :: j < |a| && a[j] == b[j]
    ensures HoldsAll(b, f, at, parent)
    decreases f
  {
    if f.Cons? {
      SameTokens(a, b, f.head, at, parent);
      SameTokensAll(a, b, f.tail, at + Count(f.head), parent);
    }
  }

  lemma {:induction false} AppendFacts(f: Forest, g: Forest)
    ensures CountAll(Append(f, g)) == CountAll(f) + CountAll(g)
    ensures Size(Append(f, g)) == Size(f) + Size(g)
    ensures DepthAll(Append(f, g)) == if DepthAll(f) > DepthAll(g) then DepthAll(f) else DepthAll(g)
  {
    if f.Cons? {
      AppendFacts(f.tail, g);
    }
  }

  lemma {:induction false} AppendAssoc(f: Forest, g: Forest, h: Forest)
    ensures Append(Append(f, g), h) == Append(f, Append(g, h))
  {
    if f.Cons? {
      AppendAssoc(f.tail, g, h);
    }
  }

  lemma {:induction false} AppendHolds(ts: seq<Token>, f: Forest, g: Forest, at: nat, parent: int)
    requires HoldsAll(ts, f, at, parent) && HoldsAll(ts, g, at + CountAll(f), parent)
    ensures HoldsAll(ts, Append(f, g), at, parent)
  {
    if f.Cons? {
      AppendHolds(ts, f.tail, g, at + Count(f.head), parent);
    }
  }

  lemma GrewTwice(a: seq<Token>, b: seq<Token>, c: seq<Token>, k: nat, f: Forest, g: Forest)
    requires Grew(a, b, k, f) && Grew(b, c, k, g)
    ensures Grew(a, c, k, Append(f, g))
  {
    AppendFacts(f, g);
    SameTokensAll(b, c, f, |a|, k);
    AppendHolds(c, f, g, |a|, k);
  }

  /** A child taken and counted. */
  lemma TookGrew(a: seq<Token>, b: seq<Token>, k: nat, t: Tree)
    requires k < |a| && Took(a, b, t, k)
    ensures Grew(a, b[k := b[k].(size := b[k].size + 1)], k, Cons(t, Nil))
  {
    var c := b[k := b[k].(size := b[k].size + 1)];
    SameTokens(b, c, t, |a|, k);
    assert HoldsAll(c, Nil, |a| + Count(t), k);
    assert CountAll(Cons(t, Nil)) == Count(t) + CountAll(Nil);
    assert Size(Cons(t, Nil)) == 1 + Size(Nil);
  }

  /** A container opened, filled and closed. */
  lemma GrewTook(a: seq<Token>, k: Kind, start: nat, end: nat, parent: int, b: seq<Token>, f: Forest, c: seq<Token>)
    requires Grew(a + [Token(k, start, start, 0, parent)], b, |a|, f)
    requires c == b[|a| := b[|a|].(end := end)]
    ensures Took(a, c, Node(k, start, end, f), parent)
  {
    SameTokensAll(b, c, f, |a| + 1, |a|);
  }

  lemma ItemInItems(s: Text, pos: nat, obj: bool)
    requires pos <= |s| && ParseItems(s, pos, obj).Items?
    ensures var item, all := ParseItem(s, pos, obj), ParseItems(s, pos, obj);
            item.Items? && CountAll(item.forest) <= CountAll(all.forest)
                && DepthAll(item.forest) <= DepthAll(all.forest)
  {
    var item := ParseItem(s, pos, obj);
    var q := SkipWs(s, item.end);
    if s[q] == COMMA {
      AppendFacts(item.forest, ParseItems(s, q + 1, obj).forest);
    }
  }

  // ---- the cursor ----------------------------------------------------------

  class Parser {
    const s: Text
    const max: nat
    var pos: nat
    var toks: seq<Token>
    var err: int

    ghost predicate Valid()
      reads this
    {
      pos <= |s| && |toks| <= max
    }

    /** What a call that should have read r leaves behind: its index k and its
        tokens, or -1 and an honest reason. */
    ghost predicate Outcome(r: Value, before: seq<Token>, parent: int, depth: nat, k: int)
      reads this
    {
      Valid() &&
      if k >= 0 then
        k == |before| && err == 0 && r.Value? && pos == r.end
        && Took(before, toks, r.tree, parent) && depth + Depth(r.tree) <= MAX_DEPTH
      else Refused(err, r, |before|, max, depth)
    }

    /** The same for the children of container k. */
    ghost predicate OutcomeAll(r: Items, before: seq<Token>, k: nat, depth: nat, ok: bool)
      reads this
    {
      Valid() &&
      if ok then err == 0 && r.Items? && pos == r.end && Grew(before, toks, k, r.forest)
          && depth + DepthAll(r.forest) <= MAX_DEPTH
      else RefusedAll(err, r, |before|, max, depth)
    }

    constructor (text: Text, room: nat)
      ensures s == text && max == room && pos == 0 && toks == [] && err == 0
    {
      s, max, pos, toks, err := text, room, 0, [], 0;
    }

    method Ws()
      requires Valid()
      modifies this`pos
      ensures pos == SkipWs(s, old(pos))
    {
      while pos < |s| && IsWs(s[pos])
        invariant pos <= |s| && SkipWs(s, pos) == SkipWs(s, old(pos))
      {
        pos := pos + 1;
      }
    }

    method Tok(kind: Kind, start: nat, parent: int) returns (k: int)
      requires Valid() && err == 0
      modifies this`toks, this`err
      ensures if |old(toks)| < max then k == |old(toks)| && err == 0
              && toks == old(toks) + [Token(kind, start, start, 0, parent)]
              else k == -1 && err == -2 && toks == old(toks)
    {
      if |toks| >= max {
        err := -2;
        return -1;
      }
      toks := toks + [Token(kind, start, start, 0, parent)];
      k := |toks| - 1;
    }

    /** One character or escape of a string. */
    method Element() returns (ok: bool)
      requires pos < |s| && s[pos] != QUOTE
      modifies this`pos
      ensures pos <= |s| && (ok <==> ElementEnd(s, old(pos)).Some?)
      ensures ok ==> ElementEnd(s, old(pos)) == Some(pos)
    {
      var c := s[pos];
      if c < 0x20 {
        return false;
      }
      if c == BACKSLASH {
        pos := pos + 1;
        if pos >= |s| {
          return false;
        }
        var e := s[pos];
        if e == LETTER_U {
          if pos + 4 >= |s| {
            return false;
          }
          for i := 1 to 5
            invariant forall j | pos < j < pos + i :: IsHex(s[j])
          {
            if !IsHex(s[pos + i]) {
              return false;
            }
          }
          assert FourHex(s, pos + 1);
          pos := pos + 4;
        } else if !ScannerEscape(e) {
          return false;
        }
      }
      pos := pos + 1;
      ok := true;
    }

    method String(parent: int) returns (k: int)
      requires Valid() && err == 0 && pos < |s|
      modifies this
      ensures Outcome(ParseString(s, old(pos)), old(toks), parent, 0, k)
    {
      ghost var before, start := toks, pos + 1;
      k := Tok(Str, pos + 1, parent);
      if k < 0 {
        return -1;
      }
      pos := pos + 1;
      while pos < |s|
        invariant pos <= |s| && err == 0 && toks == before + [Token(Str, start, start, 0, parent)] && |toks| <= max
        invariant StringEnd(s, pos) == StringEnd(s, start)
        decreases |s| - pos
      {
        if s[pos] == QUOTE {
          toks := toks[k := toks[k].(end := pos)];
          assert toks == before + [Token(Str, start, pos, 0, parent)];
          pos := pos + 1;
          return k;
        }
        var ok := Element();
        if !ok {
          return -1;
        }
      }
      k := -1;
    }

    /** The end of the run of digits at i. */
    method SkipDigits(i: nat) returns (j: nat)
      requires i <= |s|
      ensures j == Digits(s, i)
    {
      j := i;
      while j < |s| && IsDigit(s[j])
        invariant j <= |s| && Digits(s, j) == Digits(s, i)
      {
        j := j + 1;
      }
    }

    /** Scans a number from i. */
    method ScanNumber(from: nat) returns (ok: bool, i: nat)
      requires from <= |s|
      ensures NumberEnd(s, from) == if ok then Some(i) else None
    {
      ok, i := false, from;
      if i < |s| && s[i] == 0x2D {
        i := i + 1;
      }
      if i >= |s| {
        return;
      }
      if s[i] == 0x30 {
        i := i + 1;
      } else if 0x31 <= s[i] <= 0x39 {
        i := SkipDigits(i);
      } else {
        return;
      }
      assert IntEnd(s, from) == Some(i);
      ok, i := ScanFraction(i);
      if ok {
        ok, i := ScanExponent(i);
      }
    }

    method ScanFraction(from: nat) returns (ok: bool, i: nat)
      requires from <= |s|
      ensures FracEnd(s, from) == if ok then Some(i) else None
    {
      ok, i := false, from;
      if i < |s| && s[i] == 0x2E {
        i := i + 1;
        if i >= |s| || !IsDigit(s[i]) {
          return;
        }
        i := SkipDigits(i);
      }
      ok := true;
    }

    method ScanExponent(from: nat) returns (ok: bool, i: nat)
      requires from <= |s|
      ensures ExpEnd(s, from) == if ok then Some(i) else None
    {
      ok, i := false, from;
      if i < |s| && (s[i] == 0x65 || s[i] == 0x45) {
        i := i + 1;
        if i < |s| && (s[i] == 0x2B || s[i] == 0x2D) {
          i := i + 1;
        }
        if i >= |s| || !IsDigit(s[i]) {
          return;
        }
        i := SkipDigits(i);
      }
      ok := true;
    }

    method Number(parent: int) returns (k: int)
      requires Valid() && err == 0 && pos < |s|
      modifies this
      ensures Outcome(ParseNumber(s, old(pos)), old(toks), parent, 0, k)
    {
      ghost var before := toks;
      k := Tok(Num, pos, parent);
      if k < 0 {
        return -1;
      }
      var ok, i := ScanNumber(pos);
      if !ok {
        return -1;
      }
      toks := toks[k := toks[k].(end := i)];
      assert toks == before + [Token(Num, pos, i, 0, parent)];
      pos := i;
    }

    method Literal(parent: int, kind: Kind) returns (k: int)
      requires Valid() && err == 0 && pos < |s| && Word(kind) != []
      modifies this
      ensures Outcome(ParseWord(s, old(pos), kind), old(toks), parent, 0, k)
    {
      ghost var before, start := toks, pos;
      var l := |Word(kind)|;
      if pos + l > |s| || s[pos..pos + l] != Word(kind) {
        return -1;
      }
      k := Tok(kind, pos, parent);
      if k < 0 {
        return -1;
      }
      pos := pos + l;
      toks := toks[k := toks[k].(end := pos)];
      assert toks == before + [Token(kind, start, pos, 0, parent)];
    }

    /** Counts one more child of token k. */
    method Bump(k: nat)
      requires k < |toks|
      modifies this`toks
      ensures toks == old(toks)[k := old(toks)[k].(size := old(toks)[k].size + 1)]
    {
      toks := toks[k := toks[k].(size := toks[k].size + 1)];
    }

    method Scalar(parent: int, depth: nat) returns (k: int)
      requires Valid() && err == 0 && pos < |s| && depth <= MAX_DEPTH
      modifies this
      ensures Outcome(ParseScalar(s, old(pos)), old(toks), parent, depth, k)
    {
      var c := s[pos];
      if c == QUOTE {
        k := String(parent);
      } else if c == 0x2D || IsDigit(c) {
        k := Number(parent);
      } else if c == 0x74 {
        k := Literal(parent, True);
      } else if c == 0x66 {
        k := Literal(parent, False);
      } else if c == 0x6E {
        k := Literal(parent, Null);
      } else {
        k := -1;
      }
    }

    method Value(parent: int, depth: nat) returns (k: int)
      requires Valid() && err == 0 && depth <= MAX_DEPTH
      modifies this
      ensures Outcome(ParseValue(s, old(pos)), old(toks), parent, depth, k)
      decreases |s| - pos, 0
    {
      Ws();
      if pos >= |s| {
        return -1;
      }
      if s[pos] == Open(true) {
        k := Container(parent, depth, true);
      } else if s[pos] == Open(false) {
        k := Container(parent, depth, false);
      } else {
        k := Scalar(parent, depth);
      }
    }

    method Container(parent: int, depth: nat, obj: bool) returns (k: int)
      requires Valid() && err == 0 && pos < |s|
      modifies this
      ensures Outcome(ParseContainer(s, old(pos), obj), old(toks), parent, depth, k)
      decreases |s| - pos - 1, 5
    {
      ghost var before, start := toks, pos;
      var kind := if obj then Obj else Arr;
      if depth >= MAX_DEPTH {
        err := -3;
        return -1;
      }
      k := Tok(kind, pos, parent);
      if k < 0 {
        return -1;
      }
      pos := pos + 1;
      ghost var r := ParseBody(s, pos, obj);
      var ok := Body(k, depth + 1, obj);
      if !ok {
        return -1;
      }
      ghost var filled := toks;
      toks := toks[k := toks[k].(end := pos)];
      GrewTook(before, kind, start, pos, parent, filled, r.forest, toks);
    }

    method Body(k: nat, depth: nat, obj: bool) returns (ok: bool)
      requires Valid() && err == 0 && depth <= MAX_DEPTH && k < |toks|
      modifies this
      ensures OutcomeAll(ParseBody(s, old(pos), obj), old(toks), k, depth, ok)
      decreases |s| - pos, 4
    {
      SameItems(s, pos, obj);
      Ws();
      if pos < |s| && s[pos] == Close(obj) {
        pos := pos + 1;
        assert Grew(toks, toks, k, Nil);
        return true;
      }
      ok := AllItems(k, depth, obj);
    }

    /** After an item: a comma, or the closing bracket. */
    method Separator(obj: bool, ghost item: Forest) returns (ok: bool, more: bool)
      requires Valid()
      modifies this`pos
      ensures old(pos) <= pos <= |s|
      ensures ParseMore(s, item, old(pos), obj) ==
              if !ok then NoItems else if more then Joined(item, ParseItems(s, pos, obj)) else Items(item, pos)
      ensures more ==> ok && old(pos) < pos
    {
      Ws();
      if pos >= |s| {
        return false, false;
      }
      more := s[pos] == COMMA;
      ok := more || s[pos] == Close(obj);
      if ok {
        pos := pos + 1;
      }
    }

    /** The items of container k and its closing bracket. */
    method AllItems(k: nat, depth: nat, obj: bool) returns (ok: bool)
      requires Valid() && err == 0 && depth <= MAX_DEPTH && k < |toks|
      modifies this
      ensures OutcomeAll(ParseItems(s, old(pos), obj), old(toks), k, depth, ok)
      decreases |s| - pos, 3
    {
      ghost var before, all, done := toks, ParseItems(s, pos, obj), Nil;
      var more := true;
      while more
        invariant Valid() && err == 0 && old(pos) <= pos && Grew(before, toks, k, done)
                 && depth + DepthAll(done) <= MAX_DEPTH
        invariant all == if more then Joined(done, ParseItems(s, pos, obj)) else Items(done, pos)
        decreases more, |s| - pos
      {
        ghost var at, mid := pos, toks;
        ghost var rest, item := ParseItems(s, pos, obj), ParseItem(s, pos, obj);
        ok := Item(k, depth, obj);
        if !ok {
          RefusedFirst(err, s, at, obj, |mid|, max, depth);
          RefusedLater(err, rest, done, all, |before|, max, depth);
          return;
        }
        GrewTwice(before, mid, toks, k, done, item.forest);
        AppendFacts(done, item.forest);
        ok, more := Separator(obj, item.forest);
        if !ok {
          return;
        }
        JoinedMore(done, item.forest, ParseItems(s, pos, obj));
        done := Append(done, item.forest);
      }
      ok := true;
    }

    method Item(k: nat, depth: nat, obj: bool) returns (ok: bool)
      requires Valid() && err == 0 && depth <= MAX_DEPTH && k < |toks|
      modifies this
      ensures OutcomeAll(ParseItem(s, old(pos), obj), old(toks), k, depth, ok)
      decreases |s| - pos, 2
    {
      ghost var before, all, key := toks, ParseItem(s, pos, obj), ParseKey(s, pos);
      if !obj {
        ok := Child(k, depth);
        return;
      }
      PairItem(s, pos);
      ok := Key(k, depth);
      if !ok {
        RefusedKey(err, key, all, |before|, max, depth);
        return;
      }
      ghost var mid, value := toks, One(ParseValue(s, pos));
      ok := Child(k, depth);
      if !ok {
        RefusedLater(err, value, One(key).forest, all, |before|, max, depth);
        return;
      }
      GrewTwice(before, mid, toks, k, One(key).forest, value.forest);
      AppendFacts(One(key).forest, value.forest);
    }

    /** A value as a child of container k. */
    method Child(k: nat, depth: nat) returns (ok: bool)
      requires Valid() && err == 0 && depth <= MAX_DEPTH && k < |toks|
      modifies this
      ensures OutcomeAll(One(ParseValue(s, old(pos))), old(toks), k, depth, ok)
      decreases |s| - pos, 1
    {
      ghost var before, r := toks, ParseValue(s, pos);
      if r.Value? {
        OneFacts(r);
      }
      var v := Value(k, depth);
      if v < 0 {
        return false;
      }
      TookGrew(before, toks, k, r.tree);
      Bump(k);
      ok := true;
    }

    /** A key as a child of container k, and the colon after it. */
    method Key(k: nat, depth: nat) returns (ok: bool)
      requires Valid() && err == 0 && depth <= MAX_DEPTH && k < |toks|
      modifies this
      ensures OutcomeAll(One(ParseKey(s, old(pos))), old(toks), k, depth, ok)
    {
      ghost var before, r := toks, ParseKey(s, pos);
      if r.Value? {
        OneFacts(r);
      }
      Ws();
      if pos >= |s| || s[pos] != QUOTE {
        return false;
      }
      var v := String(k);
      if v < 0 {
        return false;
      }
      TookGrew(before, toks, k, ParseString(s, SkipWs(s, old(pos))).tree);
      Bump(k);
      Ws();
      if pos >= |s| || s[pos] != COLON {
        return false;
      }
      pos := pos + 1;
      ok := true;
    }
  }

  /** Tokenizes a whole text: accepts exactly the documents that fit the array and
      the depth, with their tokens, and says honestly why it refuses another. */
  method Parse(s: Text, max: nat) returns (n: int, toks: seq<Token>)
    ensures n >= 0 ==> && Document(s).Some? && n == |toks| && IsTree(toks, Document(s).value) && n <= max
                       && WellFormed(Document(s).value) && Document(s).value.end <= |s|
    ensures n >= 0 <==> Document(s).Some? && Count(Document(s).value) <= max && Depth(Document(s).value) <= MAX_DEPTH
    ensures n < 0 ==> n == -1 || n == -2 || n == -3
    ensures n == -1 ==> Document(s).None?
    ensures n == -2 && Document(s).Some? ==> Count(Document(s).value) > max
    ensures n == -3 && Document(s).Some? ==> Depth(Document(s).value) > MAX_DEPTH
  {
    var p := new Parser(s, max);
    var r := p.Value(-1, 0);
    if r >= 0 {
      ParsedWellFormed(s, 0);
      p.Ws();
      if p.pos != |s| {
        r := -1;
      }
    }
    n, toks := if r >= 0 then |p.toks| else if p.err != 0 then p.err else -1, p.toks;
  }

  /** A single value as a list of items. */
  function One(r: Value): Items {
    if r.NoValue? then NoItems else Items(Cons(r.tree, Nil), r.end)
  }

  lemma OneFacts(r: Value)
    requires r.Value?
    ensures CountAll(One(r).forest) == Count(r.tree) && DepthAll(One(r).forest) == Depth(r.tree)
  {
  }

  /** Items read so far and those still to come. */
  function Joined(done: Forest, rest: Items): Items {
    if rest.NoItems? then NoItems else Items(Append(done, rest.forest), rest.end)
  }

  lemma JoinedMore(done: Forest, item: Forest, rest: Items)
    ensures Joined(Append(done, item), rest) == Joined(done, Joined(item, rest))
  {
  }

  lemma PairItem(s: Text, pos: nat)
    requires pos <= |s|
    ensures var key := ParseKey(s, pos);
            ParseItem(s, pos, true) == if key.NoValue? then NoItems
                else Joined(One(key).forest, One(ParseValue(s, key.end)))
  {
    var key := ParseKey(s, pos);
    if key.Value? && ParseValue(s, key.end).Value? {
      AppendOne(key.tree, One(ParseValue(s, key.end)).forest);
    }
  }

  lemma RefusedKey(err: int, key: Value, all: Items, used: nat, max: nat, depth: nat)
    requires RefusedAll(err, One(key), used, max, depth)
    requires all.Items? ==> key.Value? && exists rest :: all == Joined(One(key).forest, rest)
    ensures RefusedAll(err, all, used, max, depth)
  {
    if all.Items? {
      var rest :| all == Joined(One(key).forest, rest);
      AppendFacts(One(key).forest, rest.forest);
    }
  }

  lemma RefusedLater(err: int, rest: Items, done: Forest, all: Items, used: nat, max: nat, depth: nat)
    requires all == Joined(done, rest) && RefusedAll(err, rest, used + CountAll(done), max, depth)
    ensures RefusedAll(err, all, used, max, depth)
  {
    if rest.Items? {
      AppendFacts(done, rest.forest);
    }
  }

  lemma RefusedFirst(err: int, s: Text, pos: nat, obj: bool, used: nat, max: nat, depth: nat)
    requires pos <= |s| && RefusedAll(err, ParseItem(s, pos, obj), used, max, depth)
    ensures RefusedAll(err, ParseItems(s, pos, obj), used, max, depth)
  {
    if ParseItems(s, pos, obj).Items? {
      ItemInItems(s, pos, obj);
    }
  }

  lemma SameItems(s: Text, pos: nat, obj: bool)
    requires pos <= |s|
    ensures ParseItems(s, SkipWs(s, pos), obj) == ParseItems(s, pos, obj)
  {
    var q := SkipWs(s, pos);
    assert SkipWs(s, q) == q;
    assert ParseItem(s, q, obj) == ParseItem(s, pos, obj);
  }
}
