/** Walking the token array: stepping over a subtree and looking up a member. */
module JsonWalk {
  import opened JsonText
  import opened JsonTree

  /** The tokens determine the tree. */
  lemma {:induction false} HoldsOne(ts: seq<Token>, t: Tree, u: Tree, at: nat, parent: int)
    requires Holds(ts, t, at, parent) && Holds(ts, u, at, parent)
    ensures t == u
    decreases t
  {
    HoldsAllOne(ts, t.kids, u.kids, at + 1, at);
  }

  lemma {:induction false} HoldsAllOne(ts: seq<Token>, f: Forest, g: Forest, at: nat, parent: int)
    requires HoldsAll(ts, f, at, parent) && HoldsAll(ts, g, at, parent) && Size(f) == Size(g)
    ensures f == g
    decreases f
  {
    if f.Cons? {
      HoldsOne(ts, f.head, g.head, at, parent);
      HoldsAllOne(ts, f.tail, g.tail, at + Count(f.head), parent);
    }
  }

  /** The first token after i that is not below it: exactly the tokens from i + 1
      up to the result are below i, as many as the subtree has. */
  method Skip(ts: seq<Token>, i: nat, ghost t: Tree) returns (j: nat)
    requires IsTree(ts, t) && i < |ts|
    ensures i < j <= |ts| && forall k | i < k < |ts| :: Under(ts, i, k) <==> k < j
    ensures j == i + Count(NodeAt(t, 0, i))
  {
    NodeHolds(ts, t, 0, -1, i);
    j := i + 1;
    while j < |ts|
      invariant i < j <= i + Count(NodeAt(t, 0, i))
    {
      var a := ts[j].parent;
      LinksBack(ts, t, j);
      while a >= 0 && a != i
        invariant -1 <= a < j
        invariant Under(ts, i, j) <==> a == i || (a >= 0 && Under(ts, i, a))
        decreases a
      {
        LinksBack(ts, t, a);
        a := ts[a].parent;
      }
      if a != i {
        break;
      }
      j := j + 1;
    }
  }

  /** A member of an object: its key and the index of its value's token. */
  datatype Member = Member(key: Tree, value: nat)

  function Members(f: Forest, at: nat): seq<Member>
    requires Paired(f)
  {
    if f.Nil? then [] else [Member(f.head, at + 1)] + Members(f.tail.tail, at + 1 + Count(f.tail.head))
  }

  predicate Matches(s: Text, k: Tree, key: Text) {
    k.start <= k.end <= |s| && s[k.start..k.end] == key
  }

  /** r is the value of the first member with that key, or -1 if none has it. */
  predicate FirstMatch(s: Text, ms: seq<Member>, key: Text, r: int) {
    if r == -1 then forall m | 0 <= m < |ms| :: !Matches(s, ms[m].key, key)
    else exists m | 0 <= m < |ms| ::
        ms[m].value == r && Matches(s, ms[m].key, key) && forall k | 0 <= k < m :: !Matches(s, ms[k].key, key)
  }

  function Lookup(s: Text, f: Forest, at: nat, key: Text): int
    requires Paired(f)
  {
    if f.Nil? then -1
    else if Matches(s, f.head, key) then at + 1
    else Lookup(s, f.tail.tail, at + 1 + Count(f.tail.head), key)
  }

  lemma {:induction false} LookupIsFirst(s: Text, f: Forest, at: nat, key: Text)
    requires Paired(f)
    ensures FirstMatch(s, Members(f, at), key, Lookup(s, f, at, key))
  {
    if f.Cons? {
      var ms, next := Members(f, at), at + 1 + Count(f.tail.head);
      var more := Members(f.tail.tail, next);
      LookupIsFirst(s, f.tail.tail, next, key);
      if Matches(s, f.head, key) {
        assert ms[0].value == at + 1;
      } else if Lookup(s, f.tail.tail, next, key) != -1 {
        var m :| 0 <= m < |more| && more[m].value == Lookup(s, f, at, key) && Matches(s, more[m].key, key)
                 && forall k | 0 <= k < m :: !Matches(s, more[k].key, key);
        assert ms[m + 1] == more[m];
      }
    }
  }

  /** The value after a key steps over to the next key. */
  lemma NextKey(ts: seq<Token>, t: Tree, f: Forest, at: nat, parent: nat)
    requires IsTree(ts, t) && f.Cons? && Paired(f) && HoldsAll(ts, f, at, parent)
    ensures at + 1 < |ts| && NodeAt(t, 0, at + 1) == f.tail.head
    ensures HoldsAll(ts, f.tail.tail, at + 1 + Count(f.tail.head), parent)
  {
    assert Count(f.head) == 1;
    assert HoldsAll(ts, f.tail, at + 1, parent);
    assert Holds(ts, f.tail.head, at + 1, parent);
    NodeHolds(ts, t, 0, -1, at + 1);
    HoldsOne(ts, f.tail.head, NodeAt(t, 0, at + 1), at + 1, parent);
  }

  /** One member of the search: what its key token says, and what is left. */
  lemma MemberStep(s: Text, ts: seq<Token>, t: Tree, f: Forest, at: nat, parent: nat, lo: nat)
    requires IsTree(ts, t) && HoldsAll(ts, f, at, parent) && Paired(f) && Ordered(f, lo, |s|) && f.Cons?
    ensures at + 1 < |ts| && ts[at].kind == Str && ts[at].start == f.head.start && ts[at].end == f.head.end
    ensures f.head.start <= f.head.end <= |s| && Count(NodeAt(t, 0, at + 1)) == Count(f.tail.head)
    ensures HoldsAll(ts, f.tail.tail, at + 1 + Count(f.tail.head), parent)
    ensures Paired(f.tail.tail) && Size(f.tail.tail) == Size(f) - 2 && Ordered(f.tail.tail, f.tail.head.end, |s|)
  {
    NextKey(ts, t, f, at, parent);
    AfterPair(f, lo, |s|);
    KeyToken(ts, f, at, parent);
  }

  lemma KeyToken(ts: seq<Token>, f: Forest, at: nat, parent: nat)
    requires f.Cons? && Paired(f) && HoldsAll(ts, f, at, parent)
    ensures at < |ts| && ts[at].kind == Str && ts[at].start == f.head.start && ts[at].end == f.head.end
  {
    assert Holds(ts, f.head, at, parent);
  }

  lemma LookupStep(s: Text, f: Forest, at: nat, key: Text, k: Token, rest: Forest, next: nat)
    requires f.Cons? && Paired(f) && k.start == f.head.start && k.end == f.head.end && k.start <= k.end <= |s|
    requires rest == f.tail.tail && next == at + 1 + Count(f.tail.head)
    ensures Lookup(s, f, at, key) == if s[k.start..k.end] == key then at + 1 else Lookup(s, rest, next, key)
  {
  }

  /** What is left after the first pair. */
  lemma AfterPair(f: Forest, lo: nat, hi: nat)
    requires Paired(f) && Ordered(f, lo, hi) && f.Cons?
    ensures f.head.start <= f.head.end < hi && Paired(f.tail.tail) && Size(f.tail.tail) == Size(f) - 2
    ensures Ordered(f.tail.tail, f.tail.head.end, hi)
  {
    assert WellFormed(f.head) && Ordered(f.tail, f.head.end, hi);
  }

  /** Steps over the value of a member to the next key. */
  method StepOver(ts: seq<Token>, i: nat, ghost t: Tree, ghost f: Forest, ghost parent: nat, ghost after: nat)
    returns (next: nat)
    requires IsTree(ts, t) && i < |ts| && after == i + Count(NodeAt(t, 0, i)) && HoldsAll(ts, f, after, parent)
    ensures next == after && HoldsAll(ts, f, next, parent)
  {
    next := Skip(ts, i, t);
  }

  /** Compares the key of one member; if it differs, steps over to the next. */
  method TryMember(s: Text, ts: seq<Token>, i: nat, key: Text, ghost t: Tree, ghost f: Forest, ghost parent: nat,
      ghost lo: nat)
    returns (hit: bool, next: nat)
    requires IsTree(ts, t) && HoldsAll(ts, f, i, parent) && Paired(f) && Ordered(f, lo, |s|) && Size(f) > 0
    ensures hit ==> Lookup(s, f, i, key) == i + 1
    ensures !hit ==>
              && next == i + 1 + Count(f.tail.head) && HoldsAll(ts, f.tail.tail, next, parent)
              && Lookup(s, f, i, key) == Lookup(s, f.tail.tail, next, key)
    ensures Paired(f.tail.tail) && Size(f.tail.tail) == Size(f) - 2 && Ordered(f.tail.tail, f.tail.head.end, |s|)
  {
    ghost var after := i + 1 + Count(f.tail.head);
    MemberStep(s, ts, t, f, i, parent, lo);
    LookupStep(s, f, i, key, ts[i], f.tail.tail, after);
    hit, next := ts[i].kind == Str && ts[i].end - ts[i].start == |key| && s[ts[i].start..ts[i].end] == key, i + 1;
    if !hit {
      next := StepOver(ts, i + 1, t, f.tail.tail, parent, after);
    }
  }

  /** Looks a key up among the members of token obj. */
  method GetIn(s: Text, ts: seq<Token>, obj: nat, key: Text, ghost t: Tree, ghost f: Forest, ghost from: nat)
    returns (r: int)
    requires IsTree(ts, t) && obj < |ts| && HoldsAll(ts, f, obj + 1, obj) && Paired(f) && Size(f) == ts[obj].size
    requires Ordered(f, from, |s|)
    ensures r == Lookup(s, f, obj + 1, key)
  {
    var i: nat, m: nat := obj + 1, 0;
    ghost var rest, lo := f, from;
    while m < ts[obj].size / 2 && i < |ts|
      invariant HoldsAll(ts, rest, i, obj) && Paired(rest) && Ordered(rest, lo, |s|)
      invariant Size(rest) == ts[obj].size - 2 * m
      invariant Lookup(s, rest, i, key) == Lookup(s, f, obj + 1, key)
    {
      NextKey(ts, t, rest, i, obj);
      var v := i + 1;
      if v >= |ts| {
        return -1;
      }
      var hit, next := TryMember(s, ts, i, key, t, rest, obj, lo);
      if hit {
        return v;
      }
      rest, lo, i, m := rest.tail.tail, rest.tail.head.end, next, m + 1;
    }
    r := -1;
  }

  /** The value token of the first member of object obj whose key bytes match;
      -1 exactly when obj is no object or no member matches. */
  method Get(s: Text, ts: seq<Token>, obj: int, key: Text, ghost t: Tree) returns (r: int)
    requires IsTree(ts, t) && WellFormed(t) && t.end <= |s|
    ensures !(0 <= obj < |ts| && ts[obj].kind == Obj) ==> r == -1
    ensures 0 <= obj < |ts| && ts[obj].kind == Obj ==>
              var f := NodeAt(t, 0, obj).kids;
              Paired(f) && FirstMatch(s, Members(f, obj + 1), key, r)
  {
    if obj < 0 || obj >= |ts| || ts[obj].kind != Obj {
      return -1;
    }
    NodeHolds(ts, t, 0, -1, obj);
    NodeWellFormed(t, 0, obj);
    ghost var node := NodeAt(t, 0, obj);
    if obj > 0 {
      SpansWithin(ts, t.kids, 1, 0, t.start, t.end, obj);
    }
    Widen(node.kids, node.start, node.end, |s|);
    LookupIsFirst(s, node.kids, obj + 1, key);
    r := GetIn(s, ts, obj, key, t, node.kids, node.start);
  }
}
