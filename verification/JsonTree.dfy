/** The token array of a JSON text: what it means for it to hold a tree, and what
    follows for the links, spans and counts of its tokens. */
module JsonTree {
  datatype Kind = Obj | Arr | Str | Num | True | False | Null

  /** A value with the span of its token; members of an object alternate keys and
      values. */
  datatype Tree = Node(kind: Kind, start: nat, end: nat, kids: Forest)
  datatype Forest = Nil | Cons(head: Tree, tail: Forest)

  datatype Token = Token(kind: Kind, start: nat, end: nat, size: nat, parent: int)

  function Count(t: Tree): (n: nat)
    ensures n >= 1
  {
    1 + CountAll(t.kids)
  }

  function CountAll(f: Forest): nat {
    match f
    case Nil => 0
    case Cons(h, r) => Count(h) + CountAll(r)
  }

  function Size(f: Forest): nat {
    match f
    case Nil => 0
    case Cons(_, r) => 1 + Size(r)
  }

  /** The tokens from `at` on are the tree in preorder. */
  predicate Holds(ts: seq<Token>, t: Tree, at: nat, parent: int)
    decreases t
  {
    at < |ts| && ts[at] == Token(t.kind, t.start, t.end, Size(t.kids), parent) && HoldsAll(ts, t.kids, at + 1, at)
  }

  predicate HoldsAll(ts: seq<Token>, f: Forest, at: nat, parent: int)
    decreases f
  {
    match f
    case Nil => at <= |ts|
    case Cons(h, r) => Holds(ts, h, at, parent) && HoldsAll(ts, r, at + Count(h), parent)
  }

  /** The array is exactly one tree. */
  predicate IsTree(ts: seq<Token>, t: Tree) {
    Holds(ts, t, 0, -1) && |ts| == Count(t)
  }

  /** Spans nest and follow one another, only objects and arrays have children,
      and an object's are pairs of a string and a value. */
  predicate WellFormed(t: Tree) {
    t.start <= t.end && Ordered(t.kids, t.start, t.end)
    && (t.kids.Nil? || t.kind == Arr || (t.kind == Obj && Paired(t.kids)))
  }

  predicate Ordered(f: Forest, lo: nat, hi: nat) {
    match f
    case Nil => true
    case Cons(h, r) => lo < h.start && h.end < hi && WellFormed(h) && Ordered(r, h.end, hi)
  }

  predicate Paired(f: Forest) {
    match f
    case Nil => true
    case Cons(k, r) => k.kind == Str && k.kids.Nil? && r.Cons? && Paired(r.tail)
  }

  /** Token i is a proper ancestor of token j, following parent links. */
  predicate Under(ts: seq<Token>, i: nat, j: nat)
    requires j < |ts|
    decreases j
  {
    var p := ts[j].parent;
    0 <= p < j && (p == i || Under(ts, i, p))
  }

  /** The subtree whose root is token i. */
  function NodeAt(t: Tree, at: nat, i: nat): Tree
    requires at <= i < at + Count(t)
    decreases t
  {
    if i == at then t else NodeIn(t.kids, at + 1, i)
  }

  function NodeIn(f: Forest, at: nat, i: nat): Tree
    requires at <= i < at + CountAll(f)
    decreases f
  {
    if i < at + Count(f.head) then NodeAt(f.head, at, i) else NodeIn(f.tail, at + Count(f.head), i)
  }

  // ---- the tokens of a tree, segment by segment ----------------------------

  lemma {:induction false} HoldsFits(ts: seq<Token>, t: Tree, at: nat, parent: int)
    requires Holds(ts, t, at, parent)
    ensures at + Count(t) <= |ts|
    decreases t
  {
    HoldsAllFits(ts, t.kids, at + 1, at);
  }

  lemma {:induction false} HoldsAllFits(ts: seq<Token>, f: Forest, at: nat, parent: int)
    requires HoldsAll(ts, f, at, parent)
    ensures at + CountAll(f) <= |ts|
    decreases f
  {
    if f.Cons? {
      HoldsAllFits(ts, f.tail, at + Count(f.head), parent);
    }
  }

  /** The tokens of a forest point to its parent or to one another, backwards. */
  lemma {:induction false} Links(ts: seq<Token>, f: Forest, at: nat, parent: int, j: nat)
    requires HoldsAll(ts, f, at, parent) && at <= j < at + CountAll(f)
    ensures j < |ts| && (ts[j].parent == parent || at <= ts[j].parent < j)
    decreases f
  {
    var h := f.head;
    if j >= at + Count(h) {
      Links(ts, f.tail, at + Count(h), parent, j);
    } else if j > at {
      Links(ts, h.kids, at + 1, at, j);
    }
  }

  lemma {:induction false} AncestorsAreEarlier(ts: seq<Token>, i: nat, j: nat)
    requires j < |ts| && Under(ts, i, j)
    ensures i < j
    decreases j
  {
    if ts[j].parent != i {
      AncestorsAreEarlier(ts, i, ts[j].parent);
    }
  }

  /** Everything in a forest is below its parent. */
  lemma {:induction false} AllUnder(ts: seq<Token>, f: Forest, at: nat, parent: nat, j: nat)
    requires HoldsAll(ts, f, at, parent) && parent < at <= j < at + CountAll(f)
    ensures j < |ts| && Under(ts, parent, j)
    decreases j
  {
    Links(ts, f, at, parent, j);
    if ts[j].parent != parent {
      AllUnder(ts, f, at, parent, ts[j].parent);
    }
  }

  /** Nothing in a forest is below a token between its parent and itself. */
  lemma {:induction false} NoneUnder(ts: seq<Token>, f: Forest, at: nat, parent: int, i: nat, j: nat)
    requires HoldsAll(ts, f, at, parent) && parent < i < at <= j < at + CountAll(f)
    ensures j < |ts| && !Under(ts, i, j)
    decreases j
  {
    Links(ts, f, at, parent, j);
    if ts[j].parent != parent {
      NoneUnder(ts, f, at, parent, i, ts[j].parent);
    } else if Under(ts, i, j) {
      AncestorsAreEarlier(ts, i, parent);
    }
  }

  /** The node of token i holds from i on, and of the later tokens of the tree the
      first ones, as many as its subtree has, are below i and the others not. */
  lemma {:induction false} NodeHolds(ts: seq<Token>, t: Tree, at: nat, parent: int, i: nat)
    requires Holds(ts, t, at, parent) && parent < at <= i < at + Count(t)
    ensures i < |ts| && Holds(ts, NodeAt(t, at, i), i, ts[i].parent)
    ensures i + Count(NodeAt(t, at, i)) <= at + Count(t) <= |ts|
    ensures forall j | i < j < at + Count(t) :: Under(ts, i, j) <==> j < i + Count(NodeAt(t, at, i))
    decreases t
  {
    HoldsFits(ts, t, at, parent);
    if i == at {
      forall j | i < j < at + Count(t) ensures Under(ts, i, j) {
        AllUnder(ts, t.kids, at + 1, at, j);
      }
    } else {
      NodeInHolds(ts, t.kids, at + 1, at, i);
    }
  }

  lemma {:induction false} NodeInHolds(ts: seq<Token>, f: Forest, at: nat, parent: int, i: nat)
    requires HoldsAll(ts, f, at, parent) && parent < at <= i < at + CountAll(f)
    ensures i < |ts| && Holds(ts, NodeIn(f, at, i), i, ts[i].parent)
    ensures i + Count(NodeIn(f, at, i)) <= at + CountAll(f) <= |ts|
    ensures forall j | i < j < at + CountAll(f) :: Under(ts, i, j) <==> j < i + Count(NodeIn(f, at, i))
    decreases f
  {
    var h, next := f.head, at + Count(f.head);
    HoldsAllFits(ts, f, at, parent);
    if i < next {
      NodeHolds(ts, h, at, parent, i);
      forall j | next <= j < at + CountAll(f) ensures !Under(ts, i, j) {
        NoneUnder(ts, f.tail, next, parent, i, j);
      }
    } else {
      NodeInHolds(ts, f.tail, next, parent, i);
    }
  }

  /** Preorder: the proper descendants of a token are the run of tokens after it,
      as long as its subtree. */
  lemma SubtreeIsRun(ts: seq<Token>, t: Tree, i: nat, j: nat)
    requires IsTree(ts, t) && i < |ts| && j < |ts|
    ensures Under(ts, i, j) <==> i < j < i + Count(NodeAt(t, 0, i))
  {
    NodeHolds(ts, t, 0, -1, i);
    if Under(ts, i, j) {
      AncestorsAreEarlier(ts, i, j);
    }
  }

  // ---- links and counts ----------------------------------------------------

  /** How many of the first n tokens name p as their parent. */
  function Children(ts: seq<Token>, p: int, n: nat): nat
    requires n <= |ts|
  {
    if n == 0 then 0 else Children(ts, p, n - 1) + if ts[n - 1].parent == p then 1 else 0
  }

  lemma {:induction false} NoChildren(ts: seq<Token>, p: int, m: nat, n: nat)
    requires m <= n <= |ts| && forall j | m <= j < n :: ts[j].parent != p
    ensures Children(ts, p, n) == Children(ts, p, m)
  {
    if m < n {
      NoChildren(ts, p, m, n - 1);
    }
  }

  lemma {:induction false} ChildrenIn(ts: seq<Token>, f: Forest, at: nat, parent: int)
    requires HoldsAll(ts, f, at, parent) && parent < at && at + CountAll(f) <= |ts|
    ensures Children(ts, parent, at + CountAll(f)) == Children(ts, parent, at) + Size(f)
    decreases f
  {
    if f.Cons? {
      var h, next := f.head, at + Count(f.head);
      forall j | at + 1 <= j < next ensures ts[j].parent != parent {
        Links(ts, h.kids, at + 1, at, j);
      }
      NoChildren(ts, parent, at + 1, next);
      ChildrenIn(ts, f.tail, next, parent);
    }
  }

  lemma LinksBack(ts: seq<Token>, t: Tree, j: nat)
    requires IsTree(ts, t) && j < |ts|
    ensures if j == 0 then ts[j].parent == -1 else 0 <= ts[j].parent < j
  {
    if j > 0 {
      Links(ts, t.kids, 1, 0, j);
    }
  }

  /** A token's size is exactly the number of tokens that name it as parent. */
  lemma SizeIsChildCount(ts: seq<Token>, t: Tree, i: nat)
    requires IsTree(ts, t) && i < |ts|
    ensures Children(ts, i, |ts|) == ts[i].size
  {
    NodeHolds(ts, t, 0, -1, i);
    var node := NodeAt(t, 0, i);
    var last := i + Count(node);
    forall j | 0 <= j < i + 1 ensures ts[j].parent != i {
      LinksBack(ts, t, j);
    }
    NoChildren(ts, i, 0, i + 1);
    ChildrenIn(ts, node.kids, i + 1, i);
    forall j | last <= j < |ts| ensures ts[j].parent != i {
      LinksBack(ts, t, j);
      assert !Under(ts, i, j);
    }
    NoChildren(ts, i, last, |ts|);
  }

  // ---- spans ---------------------------------------------------------------

  lemma {:induction false} SpansWithin(ts: seq<Token>, f: Forest, at: nat, parent: int, lo: nat, hi: nat, j: nat)
    requires HoldsAll(ts, f, at, parent) && Ordered(f, lo, hi) && at <= j < at + CountAll(f)
    ensures j < |ts| && lo < ts[j].start <= ts[j].end < hi
    decreases f
  {
    var h := f.head;
    if j >= at + Count(h) {
      SpansWithin(ts, f.tail, at + Count(h), parent, h.end, hi, j);
    } else if j > at {
      SpansWithin(ts, h.kids, at + 1, at, h.start, h.end, j);
    }
  }

  lemma {:induction false} SpansOf(ts: seq<Token>, t: Tree, at: nat, parent: int, i: nat, j: nat)
    requires Holds(ts, t, at, parent) && parent < at <= i < j < at + Count(t) <= |ts| && WellFormed(t)
    ensures if j < i + Count(NodeAt(t, at, i)) then ts[i].start < ts[j].start <= ts[j].end < ts[i].end
            else ts[i].end < ts[j].start
    decreases t
  {
    if i == at {
      SpansWithin(ts, t.kids, at + 1, at, t.start, t.end, j);
    } else {
      SpansIn(ts, t.kids, at + 1, at, t.start, t.end, i, j);
    }
  }

  lemma {:induction false} SpansIn(ts: seq<Token>, f: Forest, at: nat, parent: int, lo: nat, hi: nat, i: nat, j: nat)
    requires HoldsAll(ts, f, at, parent) && Ordered(f, lo, hi)
    requires parent < at <= i < j < at + CountAll(f) <= |ts|
    ensures if j < i + Count(NodeIn(f, at, i)) then ts[i].start < ts[j].start <= ts[j].end < ts[i].end
            else ts[i].end < ts[j].start
    decreases f
  {
    var h, next := f.head, at + Count(f.head);
    if i >= next {
      SpansIn(ts, f.tail, next, parent, h.end, hi, i, j);
    } else if j < next {
      SpansOf(ts, h, at, parent, i, j);
    } else {
      NodeHolds(ts, h, at, parent, i);
      SpansWithin(ts, f.tail, next, parent, h.end, hi, j);
      if i > at {
        SpansWithin(ts, h.kids, at + 1, at, h.start, h.end, i);
      }
    }
  }

  /** Spans nest as the links say: a descendant lies strictly inside, every other
      later token lies strictly after. */
  lemma SpansNest(ts: seq<Token>, t: Tree, i: nat, j: nat)
    requires IsTree(ts, t) && WellFormed(t) && i < j < |ts|
    ensures if Under(ts, i, j) then ts[i].start < ts[j].start <= ts[j].end < ts[i].end else ts[i].end < ts[j].start
  {
    SubtreeIsRun(ts, t, i, j);
    SpansOf(ts, t, 0, -1, i, j);
  }

  lemma {:induction false} Widen(f: Forest, lo: nat, hi: nat, wide: nat)
    requires Ordered(f, lo, hi) && hi <= wide
    ensures Ordered(f, lo, wide)
  {
    if f.Cons? {
      Widen(f.tail, f.head.end, hi, wide);
    }
  }

  lemma {:induction false} NodeWellFormed(t: Tree, at: nat, i: nat)
    requires WellFormed(t) && at <= i < at + Count(t)
    ensures WellFormed(NodeAt(t, at, i))
    decreases t
  {
    if i != at {
      NodeInWellFormed(t.kids, at + 1, i, t.start, t.end);
    }
  }

  lemma {:induction false} NodeInWellFormed(f: Forest, at: nat, i: nat, lo: nat, hi: nat)
    requires Ordered(f, lo, hi) && at <= i < at + CountAll(f)
    ensures WellFormed(NodeIn(f, at, i))
    decreases f
  {
    if i < at + Count(f.head) {
      NodeWellFormed(f.head, at, i);
    } else {
      NodeInWellFormed(f.tail, at + Count(f.head), i, f.head.end, hi);
    }
  }

  /** Every parent is an earlier object or array; only the root has none. */
  lemma ParentsAreContainers(ts: seq<Token>, t: Tree, j: nat)
    requires IsTree(ts, t) && WellFormed(t) && 0 < j < |ts|
    ensures 0 <= ts[j].parent < j && ts[ts[j].parent].kind in {Obj, Arr}
  {
    LinksBack(ts, t, j);
    var p := ts[j].parent;
    SubtreeIsRun(ts, t, p, j);
    NodeHolds(ts, t, 0, -1, p);
    NodeWellFormed(t, 0, p);
  }
}
