/** Inserting into one layer of the B+-tree: the leaf cases, the leaf split, the three
    internal split cases and root growth of insert0 and insert_stable_location. */
module BTreeInsert {
  import opened BTree

  // ------------------------------------------------------------------ the operation

  /** What a subtree becomes: one node, or two with the key that separates them. */
  datatype Grown<P> = One(node: Node<P>) | Two(left: Node<P>, key: nat, right: Node<P>)

  /** sift_right and store: an array with x put in at position p. */
  function Put<T>(s: seq<T>, p: nat, x: T): seq<T>
    requires p <= |s|
  {
    s[..p] + [x] + s[p..]
  }

  predicate Tidy<P>(es: seq<Entry<P>>) { Ascending(es) && forall i :: 0 <= i < |es| ==> es[i].len <= 9 }

  /** What the operation needs of a node to run: array sizes and ordered leaves. */
  predicate Shaped<P>(t: Node<P>) {
    match t
    case Leaf(_, es) => |es| <= N && Tidy(es)
    case Internal(keys, kids) =>
      |keys| <= N && |kids| == |keys| + 1 && forall i :: 0 <= i < |kids| ==> Shaped(kids[i])
  }

  /** The nearest place at or before p where the slice changes. */
  function LeftSplit<P>(es: seq<Entry<P>>, p: nat): (r: nat)
    requires p < |es|
    ensures r <= p && (r > 0 ==> es[r - 1].slice != es[r].slice)
    ensures forall i :: r <= i <= p ==> es[i].slice == es[p].slice
  {
    if p > 0 && es[p - 1].slice == es[p].slice then LeftSplit(es, p - 1) else p
  }

  /** The nearest place at or after p where the slice changes, or the end. */
  function RightSplit<P>(es: seq<Entry<P>>, p: nat): (r: nat)
    requires 0 < p <= |es|
    ensures p <= r <= |es| && (r < |es| ==> es[r - 1].slice != es[r].slice)
    ensures forall i :: p - 1 <= i < r ==> es[i].slice == es[p - 1].slice
    decreases |es| - p
  {
    if p < |es| && es[p - 1].slice == es[p].slice then RightSplit(es, p + 1) else p
  }

  function Min(a: nat, b: nat): nat { if a < b then a else b }

  /** The split point: the one of the two that leaves the smaller side larger. */
  function SplitPoint<P>(es: seq<Entry<P>>): nat
    requires |es| == N
  {
    var left, right := LeftSplit(es, N / 2), RightSplit(es, N / 2);
    if Min(left, N - left) < Min(right, N - right) then right else left
  }

  predicate GoesRight<P>(es: seq<Entry<P>>, sp: nat, e: Entry<P>)
    requires 0 < sp <= |es|
  {
    sp <= Pos(es, e.slice, e.len) && es[sp - 1].slice != e.slice
  }

  /** A leaf takes an entry.  `last` says that it is the rightmost leaf of its layer. */
  function LeafPut<P>(t: Node<P>, e: Entry<P>, last: bool): Grown<P>
    requires t.Leaf? && |t.entries| <= N && Tidy(t.entries)
  {
    var es, p := t.entries, Pos(t.entries, e.slice, e.len);
    if Match(es, e.slice, e.len) then One(Leaf(t.minKey, es[p := e]))
    else if |es| < N then One(Leaf(t.minKey, Put(es, p, e)))
    else if last && es[N - 1].slice < e.slice then Two(t, e.slice, Leaf(e.slice, [e]))
    else LeafSplit(t.minKey, es, e)
  }

  function LeafSplit<P>(minKey: nat, es: seq<Entry<P>>, e: Entry<P>): Grown<P>
    requires |es| == N && Tidy(es)
  {
    var sp, p := SplitPoint(es), Pos(es, e.slice, e.len);
    SplitInside(es);
    if GoesRight(es, sp, e) then
      var right := es[sp..p] + [e] + es[p..];
      Two(Leaf(minKey, es[..sp]), right[0].slice, Leaf(right[0].slice, right))
    else
      StaysLeft(es, sp, e);
      Two(Leaf(minKey, es[..p] + [e] + es[p..sp]), es[sp].slice, Leaf(es[sp].slice, es[sp..]))
  }

  /** A node whose child c became two. */
  function AddChild<P>(keys: seq<nat>, kids: seq<Node<P>>, c: nat, l: Node<P>, mk: nat, r: Node<P>): Grown<P>
    requires |kids| == |keys| + 1 && c <= |keys| <= N
  {
    var kids' := kids[c := l];
    if |keys| < N then One(Internal(Put(keys, c, mk), Put(kids', c + 1, r)))
    else if c < MIN_KEYS then          // (1) mk goes in the original node
      Two(Internal(Put(keys[..MIN_KEYS - 1], c, mk), Put(kids'[..MIN_KEYS], c + 1, r)),
          keys[MIN_KEYS - 1],
          Internal(keys[MIN_KEYS..], kids'[MIN_KEYS..]))
    else if c == MIN_KEYS then         // (2) mk is the key we push up
      Two(Internal(keys[..MIN_KEYS], kids'[..MIN_KEYS + 1]),
          mk,
          Internal(keys[MIN_KEYS..], [r] + kids'[MIN_KEYS + 1..]))
    else                               // (3) mk goes in the new node
      Two(Internal(keys[..MIN_KEYS], kids'[..MIN_KEYS + 1]),
          keys[MIN_KEYS],
          Internal(keys[MIN_KEYS + 1..c] + [mk] + keys[c..], kids'[MIN_KEYS + 1..c + 1] + [r] + kids'[c + 1..]))
  }

  function Insert<P>(t: Node<P>, e: Entry<P>, last: bool): Grown<P>
    requires Shaped(t)
  {
    if t.Leaf? then LeafPut(t, e, last)
    else
      var c := ChildIdx(t.keys, e.slice);
      match Insert(t.kids[c], e, last && c == |t.keys|)
      case One(kid) => One(Internal(t.keys, t.kids[c := kid]))
      case Two(l, mk, r) => AddChild(t.keys, t.kids, c, l, mk, r)
  }

  /** insert_stable_location: a split root gets a new root above it. */
  function InsertRoot<P>(t: Node<P>, e: Entry<P>): Node<P>
    requires Shaped(t)
  {
    match Insert(t, e, true)
    case One(node) => node
    case Two(l, mk, r) => Internal([mk], [l, r])
  }

  // ------------------------------------------------------------------ the leaf split

  /** Entries of one slice differ in length, so at most ten of them are neighbours. */
  lemma {:induction false} LengthsGrow<P>(es: seq<Entry<P>>, i: nat, j: nat)
    requires Ascending(es) && i <= j < |es| && forall k :: i <= k <= j ==> es[k].slice == es[i].slice
    ensures es[j].len >= es[i].len + (j - i)
    decreases j
  {
    if i < j {
      LengthsGrow(es, i, j - 1);
      assert Less(es[j - 1], es[j]);
    }
  }

  /** A full leaf always splits strictly inside, between different slices. */
  lemma SplitInside<P>(es: seq<Entry<P>>)
    requires Tidy(es) && |es| == N
    ensures
      var sp := SplitPoint(es);
      0 < sp < N && es[sp - 1].slice < es[sp].slice
  {
    var left, right, sp := LeftSplit(es, N / 2), RightSplit(es, N / 2), SplitPoint(es);
    if left == 0 && right == N {
      forall k | 0 <= k <= N - 1
        ensures es[k].slice == es[0].slice
      {
        assert es[N / 2].slice == es[N / 2 - 1].slice == es[0].slice;
      }
      LengthsGrow(es, 0, N - 1);
    }
    assert 0 < sp < N;
    assert Less(es[sp - 1], es[sp]);
  }

  /** The fact insert0 relies on without being sure of it: a key that does not go to the
      new leaf belongs at or before the split point. */
  lemma StaysLeft<P>(es: seq<Entry<P>>, sp: nat, e: Entry<P>)
    requires Ascending(es) && 0 < sp < |es| && es[sp - 1].slice < es[sp].slice
    requires !GoesRight(es, sp, e)
    ensures Pos(es, e.slice, e.len) <= sp
  {
    var p := Pos(es, e.slice, e.len);
    assert p > 0 ==> Before(es[p - 1].slice, es[p - 1].len, e.slice, e.len);
    if es[sp - 1].slice == e.slice {
      forall j | sp <= j < |es|
        ensures !Before(es[j].slice, es[j].len, e.slice, e.len)
      {
        assert sp < j ==> Less(es[sp], es[j]);
      }
    }
  }

  // ------------------------------------------------------------------ correctness of the leaf

  ghost predicate InGrown<P>(x: Entry<P>, g: Grown<P>) {
    match g
    case One(node) => In(x, node)
    case Two(l, _, r) => In(x, l) || In(x, r)
  }

  ghost predicate GrownOk<P>(g: Grown<P>, h: nat, lo: nat, hi: nat, root: bool) {
    match g
    case One(node) => WF(node, h, lo, hi, root)
    case Two(l, mk, r) => lo < mk < hi && WF(l, h, lo, mk, false) && WF(r, h, mk, hi, false)
  }

  /** The entries afterwards: e, and all the others. */
  ghost predicate Holds<P>(x: Entry<P>, e: Entry<P>, before: bool) {
    x == e || (before && !At(x, e.slice, e.len))
  }

  lemma PutKeeps<P>(es: seq<Entry<P>>, e: Entry<P>, lo: nat, hi: nat)
    requires EntriesOk(es, lo, hi) && Fits(e, lo, hi) && !Match(es, e.slice, e.len)
    ensures EntriesOk(Put(es, Pos(es, e.slice, e.len), e), lo, hi)
  {
    var p := Pos(es, e.slice, e.len);
    var all := Put(es, p, e);
    forall i, j | 0 <= i < j < |all|
      ensures Less(all[i], all[j])
    {
      PosSplits(es, e, if i < p then i else j - 1);
      assert i < p < j ==> Less(es[i], e) && !Before(es[j - 1].slice, es[j - 1].len, e.slice, e.len);
    }
  }

  lemma PosSplits<P>(es: seq<Entry<P>>, e: Entry<P>, i: nat)
    requires Ascending(es) && !Match(es, e.slice, e.len) && i < |es|
    ensures i < Pos(es, e.slice, e.len) ==> Less(es[i], e)
    ensures i >= Pos(es, e.slice, e.len) ==> Less(e, es[i])
  {
    var p := Pos(es, e.slice, e.len);
    assert i < p - 1 ==> Less(es[i], es[p - 1]);
    assert p < i ==> Less(es[p], es[i]);
  }

  lemma NotThere<P>(es: seq<Entry<P>>, s: nat, l: nat, x: Entry<P>)
    requires Ascending(es) && !Match(es, s, l) && x in es
    ensures !At(x, s, l)
  {
    if At(x, s, l) {
      var i :| 0 <= i < |es| && es[i] == x;
      PosUnique(es, s, l, i);
    }
  }

  /** Cutting an ordered leaf where the slice changes. */
  lemma CutKeeps<P>(es: seq<Entry<P>>, m: nat, lo: nat, hi: nat)
    requires EntriesOk(es, lo, hi) && 0 < m < |es| && es[m - 1].slice < es[m].slice
    ensures EntriesOk(es[..m], lo, es[m].slice) && EntriesOk(es[m..], es[m].slice, hi)
    ensures lo < es[m].slice < hi
  {
    assert Fits(es[m - 1], lo, hi) && Fits(es[m], lo, hi);
    forall i | 0 <= i < m
      ensures Fits(es[..m][i], lo, es[m].slice)
    {
      assert Fits(es[i], lo, hi) && (i < m - 1 ==> Less(es[i], es[m - 1]));
    }
    forall i | 0 <= i < |es| - m
      ensures Fits(es[m..][i], es[m].slice, hi)
    {
      assert Fits(es[m + i], lo, hi) && (i > 0 ==> Less(es[m], es[m + i]));
    }
  }

  lemma PutCut<T>(s: seq<T>, p: nat, x: T, m: nat)
    requires p <= |s| && m <= |s|
    ensures m <= p ==> Put(s, p, x)[..m] == s[..m] && Put(s, p, x)[m..] == s[m..p] + [x] + s[p..]
    ensures p <= m ==> Put(s, p, x)[..m + 1] == s[..p] + [x] + s[p..m] && Put(s, p, x)[m + 1..] == s[m..]
  {
  }

  lemma PutPrefix<T>(s: seq<T>, p: nat, x: T, m: nat)
    requires p <= m <= |s|
    ensures Put(s[..m], p, x) == Put(s, p, x)[..m + 1]
  {
  }

  function CutAt<P>(minKey: nat, all: seq<Entry<P>>, m: nat): Grown<P>
    requires m < |all|
  {
    Two(Leaf(minKey, all[..m]), all[m].slice, Leaf(all[m].slice, all[m..]))
  }

  lemma SplitRight<P>(minKey: nat, es: seq<Entry<P>>, e: Entry<P>, sp: nat)
    requires Tidy(es) && |es| == N && 0 < sp < N && sp == SplitPoint(es) && GoesRight(es, sp, e)
    ensures LeafSplit(minKey, es, e) == CutAt(minKey, Put(es, Pos(es, e.slice, e.len), e), sp)
  {
    var p := Pos(es, e.slice, e.len);
    PutCut(es, p, e, sp);
    var all := Put(es, p, e);
    assert all[sp] == all[sp..][0];
  }

  lemma SplitLeft<P>(minKey: nat, es: seq<Entry<P>>, e: Entry<P>, sp: nat)
    requires Tidy(es) && |es| == N && 0 < sp < N && sp == SplitPoint(es) && !GoesRight(es, sp, e) && Pos(es, e.slice, e.len) <= sp
    ensures LeafSplit(minKey, es, e) == CutAt(minKey, Put(es, Pos(es, e.slice, e.len), e), sp + 1)
  {
    var p := Pos(es, e.slice, e.len);
    PutCut(es, p, e, sp);
    var all := Put(es, p, e);
    assert all[sp + 1] == all[sp + 1..][0] == es[sp];
  }

  /** Both ways of splitting are the new leaf contents, cut in two. */
  /** The split is a cut of the leaf with e put in, at a place where the slice changes. */
  ghost predicate CutsAt<P>(minKey: nat, es: seq<Entry<P>>, e: Entry<P>, m: nat)
    requires Tidy(es) && |es| == N
  {
    var all := Put(es, Pos(es, e.slice, e.len), e);
    0 < m <= N && all[m - 1].slice < all[m].slice && LeafSplit(minKey, es, e) == CutAt(minKey, all, m)
  }

  lemma SplitIsCut<P>(minKey: nat, es: seq<Entry<P>>, e: Entry<P>) returns (m: nat)
    requires Tidy(es) && |es| == N && !Match(es, e.slice, e.len)
    ensures CutsAt(minKey, es, e, m)
  {
    var sp := SplitPoint(es);
    SplitInside(es);
    if GoesRight(es, sp, e) {
      m := sp;
      CutRight(es, sp, e);
      SplitRight(minKey, es, e, sp);
    } else {
      StaysLeft(es, sp, e);
      m := sp + 1;
      CutLeft(es, sp, e);
      SplitLeft(minKey, es, e, sp);
    }
  }

  lemma CutRight<P>(es: seq<Entry<P>>, sp: nat, e: Entry<P>)
    requires Ascending(es) && 0 < sp < |es| && es[sp - 1].slice < es[sp].slice && GoesRight(es, sp, e)
    ensures
      var all := Put(es, Pos(es, e.slice, e.len), e);
      all[sp - 1].slice < all[sp].slice
  {
    var p := Pos(es, e.slice, e.len);
    assert sp < p || Before(es[sp - 1].slice, es[sp - 1].len, e.slice, e.len);
  }

  lemma CutLeft<P>(es: seq<Entry<P>>, sp: nat, e: Entry<P>)
    requires Ascending(es) && 0 < sp < |es| && es[sp - 1].slice < es[sp].slice && !GoesRight(es, sp, e)
    requires Pos(es, e.slice, e.len) <= sp
    ensures
      var all := Put(es, Pos(es, e.slice, e.len), e);
      all[sp].slice < all[sp + 1].slice
  {
    var p := Pos(es, e.slice, e.len);
    if p == sp {
      assert e.slice == es[sp - 1].slice;
    }
  }

  lemma LeafPutOk<P>(t: Node<P>, h: nat, lo: nat, hi: nat, root: bool, e: Entry<P>, last: bool)
    requires WF(t, h, lo, hi, root) && t.Leaf? && Fits(e, lo, hi) && Tidy(t.entries)
    ensures GrownOk(LeafPut(t, e, last), h, lo, hi, root)
  {
    var es, p := t.entries, Pos(t.entries, e.slice, e.len);
    if Match(es, e.slice, e.len) {
      ReplaceKeeps(es, p, e, lo, hi);
    } else if |es| < N {
      PutKeeps(es, e, lo, hi);
    } else if last && es[N - 1].slice < e.slice {
      AllBelow(es, e.slice, lo, hi);
    } else {
      LeafSplitOk(es, e, lo, hi);
    }
  }

  lemma AllBelow<P>(es: seq<Entry<P>>, s: nat, lo: nat, hi: nat)
    requires EntriesOk(es, lo, hi) && es != [] && es[|es| - 1].slice < s
    ensures EntriesOk(es, lo, s) && lo < s
  {
    var n := |es| - 1;
    assert Fits(es[n], lo, hi);
    forall i | 0 <= i < |es|
      ensures Fits(es[i], lo, s)
    {
      assert Fits(es[i], lo, hi) && (i < n ==> Less(es[i], es[n]));
    }
  }

  lemma LeafSplitOk<P>(es: seq<Entry<P>>, e: Entry<P>, lo: nat, hi: nat)
    requires EntriesOk(es, lo, hi) && |es| == N && Tidy(es) && !Match(es, e.slice, e.len) && Fits(e, lo, hi)
    ensures LeafSplit(lo, es, e).Two? && GrownOk(LeafSplit(lo, es, e), 0, lo, hi, false)
  {
    PutKeeps(es, e, lo, hi);
    var m := SplitIsCut(lo, es, e);
    CutAtOk(Put(es, Pos(es, e.slice, e.len), e), m, lo, hi);
  }

  lemma CutAtOk<P>(all: seq<Entry<P>>, m: nat, lo: nat, hi: nat)
    requires EntriesOk(all, lo, hi) && |all| == N + 1 && 0 < m <= N && all[m - 1].slice < all[m].slice
    ensures GrownOk(CutAt(lo, all, m), 0, lo, hi, false)
  {
    CutKeeps(all, m, lo, hi);
  }

  lemma ReplaceKeeps<P>(es: seq<Entry<P>>, p: nat, e: Entry<P>, lo: nat, hi: nat)
    requires EntriesOk(es, lo, hi) && p < |es| && At(es[p], e.slice, e.len)
    ensures EntriesOk(es[p := e], lo, hi)
  {
    var es' := es[p := e];
    forall i, j | 0 <= i < j < |es'|
      ensures Less(es'[i], es'[j])
    {
      assert Less(es[i], es[j]);
    }
    assert Fits(es[p], lo, hi);
  }

  lemma LeafPutHolds<P>(t: Node<P>, e: Entry<P>, last: bool, x: Entry<P>)
    requires t.Leaf? && |t.entries| <= N && Tidy(t.entries)
    ensures InGrown(x, LeafPut(t, e, last)) <==> Holds(x, e, In(x, t))
  {
    var es, p := t.entries, Pos(t.entries, e.slice, e.len);
    if Match(es, e.slice, e.len) {
      ReplaceHolds(es, p, e, x);
    } else {
      PutHolds(es, e, x);
      if |es| == N && !(last && es[N - 1].slice < e.slice) {
        LeafSplitHolds(t.minKey, es, e, x);
      }
    }
  }

  lemma LeafSplitHolds<P>(minKey: nat, es: seq<Entry<P>>, e: Entry<P>, x: Entry<P>)
    requires |es| == N && Tidy(es) && !Match(es, e.slice, e.len)
    ensures InGrown(x, LeafSplit(minKey, es, e)) <==> x in Put(es, Pos(es, e.slice, e.len), e)
  {
    var m := SplitIsCut(minKey, es, e);
    var all := Put(es, Pos(es, e.slice, e.len), e);
    InTwoLeaves(minKey, all, m, x);
  }

  lemma InTwoLeaves<P>(minKey: nat, all: seq<Entry<P>>, m: nat, x: Entry<P>)
    requires 0 < m < |all|
    ensures InGrown(x, CutAt(minKey, all, m)) <==> x in all
  {
    InCut(all, m, x);
  }

  lemma PutHolds<P>(es: seq<Entry<P>>, e: Entry<P>, x: Entry<P>)
    requires Ascending(es) && !Match(es, e.slice, e.len)
    ensures x in Put(es, Pos(es, e.slice, e.len), e) <==> Holds(x, e, x in es)
    ensures x in es ==> !At(x, e.slice, e.len)
  {
    var p := Pos(es, e.slice, e.len);
    if x in es {
      NotThere(es, e.slice, e.len, x);
    }
    InCut(es, p, x);
  }

  lemma InCut<T>(s: seq<T>, m: nat, x: T)
    requires m <= |s|
    ensures x in s <==> x in s[..m] || x in s[m..]
  {
    assert s == s[..m] + s[m..];
  }

  lemma ReplaceHolds<P>(es: seq<Entry<P>>, p: nat, e: Entry<P>, x: Entry<P>)
    requires Ascending(es) && p < |es| && At(es[p], e.slice, e.len)
    ensures x in es[p := e] <==> Holds(x, e, x in es)
  {
    if x in es {
      var i :| 0 <= i < |es| && es[i] == x;
      assert i < p ==> Less(es[i], es[p]);
      assert p < i ==> Less(es[p], es[i]);
      assert i != p ==> es[p := e][i] == x;
    }
    if x == e {
      assert es[p := e][p] == x;
    } else if x in es[p := e] {
      var i :| 0 <= i < |es| && es[p := e][i] == x;
      assert i < p ==> Less(es[i], es[p]);
      assert p < i ==> Less(es[p], es[i]);
    }
  }

  // ------------------------------------------------------------------ correctness of the internal nodes

  /** The children of a node and the bounds between them, of any number. */
  ghost predicate KidsOk<P>(keys: seq<nat>, kids: seq<Node<P>>, h: nat, lo: nat, hi: nat) {
    && |kids| == |keys| + 1 && Climbs(Seps(keys, lo, hi))
    && forall i {:trigger KidOk(kids[i], h, Seps(keys, lo, hi), i)} :: 0 <= i < |kids| ==> KidOk(kids[i], h, Seps(keys, lo, hi), i)
  }

  lemma ReplaceKid<P>(keys: seq<nat>, kids: seq<Node<P>>, h: nat, lo: nat, hi: nat, c: nat, kid: Node<P>)
    requires KidsOk(keys, kids, h, lo, hi) && c < |kids| && KidOk(kid, h, Seps(keys, lo, hi), c)
    ensures KidsOk(keys, kids[c := kid], h, lo, hi)
  {
  }

  lemma SpliceSeps(seps: seq<nat>, c: nat, mk: nat)
    requires Climbs(seps) && c + 1 < |seps| && seps[c] < mk < seps[c + 1]
    ensures Climbs(Put(seps, c + 1, mk))
  {
    var seps' := Put(seps, c + 1, mk);
    forall i, j | 0 <= i < j < |seps'|
      ensures seps'[i] < seps'[j]
    {
      assert i < c ==> seps[i] < seps[c];
      assert j > c + 2 ==> seps[c + 1] < seps[j - 1];
    }
  }

  lemma SpliceKids<P>(keys: seq<nat>, kids: seq<Node<P>>, h: nat, lo: nat, hi: nat, c: nat, l: Node<P>, mk: nat, r: Node<P>)
    requires KidsOk(keys, kids, h, lo, hi) && c < |kids| && h > 0
    requires
      var seps := Seps(keys, lo, hi);
      seps[c] < mk < seps[c + 1] && WF(l, h - 1, seps[c], mk, false) && WF(r, h - 1, mk, seps[c + 1], false)
    ensures KidsOk(Put(keys, c, mk), Put(kids[c := l], c + 1, r), h, lo, hi)
  {
    var seps, keys', kids' := Seps(keys, lo, hi), Put(keys, c, mk), Put(kids[c := l], c + 1, r);
    var seps' := Seps(keys', lo, hi);
    assert seps' == Put(seps, c + 1, mk);
    SpliceSeps(seps, c, mk);
    forall i | 0 <= i < |kids'|
      ensures KidOk(kids'[i], h, seps', i)
    {
      if i < c {
        assert KidOk(kids[i], h, seps, i);
      } else if i > c + 1 {
        assert KidOk(kids[i - 1], h, seps, i - 1);
      }
    }
  }

  lemma {:induction false} CutKids<P>(keys: seq<nat>, kids: seq<Node<P>>, h: nat, lo: nat, hi: nat, m: nat)
    requires KidsOk(keys, kids, h, lo, hi) && m < |keys|
    ensures lo < keys[m] < hi
    ensures KidsOk(keys[..m], kids[..m + 1], h, lo, keys[m])
    ensures KidsOk(keys[m + 1..], kids[m + 1..], h, keys[m], hi)
  {
    var seps := Seps(keys, lo, hi);
    assert seps[0] < seps[m + 1] < seps[|keys| + 1];
    assert Seps(keys[..m], lo, keys[m]) == seps[..m + 2];
    assert Seps(keys[m + 1..], keys[m], hi) == seps[m + 1..];
    var left, right := kids[..m + 1], kids[m + 1..];
    forall i | 0 <= i < |left|
      ensures KidOk(left[i], h, seps[..m + 2], i)
    {
      assert KidOk(kids[i], h, seps, i);
    }
    forall i | 0 <= i < |right|
      ensures KidOk(right[i], h, seps[m + 1..], i)
    {
      assert KidOk(kids[m + 1 + i], h, seps, m + 1 + i);
    }
  }

  /** The three ways of splitting an internal node are one: the keys and children with the
      new ones in place, cut at the same key. */
  /** A full node with mk and r put in, cut in the middle. */
  function CutInMiddle<P>(keys: seq<nat>, kids: seq<Node<P>>): Grown<P>
    requires |keys| > MIN_KEYS && |kids| > MIN_KEYS
  {
    Two(Internal(keys[..MIN_KEYS], kids[..MIN_KEYS + 1]), keys[MIN_KEYS], Internal(keys[MIN_KEYS + 1..], kids[MIN_KEYS + 1..]))
  }

  lemma AddLeftIsCut<P>(keys: seq<nat>, kids: seq<Node<P>>, c: nat, l: Node<P>, mk: nat, r: Node<P>)
    requires |kids| == |keys| + 1 && c < MIN_KEYS && |keys| == N
    ensures AddChild(keys, kids, c, l, mk, r) == CutInMiddle(Put(keys, c, mk), Put(kids[c := l], c + 1, r))
  {
    PutPrefix(keys, c, mk, MIN_KEYS - 1);
    PutPrefix(kids[c := l], c + 1, r, MIN_KEYS);
    PutCut(kids[c := l], c + 1, r, MIN_KEYS);
    PutCut(keys, c, mk, MIN_KEYS);
  }

  lemma AddRightIsCut<P>(keys: seq<nat>, kids: seq<Node<P>>, c: nat, l: Node<P>, mk: nat, r: Node<P>)
    requires |kids| == |keys| + 1 && MIN_KEYS <= c <= |keys| == N
    ensures AddChild(keys, kids, c, l, mk, r) == CutInMiddle(Put(keys, c, mk), Put(kids[c := l], c + 1, r))
  {
    PutCut(keys, c, mk, MIN_KEYS);
    PutCut(kids[c := l], c + 1, r, MIN_KEYS + 1);
    if c > MIN_KEYS {
      PutCut(keys, c, mk, MIN_KEYS + 1);
    } else {
      assert [] + [r] + kids[c := l][c + 1..] == [r] + kids[c := l][c + 1..];
    }
  }

  lemma AddChildIsCut<P>(keys: seq<nat>, kids: seq<Node<P>>, c: nat, l: Node<P>, mk: nat, r: Node<P>)
    requires |kids| == |keys| + 1 && c <= |keys| == N
    ensures AddChild(keys, kids, c, l, mk, r) == CutInMiddle(Put(keys, c, mk), Put(kids[c := l], c + 1, r))
  {
    if c < MIN_KEYS {
      AddLeftIsCut(keys, kids, c, l, mk, r);
    } else {
      AddRightIsCut(keys, kids, c, l, mk, r);
    }
  }

  lemma {:induction false} WFShaped<P>(t: Node<P>, h: nat, lo: nat, hi: nat, root: bool)
    requires WF(t, h, lo, hi, root)
    ensures Shaped(t)
    decreases t
  {
    match t
    case Leaf(_, es) =>
      forall i | 0 <= i < |es|
        ensures es[i].len <= 9
      {
        assert Fits(es[i], lo, hi);
      }
    case Internal(keys, kids) =>
      forall i | 0 <= i < |kids|
        ensures Shaped(kids[i])
      {
        var seps := Seps(keys, lo, hi);
        assert KidOk(kids[i], h, seps, i);
        WFShaped(kids[i], h - 1, seps[i], seps[i + 1], false);
      }
  }

  lemma {:induction false} AddChildOk<P>(t: Node<P>, h: nat, lo: nat, hi: nat, root: bool, c: nat, l: Node<P>, mk: nat, r: Node<P>)
    requires WF(t, h, lo, hi, root) && t.Internal? && c < |t.kids|
    requires
      var seps := Seps(t.keys, lo, hi);
      GrownOk(Two(l, mk, r), h - 1, seps[c], seps[c + 1], false)
    ensures GrownOk(AddChild(t.keys, t.kids, c, l, mk, r), h, lo, hi, root)
  {
    SpliceKids(t.keys, t.kids, h, lo, hi, c, l, mk, r);
    if |t.keys| == N {
      AddChildIsCut(t.keys, t.kids, c, l, mk, r);
      CutKids(Put(t.keys, c, mk), Put(t.kids[c := l], c + 1, r), h, lo, hi, MIN_KEYS);
    }
  }

  /** Inserting keeps the invariant, through every split. */
  lemma {:induction false} InsertKeeps<P>(t: Node<P>, h: nat, lo: nat, hi: nat, root: bool, e: Entry<P>, last: bool)
    requires WF(t, h, lo, hi, root) && Shaped(t) && Fits(e, lo, hi)
    ensures GrownOk(Insert(t, e, last), h, lo, hi, root)
    decreases t
  {
    if t.Leaf? {
      LeafPutOk(t, h, lo, hi, root, e, last);
    } else {
      var c, seps := ChildIdx(t.keys, e.slice), Seps(t.keys, lo, hi);
      CoversSlice(t.keys, lo, hi, e.slice, c);
      assert KidOk(t.kids[c], h, seps, c);
      InsertKeeps(t.kids[c], h - 1, seps[c], seps[c + 1], false, e, last && c == |t.keys|);
      match Insert(t.kids[c], e, last && c == |t.keys|)
      case One(kid) => ReplaceKid(t.keys, t.kids, h, lo, hi, c, kid);
      case Two(l, mk, r) => AddChildOk(t, h, lo, hi, root, c, l, mk, r);
    }
  }

  ghost predicate InKids<P>(x: Entry<P>, kids: seq<Node<P>>) {
    exists i :: 0 <= i < |kids| && In(x, kids[i])
  }

  ghost predicate InOthers<P>(x: Entry<P>, kids: seq<Node<P>>, c: nat) {
    exists i :: 0 <= i < |kids| && i != c && In(x, kids[i])
  }

  lemma {:induction false} InReplaced<P>(kids: seq<Node<P>>, c: nat, kid: Node<P>, x: Entry<P>)
    requires c < |kids|
    ensures InKids(x, kids[c := kid]) <==> In(x, kid) || InOthers(x, kids, c)
  {
    if In(x, kid) {
      assert In(x, kids[c := kid][c]);
    }
    if InOthers(x, kids, c) {
      var i :| 0 <= i < |kids| && i != c && In(x, kids[i]);
      assert In(x, kids[c := kid][i]);
    }
  }

  lemma InPut<P>(kids: seq<Node<P>>, p: nat, kid: Node<P>, x: Entry<P>)
    requires p <= |kids|
    ensures InKids(x, Put(kids, p, kid)) <==> In(x, kid) || InKids(x, kids)
  {
    var all := Put(kids, p, kid);
    if InKids(x, all) {
      var i :| 0 <= i < |all| && In(x, all[i]);
      assert i == p || all[i] == kids[if i < p then i else i - 1];
    }
    if In(x, kid) {
      assert In(x, all[p]);
    }
    if InKids(x, kids) {
      var i :| 0 <= i < |kids| && In(x, kids[i]);
      assert all[if i < p then i else i + 1] == kids[i];
    }
  }

  lemma InCutKids<P>(kids: seq<Node<P>>, m: nat, x: Entry<P>)
    requires m <= |kids|
    ensures InKids(x, kids) <==> InKids(x, kids[..m]) || InKids(x, kids[m..])
  {
    if InKids(x, kids) {
      var i :| 0 <= i < |kids| && In(x, kids[i]);
      assert i < m ==> In(x, kids[..m][i]);
      assert i >= m ==> In(x, kids[m..][i - m]);
    }
  }

  lemma {:induction false} AddChildHolds<P>(keys: seq<nat>, kids: seq<Node<P>>, c: nat, l: Node<P>, mk: nat, r: Node<P>, x: Entry<P>)
    requires |kids| == |keys| + 1 && c <= |keys| <= N
    ensures InGrown(x, AddChild(keys, kids, c, l, mk, r)) <==> In(x, l) || In(x, r) || InOthers(x, kids, c)
  {
    var all := Put(kids[c := l], c + 1, r);
    InReplaced(kids, c, l, x);
    InPut(kids[c := l], c + 1, r, x);
    if |keys| == N {
      AddChildIsCut(keys, kids, c, l, mk, r);
      InCutKids(all, MIN_KEYS + 1, x);
    }
  }

  /** Inserting changes the entries of a layer exactly as it should. */
  lemma {:induction false} InsertHolds<P>(t: Node<P>, h: nat, lo: nat, hi: nat, root: bool, e: Entry<P>, last: bool, x: Entry<P>)
    requires WF(t, h, lo, hi, root) && Shaped(t) && Fits(e, lo, hi)
    ensures InGrown(x, Insert(t, e, last)) <==> Holds(x, e, In(x, t))
    decreases t
  {
    if t.Leaf? {
      LeafPutHolds(t, e, last, x);
    } else {
      var c, seps := ChildIdx(t.keys, e.slice), Seps(t.keys, lo, hi);
      CoversSlice(t.keys, lo, hi, e.slice, c);
      assert KidOk(t.kids[c], h, seps, c);
      InsertHolds(t.kids[c], h - 1, seps[c], seps[c + 1], false, e, last && c == |t.keys|, x);
      OthersDiffer(t, h, lo, hi, root, c, e, x);
      match Insert(t.kids[c], e, last && c == |t.keys|)
      case One(kid) => InReplaced(t.kids, c, kid, x);
      case Two(l, mk, r) => AddChildHolds(t.keys, t.kids, c, l, mk, r, x);
    }
  }

  /** Entries with the slice of e are all in the child that covers it. */
  lemma OthersDiffer<P>(t: Node<P>, h: nat, lo: nat, hi: nat, root: bool, c: nat, e: Entry<P>, x: Entry<P>)
    requires WF(t, h, lo, hi, root) && t.Internal? && lo <= e.slice < hi && c == ChildIdx(t.keys, e.slice)
    ensures InOthers(x, t.kids, c) ==> x.slice != e.slice
    ensures In(x, t) <==> In(x, t.kids[c]) || InOthers(x, t.kids, c)
  {
    if InOthers(x, t.kids, c) {
      var i :| 0 <= i < |t.kids| && i != c && In(x, t.kids[i]);
      var seps := Seps(t.keys, lo, hi);
      assert KidOk(t.kids[i], h, seps, i);
      InRange(t.kids[i], h - 1, seps[i], seps[i + 1], false, x);
      CoversSlice(t.keys, lo, hi, e.slice, i);
    }
  }

  /** The height of a well-formed tree is determined by the tree. */
  lemma {:induction false} HeightIs<P>(t: Node<P>, h: nat, lo: nat, hi: nat, root: bool)
    requires WF(t, h, lo, hi, root)
    ensures Height(t) == h
    decreases t
  {
    if t.Internal? {
      var seps := Seps(t.keys, lo, hi);
      assert KidOk(t.kids[0], h, seps, 0);
      HeightIs(t.kids[0], h - 1, seps[0], seps[1], false);
    }
  }

  /** Inserting into a whole layer: the result is a layer, with e in the place of any
      entry of the same slice and length, and every other entry as before. */
  lemma InsertRootCorrect<P>(t: Node<P>, e: Entry<P>)
    requires Root(t) && Fits(e, 0, TOP)
    ensures Shaped(t) && Root(InsertRoot(t, e))
    ensures forall x :: In(x, InsertRoot(t, e)) <==> Holds(x, e, In(x, t))
  {
    var h := Height(t);
    WFShaped(t, h, 0, TOP, true);
    InsertKeeps(t, h, 0, TOP, true, e, true);
    NewRootOk(Insert(t, e, true), h);
    forall x
      ensures In(x, InsertRoot(t, e)) <==> Holds(x, e, In(x, t))
    {
      InsertHolds(t, h, 0, TOP, true, e, true, x);
      InNewRoot(Insert(t, e, true), x);
    }
  }

  lemma NewRootOk<P>(g: Grown<P>, h: nat)
    requires GrownOk(g, h, 0, TOP, true)
    ensures Root(if g.One? then g.node else Internal([g.key], [g.left, g.right]))
  {
    match g
    case One(node) => HeightIs(node, h, 0, TOP, true);
    case Two(l, mk, r) =>
      assert Seps([mk], 0, TOP) == [0, mk, TOP];
      HeightIs(l, h, 0, mk, false);
      forall i | 0 <= i < 2
        ensures KidOk([l, r][i], h + 1, Seps([mk], 0, TOP), i)
      {}
  }

  lemma InNewRoot<P>(g: Grown<P>, x: Entry<P>)
    ensures g.Two? ==> (In(x, Internal([g.key], [g.left, g.right])) <==> InGrown(x, g))
  {
    if g.Two? {
      var t := Internal([g.key], [g.left, g.right]);
      assert t.kids[0] == g.left && t.kids[1] == g.right;
    }
  }
}
