/** The row of leaves of one layer, which the prev_ and next_ pointers link: what inserting
    and removing do to it. */
module BTreeRow {
  import opened Common
  import opened BTree
  import opened BTreeInsert
  import opened BTreeRemove

  /** The leaves from left to right. */
  function Leaves<P>(t: Node<P>): seq<Node<P>>
    decreases t, 0
  {
    match t
    case Leaf(_, _) => [t]
    case Internal(_, kids) => LeavesOf(kids)
  }

  function LeavesOf<P>(kids: seq<Node<P>>): seq<Node<P>>
    decreases kids, 1
  {
    if kids == [] then [] else Leaves(kids[0]) + LeavesOf(kids[1..])
  }

  lemma {:induction false} LeavesJoin<P>(a: seq<Node<P>>, b: seq<Node<P>>)
    ensures LeavesOf(a + b) == LeavesOf(a) + LeavesOf(b)
    decreases |a|
  {
    if a == [] {
      assert a + b == b;
    } else {
      LeavesJoin(a[1..], b);
      assert (a + b)[1..] == a[1..] + b;
    }
  }

  lemma LeavesOne<P>(t: Node<P>)
    ensures LeavesOf([t]) == Leaves(t)
  {
    assert [t][1..] == [];
    assert Leaves(t) + [] == Leaves(t);
  }

  lemma LeavesCut<P>(kids: seq<Node<P>>, c: nat)
    requires c < |kids|
    ensures LeavesOf(kids) == LeavesOf(kids[..c]) + Leaves(kids[c]) + LeavesOf(kids[c + 1..])
  {
    var a, b := kids[..c], kids[c..];
    assert kids == a + b && b[1..] == kids[c + 1..];
    LeavesJoin(a, b);
    Assoc(LeavesOf(a), Leaves(b[0]), LeavesOf(b[1..]));
  }

  lemma Assoc<T>(a: seq<T>, b: seq<T>, c: seq<T>)
    ensures a + (b + c) == a + b + c
  {}

  lemma LeavesAround<P>(x: seq<Node<P>>, mid: seq<Node<P>>, y: seq<Node<P>>)
    ensures LeavesOf(x + mid + y) == LeavesOf(x) + LeavesOf(mid) + LeavesOf(y)
  {
    LeavesJoin(x, mid);
    LeavesJoin(x + mid, y);
  }

  /** The place in the row of the leaf that a descent for slice s ends in. */
  function Start<P>(t: Node<P>, s: nat): nat {
    match t
    case Leaf(_, _) => 0
    case Internal(keys, kids) =>
      var c := ChildIdx(keys, s);
      if c < |kids| then |LeavesOf(kids[..c])| + Start(kids[c], s) else 0
  }

  /** The descent ends in a leaf whose minimum key is not above the slice. */
  lemma {:induction false} StartLeaf<P>(t: Node<P>, h: nat, lo: nat, hi: nat, root: bool, s: nat)
    requires WF(t, h, lo, hi, root) && lo <= s < hi
    ensures Start(t, s) < |Leaves(t)| && Leaves(t)[Start(t, s)].Leaf? && Leaves(t)[Start(t, s)].minKey <= s
    decreases t
  {
    if t.Internal? {
      var c, seps := ChildIdx(t.keys, s), Seps(t.keys, lo, hi);
      CoversSlice(t.keys, lo, hi, s, c);
      assert KidOk(t.kids[c], h, seps, c);
      StartLeaf(t.kids[c], h - 1, seps[c], seps[c + 1], false, s);
      LeavesCut(t.kids, c);
      assert Leaves(t)[Start(t, s)] == Leaves(t.kids[c])[Start(t.kids[c], s)];
    }
  }

  lemma {:induction false} SomeLeaf<P>(t: Node<P>, h: nat, lo: nat, hi: nat, root: bool)
    requires WF(t, h, lo, hi, root)
    ensures Leaves(t) != []
    decreases t
  {
    if t.Internal? {
      var seps := Seps(t.keys, lo, hi);
      assert KidOk(t.kids[0], h, seps, 0);
      SomeLeaf(t.kids[0], h - 1, seps[0], seps[1], false);
    }
  }

  // ------------------------------------------------------------------ inserting

  function GrownLeaves<P>(g: Grown<P>): seq<Node<P>> {
    match g
    case One(node) => Leaves(node)
    case Two(l, _, r) => Leaves(l) + Leaves(r)
  }

  /** However a node splits, its leaves stay in line. */
  lemma {:induction false} AddChildLeaves<P>(keys: seq<nat>, kids: seq<Node<P>>, c: nat, l: Node<P>, mk: nat, r: Node<P>)
    requires |kids| == |keys| + 1 && c <= |keys| <= N
    ensures
      GrownLeaves(AddChild(keys, kids, c, l, mk, r)) ==
      LeavesOf(kids[..c]) + (Leaves(l) + Leaves(r)) + LeavesOf(kids[c + 1..])
  {
    var all := Put(kids[c := l], c + 1, r);
    assert all == kids[..c] + [l, r] + kids[c + 1..];
    LeavesAround(kids[..c], [l, r], kids[c + 1..]);
    LeavesTwo(l, r);
    if |keys| == N {
      AddChildIsCut(keys, kids, c, l, mk, r);
      CutLeaves(all, MIN_KEYS + 1);
    }
  }

  lemma LeavesTwo<P>(l: Node<P>, r: Node<P>)
    ensures LeavesOf([l, r]) == Leaves(l) + Leaves(r)
  {
    assert [l, r] == [l] + [r];
    LeavesJoin([l], [r]);
    LeavesOne(l);
    LeavesOne(r);
  }

  lemma CutLeaves<P>(kids: seq<Node<P>>, m: nat)
    requires m <= |kids|
    ensures LeavesOf(kids[..m]) + LeavesOf(kids[m..]) == LeavesOf(kids)
  {
    assert kids == kids[..m] + kids[m..];
    LeavesJoin(kids[..m], kids[m..]);
  }

  /** A row with n of its members, from place p on, replaced by new ones. */
  function Spliced<T>(row: seq<T>, p: nat, n: nat, news: seq<T>): seq<T>
    requires p + n <= |row|
  {
    row[..p] + news + row[p + n..]
  }

  lemma SplicedIn<T>(x: seq<T>, row: seq<T>, y: seq<T>, p: nat, n: nat, news: seq<T>)
    requires p + n <= |row|
    ensures Spliced(x + row + y, |x| + p, n, news) == x + Spliced(row, p, n, news) + y
  {
    var all := x + row + y;
    assert all[..|x| + p] == x + row[..p] && all[|x| + p + n..] == row[p + n..] + y;
  }

  /** Inserting replaces, in the row, the leaf the descent ends in by the one or two leaves
      it becomes, and nothing else.  The flag passed down says that this leaf has no next. */
  lemma {:induction false} InsertRow<P>(t: Node<P>, h: nat, lo: nat, hi: nat, root: bool, e: Entry<P>, last: bool) returns (news: seq<Node<P>>)
    requires WF(t, h, lo, hi, root) && lo <= e.slice < hi && Shaped(t)
    ensures
      var row, i := Leaves(t), Start(t, e.slice);
      && i < |row| && row[i].Leaf? && |row[i].entries| <= N && Tidy(row[i].entries)
      && news == GrownLeaves(LeafPut(row[i], e, last && i == |row| - 1))
      && GrownLeaves(Insert(t, e, last)) == Spliced(row, i, 1, news)
    decreases t
  {
    if t.Leaf? {
      news := GrownLeaves(LeafPut(t, e, last));
      assert [] + news + [] == news;
    } else {
      var c, seps := ChildIdx(t.keys, e.slice), Seps(t.keys, lo, hi);
      CoversSlice(t.keys, lo, hi, e.slice, c);
      assert KidOk(t.kids[c], h, seps, c);
      news := InsertRow(t.kids[c], h - 1, seps[c], seps[c + 1], false, e, last && c == |t.keys|);
      NoneBehind(t, h, lo, hi, root, c);
      InsertRowUp(t, c, e, last, news);
    }
  }

  lemma NoneBehind<P>(t: Node<P>, h: nat, lo: nat, hi: nat, root: bool, c: nat)
    requires WF(t, h, lo, hi, root) && t.Internal? && c < |t.kids|
    ensures LeavesOf(t.kids[c + 1..]) == [] <==> c == |t.keys|
  {
    if c < |t.keys| {
      var seps := Seps(t.keys, lo, hi);
      assert KidOk(t.kids[c + 1], h, seps, c + 1);
      SomeLeaf(t.kids[c + 1], h - 1, seps[c + 1], seps[c + 2], false);
    }
  }

  /** The leaves of a node after an insert into child c. */
  lemma InsertLeaves<P>(t: Node<P>, c: nat, e: Entry<P>, last: bool)
    requires t.Internal? && Shaped(t) && c == ChildIdx(t.keys, e.slice)
    ensures
      var g := Insert(t.kids[c], e, last && c == |t.keys|);
      GrownLeaves(Insert(t, e, last)) == LeavesOf(t.kids[..c]) + GrownLeaves(g) + LeavesOf(t.kids[c + 1..])
  {
    match Insert(t.kids[c], e, last && c == |t.keys|)
    case One(kid) =>
      var kids := t.kids[c := kid];
      LeavesCut(kids, c);
      assert kids[..c] == t.kids[..c] && kids[c + 1..] == t.kids[c + 1..];
    case Two(l, mk, r) => AddChildLeaves(t.keys, t.kids, c, l, mk, r);
  }

  lemma InsertRowUp<P>(t: Node<P>, c: nat, e: Entry<P>, last: bool, news: seq<Node<P>>)
    requires t.Internal? && Shaped(t) && c == ChildIdx(t.keys, e.slice)
    requires LeavesOf(t.kids[c + 1..]) == [] <==> c == |t.keys|
    requires
      var row, i := Leaves(t.kids[c]), Start(t.kids[c], e.slice);
      i < |row| && GrownLeaves(Insert(t.kids[c], e, last && c == |t.keys|)) == Spliced(row, i, 1, news)
    ensures
      var row, i := Leaves(t), Start(t, e.slice);
      && i < |row| && row[i] == Leaves(t.kids[c])[Start(t.kids[c], e.slice)]
      && (i == |row| - 1 <==> c == |t.keys| && Start(t.kids[c], e.slice) == |Leaves(t.kids[c])| - 1)
      && GrownLeaves(Insert(t, e, last)) == Spliced(row, i, 1, news)
  {
    LeavesCut(t.kids, c);
    InsertLeaves(t, c, e, last);
    EditedUp(LeavesOf(t.kids[..c]), Leaves(t.kids[c]), LeavesOf(t.kids[c + 1..]), Start(t.kids[c], e.slice), news,
             Leaves(t), Start(t, e.slice), GrownLeaves(Insert(t, e, last)));
  }

  lemma EditedUp<T>(x: seq<T>, row: seq<T>, y: seq<T>, i: nat, news: seq<T>, all: seq<T>, at: nat, after: seq<T>)
    requires i < |row| && all == x + row + y && at == |x| + i && after == x + Spliced(row, i, 1, news) + y
    ensures at < |all| && all[at] == row[i] && after == Spliced(all, at, 1, news)
    ensures at == |all| - 1 <==> y == [] && i == |row| - 1
  {
    SplicedIn(x, row, y, i, 1, news);
  }

  /** The row after inserting into a whole layer. */
  lemma InsertRootRow<P>(t: Node<P>, e: Entry<P>)
    requires Root(t) && Fits(e, 0, TOP)
    ensures
      var row, i := Leaves(t), Start(t, e.slice);
      && Shaped(t) && i < |row| && row[i].Leaf? && |row[i].entries| <= N && Tidy(row[i].entries)
      && Leaves(InsertRoot(t, e)) == Spliced(row, i, 1, GrownLeaves(LeafPut(row[i], e, i == |row| - 1)))
  {
    WFShaped(t, Height(t), 0, TOP, true);
    var news := InsertRow(t, Height(t), 0, TOP, true, e, true);
    match Insert(t, e, true)
    case One(_) =>
    case Two(l, _, r) => LeavesTwo(l, r);
  }

  // ------------------------------------------------------------------ removing

  function OptLeaves<P>(o: Option<Node<P>>): seq<Node<P>> { if o.Some? then Leaves(o.value) else [] }

  /** The leaves of a node and its siblings after what happened to them; `mine` are those
      of the node before. */
  function ShrunkLeaves<P>(r: Shrunk<P>, mine: seq<Node<P>>, left: Option<Node<P>>, right: Option<Node<P>>): seq<Node<P>> {
    match r
    case Same => OptLeaves(left) + mine + OptLeaves(right)
    case Changed(node) => OptLeaves(left) + Leaves(node) + OptLeaves(right)
    case StoleFromRight(node, sib, _) => OptLeaves(left) + (Leaves(node) + Leaves(sib))
    case MergedWithRight(node) => OptLeaves(left) + Leaves(node)
    case StoleFromLeft(sib, node, _) => Leaves(sib) + Leaves(node) + OptLeaves(right)
    case MergedWithLeft(sib) => Leaves(sib) + OptLeaves(right)
    case Replaced(node) => OptLeaves(left) + Leaves(node) + OptLeaves(right)
  }

  lemma FromRightLeaves<P>(keys: seq<nat>, kids: seq<Node<P>>, left: Option<Node<P>>, right: Node<P>, minKey: nat, maxKey: nat,
                           mine: seq<Node<P>>)
    requires |kids| == |keys| + 1 && |keys| < MIN_KEYS && right.Internal? && |right.kids| == |right.keys| + 1
    requires left.Some? ==> left.value.Internal? && |left.value.kids| == |left.value.keys| + 1
    ensures
      ShrunkLeaves(Rebalance(keys, kids, left, Some(right), minKey, maxKey), mine, left, Some(right)) ==
      OptLeaves(left) + LeavesOf(kids) + Leaves(right)
  {
    var rs := right.kids;
    var x, a, b, c := OptLeaves(left), LeavesOf(kids), Leaves(rs[0]), LeavesOf(rs[1..]);
    Join4(x, a, b, c);
    assert LeavesOf(rs) == b + c;
    if |right.keys| > MIN_KEYS {
      LeavesJoin(kids, [rs[0]]);
      LeavesOne(rs[0]);
    } else {
      LeavesJoin(kids, rs);
    }
  }

  lemma Join4<T>(x: seq<T>, a: seq<T>, b: seq<T>, c: seq<T>)
    ensures x + ((a + b) + c) == x + a + (b + c) && x + (a + (b + c)) == x + a + (b + c)
  {}

  lemma FromLeftLeaves<P>(keys: seq<nat>, kids: seq<Node<P>>, left: Node<P>, minKey: nat, maxKey: nat, mine: seq<Node<P>>)
    requires |kids| == |keys| + 1 && |keys| < MIN_KEYS && left.Internal? && |left.kids| == |left.keys| + 1
    ensures
      ShrunkLeaves(Rebalance(keys, kids, Some(left), None, minKey, maxKey), mine, Some(left), None) == Leaves(left) + LeavesOf(kids)
  {
    var ls, n := left.kids, |left.keys|;
    var a, b, c := LeavesOf(ls[..n]), Leaves(ls[n]), LeavesOf(kids);
    assert ls == ls[..n] + [ls[n]];
    LeavesJoin(ls[..n], [ls[n]]);
    LeavesJoin([ls[n]], kids);
    LeavesOne(ls[n]);
    LeavesJoin(ls, kids);
    assert LeavesOf(ls) == a + b && a + (b + c) == a + b + c;
  }

  /** Stealing, merging and collapsing internal nodes leaves the row as it is. */
  lemma RebalanceLeaves<P>(keys: seq<nat>, kids: seq<Node<P>>, left: Option<Node<P>>, right: Option<Node<P>>, minKey: nat, maxKey: nat,
                           mine: seq<Node<P>>)
    requires |kids| == |keys| + 1
    requires left.Some? ==> left.value.Internal? && |left.value.kids| == |left.value.keys| + 1
    requires right.Some? ==> right.value.Internal? && |right.value.kids| == |right.value.keys| + 1
    ensures
      ShrunkLeaves(Rebalance(keys, kids, left, right, minKey, maxKey), mine, left, right) ==
      OptLeaves(left) + LeavesOf(kids) + OptLeaves(right)
  {
    if |keys| + 1 <= MIN_KEYS {
      if right.Some? {
        FromRightLeaves(keys, kids, left, right.value, minKey, maxKey, mine);
      } else if left.Some? {
        FromLeftLeaves(keys, kids, left.value, minKey, maxKey, mine);
      } else if keys == [] {
        assert kids == [kids[0]];
        LeavesOne(kids[0]);
      }
    }
  }

  /** The children before the left neighbour of child c, and after its right neighbour. */
  function Before2<P>(kids: seq<Node<P>>, c: nat): seq<Node<P>>
    requires c < |kids|
  {
    if c == 0 then [] else kids[..c - 1]
  }

  function After2<P>(kids: seq<Node<P>>, c: nat): seq<Node<P>>
    requires c < |kids|
  {
    if c + 1 == |kids| then [] else kids[c + 2..]
  }

  function OptKid<P>(o: Option<Node<P>>): seq<Node<P>> { if o.Some? then [o.value] else [] }

  lemma OptKidLeaves<P>(o: Option<Node<P>>)
    ensures LeavesOf(OptKid(o)) == OptLeaves(o)
  {
    if o.Some? {
      LeavesOne(o.value);
    }
  }

  /** The children next to and at c, after what happened to them. */
  function ShrunkKids<P>(r: Shrunk<P>, kids: seq<Node<P>>, c: nat): seq<Node<P>>
    requires c < |kids| && !r.Replaced?
  {
    var left, right := OptKid(LeftOf(kids, c)), OptKid(RightOf(kids, c));
    match r
    case Same => left + [kids[c]] + right
    case Changed(node) => left + [node] + right
    case StoleFromRight(node, sib, _) => left + [node, sib]
    case MergedWithRight(node) => left + [node]
    case StoleFromLeft(sib, node, _) => [sib, node] + right
    case MergedWithLeft(sib) => [sib] + right
  }

  lemma ShrunkKidsLeaves<P>(r: Shrunk<P>, kids: seq<Node<P>>, c: nat)
    requires c < |kids| && !r.Replaced?
    ensures LeavesOf(ShrunkKids(r, kids, c)) == ShrunkLeaves(r, Leaves(kids[c]), LeftOf(kids, c), RightOf(kids, c))
  {
    var left, right := LeftOf(kids, c), RightOf(kids, c);
    OptKidLeaves(left);
    OptKidLeaves(right);
    match r
    case Same => Around(left, kids[c], right);
    case Changed(node) => Around(left, node, right);
    case StoleFromRight(node, sib, _) =>
      LeavesTwo(node, sib);
      LeavesJoin(OptKid(left), [node, sib]);
    case MergedWithRight(node) =>
      LeavesOne(node);
      LeavesJoin(OptKid(left), [node]);
    case StoleFromLeft(sib, node, _) =>
      LeavesTwo(sib, node);
      LeavesJoin([sib, node], OptKid(right));
    case MergedWithLeft(sib) =>
      LeavesOne(sib);
      LeavesJoin([sib], OptKid(right));
  }

  lemma Around<P>(left: Option<Node<P>>, t: Node<P>, right: Option<Node<P>>)
    ensures LeavesOf(OptKid(left) + [t] + OptKid(right)) == OptLeaves(left) + Leaves(t) + OptLeaves(right)
  {
    LeavesAround(OptKid(left), [t], OptKid(right));
    LeavesOne(t);
    OptKidLeaves(left);
    OptKidLeaves(right);
  }

  /** A row of nodes after what happened to node i: it, or it and a neighbour, changed, or
      it and a neighbour became one. */
  function KidsAfter<P>(r: Shrunk<P>, row: seq<Node<P>>, i: nat): seq<Node<P>>
    requires i < |row|
  {
    match r
    case Same => row
    case Changed(node) => row[i := node]
    case StoleFromRight(node, sib, _) => if i + 1 < |row| then row[i := node][i + 1 := sib] else row
    case MergedWithRight(node) => if i + 1 < |row| then Drop(row[i := node], i + 1) else row
    case StoleFromLeft(sib, node, _) => if i > 0 then row[i - 1 := sib][i := node] else row
    case MergedWithLeft(sib) => if i > 0 then Drop(row[i - 1 := sib], i) else row
    case Replaced(node) => row[i := node]
  }

  lemma SetIn<T>(x: seq<T>, row: seq<T>, y: seq<T>, i: nat, v: T)
    requires i < |row|
    ensures (x + row + y)[|x| + i := v] == x + row[i := v] + y
  {}

  lemma DropIn<T>(x: seq<T>, row: seq<T>, y: seq<T>, i: nat)
    requires i < |row|
    ensures Drop(x + row + y, |x| + i) == x + Drop(row, i) + y
  {
    var all := x + row + y;
    assert all[..|x| + i] == x + row[..i] && all[|x| + i + 1..] == row[i + 1..] + y;
  }

  lemma SetTwoIn<T>(x: seq<T>, row: seq<T>, y: seq<T>, i: nat, v: T, w: T)
    requires i + 1 < |row|
    ensures (x + row + y)[|x| + i := v][|x| + i + 1 := w] == x + row[i := v][i + 1 := w] + y
  {
    SetIn(x, row, y, i, v);
    SetIn(x, row[i := v], y, i + 1, w);
  }

  lemma MergeIn<T>(x: seq<T>, row: seq<T>, y: seq<T>, i: nat, v: T)
    requires i + 1 < |row|
    ensures Drop((x + row + y)[|x| + i := v], |x| + i + 1) == x + Drop(row[i := v], i + 1) + y
  {
    SetIn(x, row, y, i, v);
    DropIn(x, row[i := v], y, i + 1);
  }

  lemma StolenIn<P>(r: Shrunk<P>, x: seq<Node<P>>, row: seq<Node<P>>, y: seq<Node<P>>, i: nat)
    requires (r.StoleFromLeft? && 0 < i < |row|) || (r.StoleFromRight? && i + 1 < |row|)
    ensures KidsAfter(r, x + row + y, |x| + i) == x + KidsAfter(r, row, i) + y
  {
    if r.StoleFromRight? {
      SetTwoIn(x, row, y, i, r.node, r.right);
    } else {
      SetTwoIn(x, row, y, i - 1, r.left, r.node);
    }
  }

  lemma MergedIn<P>(r: Shrunk<P>, x: seq<Node<P>>, row: seq<Node<P>>, y: seq<Node<P>>, i: nat)
    requires (r.MergedWithLeft? && 0 < i < |row|) || (r.MergedWithRight? && i + 1 < |row|)
    ensures KidsAfter(r, x + row + y, |x| + i) == x + KidsAfter(r, row, i) + y
  {
    if r.MergedWithRight? {
      MergeIn(x, row, y, i, r.node);
    } else {
      MergeIn(x, row, y, i - 1, r.left);
    }
  }

  lemma KidsAfterIn<P>(r: Shrunk<P>, x: seq<Node<P>>, row: seq<Node<P>>, y: seq<Node<P>>, i: nat)
    requires i < |row|
    requires r.StoleFromLeft? || r.MergedWithLeft? ==> i > 0
    requires r.StoleFromRight? || r.MergedWithRight? ==> i + 1 < |row|
    ensures KidsAfter(r, x + row + y, |x| + i) == x + KidsAfter(r, row, i) + y
  {
    if r.StoleFromLeft? || r.StoleFromRight? {
      StolenIn(r, x, row, y, i);
    } else if r.MergedWithLeft? || r.MergedWithRight? {
      MergedIn(r, x, row, y, i);
    } else if !r.Same? {
      SetIn(x, row, y, i, r.node);
    }
  }

  lemma MidAfter<P>(r: Shrunk<P>, kids: seq<Node<P>>, c: nat)
    requires c < |kids| && !r.Replaced?
    requires r.StoleFromLeft? || r.MergedWithLeft? ==> c > 0
    requires r.StoleFromRight? || r.MergedWithRight? ==> c + 1 < |kids|
    ensures
      var left, right := OptKid(LeftOf(kids, c)), OptKid(RightOf(kids, c));
      KidsAfter(r, left + [kids[c]] + right, |left|) == ShrunkKids(r, kids, c)
  {}

  lemma {:induction false} KidsAfterLeaves<P>(r: Shrunk<P>, kids: seq<Node<P>>, c: nat)
    requires c < |kids| && !r.Replaced?
    requires r.StoleFromLeft? || r.MergedWithLeft? ==> c > 0
    requires r.StoleFromRight? || r.MergedWithRight? ==> c + 1 < |kids|
    ensures
      LeavesOf(KidsAfter(r, kids, c)) ==
      LeavesOf(Before2(kids, c)) + ShrunkLeaves(r, Leaves(kids[c]), LeftOf(kids, c), RightOf(kids, c)) + LeavesOf(After2(kids, c))
  {
    var left, right := OptKid(LeftOf(kids, c)), OptKid(RightOf(kids, c));
    var mid := left + [kids[c]] + right;
    KidsAround(kids, c);
    KidsAfterIn(r, Before2(kids, c), mid, After2(kids, c), |left|);
    MidAfter(r, kids, c);
    LeavesAround(Before2(kids, c), ShrunkKids(r, kids, c), After2(kids, c));
    ShrunkKidsLeaves(r, kids, c);
  }

  lemma {:induction false} AfterChildLeaves<P>(t: Node<P>, c: nat, r: Shrunk<P>, left: Option<Node<P>>, right: Option<Node<P>>, minKey: nat, maxKey: nat)
    requires t.Internal? && |t.kids| == |t.keys| + 1 && c < |t.kids| && !r.Replaced?
    requires r.StoleFromLeft? || r.MergedWithLeft? ==> c > 0
    requires r.StoleFromRight? || r.MergedWithRight? ==> c < |t.keys|
    requires Alike(t, left) && Alike(t, right)
    ensures
      ShrunkLeaves(AfterChild(t.keys, t.kids, c, r, left, right, minKey, maxKey), Leaves(t), left, right) ==
      OptLeaves(left) + LeavesOf(KidsAfter(r, t.kids, c)) + OptLeaves(right)
  {
    if r.MergedWithLeft? {
      RebalanceLeaves(Drop(t.keys, c - 1), KidsAfter(r, t.kids, c), left, right, minKey, maxKey, Leaves(t));
    } else if r.MergedWithRight? {
      RebalanceLeaves(Drop(t.keys, c), KidsAfter(r, t.kids, c), left, right, minKey, maxKey, Leaves(t));
    }
  }

  /** The leaf a descent ends in, with the siblings it has under its parent. */
  datatype AtLeaf<P> = AtLeaf(left: Option<Node<P>>, leaf: Node<P>, right: Option<Node<P>>)

  function Descend<P>(t: Node<P>, left: Option<Node<P>>, right: Option<Node<P>>, s: nat): (a: AtLeaf<P>)
    requires Paired(t) && Alike(t, left) && Alike(t, right)
    ensures a.leaf.Leaf? && Alike(a.leaf, a.left) && Alike(a.leaf, a.right)
    decreases t
  {
    if t.Leaf? then AtLeaf(left, t, right)
    else
      var c := ChildIdx(t.keys, s);
      assert AlikeAt(t.kids, c);
      Descend(t.kids[c], LeftOf(t.kids, c), RightOf(t.kids, c), s)
  }

  /** What happened to a leaf as a splice of the row: from `back` places before the leaf on,
      n leaves are replaced by one or two. */
  datatype Edit<P> = Edit(back: nat, n: nat, news: seq<Node<P>>)

  function EditOf<P>(r: Shrunk<P>): Edit<P> {
    match r
    case Same => Edit(0, 0, [])
    case Changed(node) => Edit(0, 1, [node])
    case StoleFromRight(node, sib, _) => Edit(0, 2, [node, sib])
    case MergedWithRight(node) => Edit(0, 2, [node])
    case StoleFromLeft(sib, node, _) => Edit(1, 2, [sib, node])
    case MergedWithLeft(sib) => Edit(1, 2, [sib])
    case Replaced(node) => Edit(0, 1, [node])
  }

  /** The leaf and its siblings stand side by side in the row, and the splice is of them. */
  ghost predicate Around3<P>(a: AtLeaf<P>, ed: Edit<P>, row: seq<Node<P>>, i: nat) {
    && i < |row| && row[i] == a.leaf
    && (a.left.Some? ==> i > 0 && row[i - 1] == a.left.value)
    && (a.right.Some? ==> i + 1 < |row| && row[i + 1] == a.right.value)
    && ed.back <= i && i - ed.back + ed.n <= |row|
  }

  ghost predicate Becomes<P>(a: AtLeaf<P>, ed: Edit<P>, row: seq<Node<P>>, i: nat, after: seq<Node<P>>) {
    Around3(a, ed, row, i) && after == Spliced(row, i - ed.back, ed.n, ed.news)
  }

  lemma Around3In<P>(a: AtLeaf<P>, ed: Edit<P>, x: seq<Node<P>>, row: seq<Node<P>>, y: seq<Node<P>>, i: nat)
    requires Around3(a, ed, row, i)
    ensures Around3(a, ed, x + row + y, |x| + i)
  {
    var all := x + row + y;
    assert all[|x| + i] == row[i];
    assert i > 0 ==> all[|x| + i - 1] == row[i - 1];
    assert i + 1 < |row| ==> all[|x| + i + 1] == row[i + 1];
  }

  lemma LeafSides<P>(a: AtLeaf<P>, s: nat, l: nat)
    requires a.leaf.Leaf? && Alike(a.leaf, a.left) && Alike(a.leaf, a.right)
    ensures
      var op := LeafRemove(a.leaf, a.left, a.right, s, l);
      && (op.StoleFromLeft? || op.MergedWithLeft? ==> a.left.Some?)
      && (op.StoleFromRight? || op.MergedWithRight? ==> a.right.Some?)
  {}

  /** The row of a node and its siblings, seen from child c of the node. */
  lemma {:induction false} RowFromChild<P>(t: Node<P>, left: Option<Node<P>>, right: Option<Node<P>>, s: nat, c: nat)
    requires t.Internal? && c == ChildIdx(t.keys, s) && c < |t.kids|
    ensures
      var mid := OptLeaves(LeftOf(t.kids, c)) + Leaves(t.kids[c]) + OptLeaves(RightOf(t.kids, c));
      var x, y := OptLeaves(left) + LeavesOf(Before2(t.kids, c)), LeavesOf(After2(t.kids, c)) + OptLeaves(right);
      && OptLeaves(left) + Leaves(t) + OptLeaves(right) == x + mid + y
      && |OptLeaves(left)| + Start(t, s) == |x| + (|OptLeaves(LeftOf(t.kids, c))| + Start(t.kids[c], s))
  {
    RowAround(t.kids, c, s);
    var mid := OptLeaves(LeftOf(t.kids, c)) + Leaves(t.kids[c]) + OptLeaves(RightOf(t.kids, c));
    Widened(OptLeaves(left), LeavesOf(Before2(t.kids, c)), mid, LeavesOf(After2(t.kids, c)), OptLeaves(right));
  }

  lemma {:induction false} RowAfterChild<P>(t: Node<P>, left: Option<Node<P>>, right: Option<Node<P>>, minKey: nat, maxKey: nat, s: nat, l: nat, c: nat)
    requires t.Internal? && Paired(t) && Alike(t, left) && Alike(t, right) && c == ChildIdx(t.keys, s) && AlikeAt(t.kids, c)
    ensures
      var lk, rk := LeftOf(t.kids, c), RightOf(t.kids, c);
      var r := Remove(t.kids[c], lk, rk, KeyLeft(t.keys, c), KeyRight(t.keys, c), s, l);
      var x, y := OptLeaves(left) + LeavesOf(Before2(t.kids, c)), LeavesOf(After2(t.kids, c)) + OptLeaves(right);
      ShrunkLeaves(Remove(t, left, right, minKey, maxKey, s, l), Leaves(t), left, right) ==
      x + ShrunkLeaves(r, Leaves(t.kids[c]), lk, rk) + y
  {
    var lk, rk := LeftOf(t.kids, c), RightOf(t.kids, c);
    var r := Remove(t.kids[c], lk, rk, KeyLeft(t.keys, c), KeyRight(t.keys, c), s, l);
    AfterChildLeaves(t, c, r, left, right, minKey, maxKey);
    KidsAfterLeaves(r, t.kids, c);
    var mid := ShrunkLeaves(r, Leaves(t.kids[c]), lk, rk);
    Widened(OptLeaves(left), LeavesOf(Before2(t.kids, c)), mid, LeavesOf(After2(t.kids, c)), OptLeaves(right));
  }

  /** What happens within part of a row happens within the row. */
  lemma {:induction false} Lifted<P>(a: AtLeaf<P>, ed: Edit<P>, x: seq<Node<P>>, mid: seq<Node<P>>, y: seq<Node<P>>, i: nat,
                  row: seq<Node<P>>, at: nat, below: seq<Node<P>>, after: seq<Node<P>>)
    requires Becomes(a, ed, mid, i, below) && row == x + mid + y && at == |x| + i && after == x + below + y
    ensures Becomes(a, ed, row, at, after)
  {
    Around3In(a, ed, x, mid, y, i);
    SplicedIn(x, mid, y, i - ed.back, ed.n, ed.news);
  }

  lemma Widened<T>(a: seq<T>, b: seq<T>, mid: seq<T>, c: seq<T>, d: seq<T>)
    ensures a + (b + mid + c) + d == (a + b) + mid + (c + d)
  {}

  /** The leaves under a node around its child c, and the place of the descent among them. */
  lemma RowAround<P>(kids: seq<Node<P>>, c: nat, s: nat)
    requires c < |kids|
    ensures
      var lk, rk := LeftOf(kids, c), RightOf(kids, c);
      && LeavesOf(kids) == LeavesOf(Before2(kids, c)) + (OptLeaves(lk) + Leaves(kids[c]) + OptLeaves(rk)) + LeavesOf(After2(kids, c))
      && |LeavesOf(kids[..c])| == |LeavesOf(Before2(kids, c))| + |OptLeaves(lk)|
  {
    var lk, rk, x, y := LeftOf(kids, c), RightOf(kids, c), Before2(kids, c), After2(kids, c);
    var mid := OptKid(lk) + [kids[c]] + OptKid(rk);
    KidsAround(kids, c);
    LeavesAround(x, mid, y);
    Around(lk, kids[c], rk);
    LeavesJoin(x, OptKid(lk));
    OptKidLeaves(lk);
  }

  lemma {:induction false} KidsAround<P>(kids: seq<Node<P>>, c: nat)
    requires c < |kids|
    ensures
      var left, right := OptKid(LeftOf(kids, c)), OptKid(RightOf(kids, c));
      && kids == Before2(kids, c) + (left + [kids[c]] + right) + After2(kids, c)
      && kids[..c] == Before2(kids, c) + left && c == |Before2(kids, c)| + |left|
  {}

  /** The row of a node and its siblings, between other leaves, seen from child c. */
  lemma {:induction false} RowDown<P>(t: Node<P>, left: Option<Node<P>>, right: Option<Node<P>>, s: nat, c: nat,
                                      x: seq<Node<P>>, y: seq<Node<P>>, row: seq<Node<P>>, at: nat)
    requires t.Internal? && c == ChildIdx(t.keys, s) && c < |t.kids|
    requires row == x + (OptLeaves(left) + Leaves(t) + OptLeaves(right)) + y && at == |x| + (|OptLeaves(left)| + Start(t, s))
    ensures
      var lk, rk := LeftOf(t.kids, c), RightOf(t.kids, c);
      var x', y' := x + (OptLeaves(left) + LeavesOf(Before2(t.kids, c))), (LeavesOf(After2(t.kids, c)) + OptLeaves(right)) + y;
      && row == x' + (OptLeaves(lk) + Leaves(t.kids[c]) + OptLeaves(rk)) + y'
      && at == |x'| + (|OptLeaves(lk)| + Start(t.kids[c], s))
  {
    RowFromChild(t, left, right, s, c);
    var mid := OptLeaves(LeftOf(t.kids, c)) + Leaves(t.kids[c]) + OptLeaves(RightOf(t.kids, c));
    Widened(x, OptLeaves(left) + LeavesOf(Before2(t.kids, c)), mid, LeavesOf(After2(t.kids, c)) + OptLeaves(right), y);
  }

  lemma {:induction false} LeafRowIn<P>(t: Node<P>, left: Option<Node<P>>, right: Option<Node<P>>, s: nat, l: nat,
                                        x: seq<Node<P>>, y: seq<Node<P>>, row: seq<Node<P>>, at: nat)
    requires t.Leaf? && Alike(t, left) && Alike(t, right)
    requires row == x + (OptLeaves(left) + Leaves(t) + OptLeaves(right)) + y && at == |x| + (|OptLeaves(left)| + Start(t, s))
    ensures
      var r := LeafRemove(t, left, right, s, l);
      Becomes(AtLeaf(left, t, right), EditOf(r), row, at, x + ShrunkLeaves(r, Leaves(t), left, right) + y)
  {
    LeafRow(t, left, right, s, l);
    var r := LeafRemove(t, left, right, s, l);
    var mid := OptLeaves(left) + Leaves(t) + OptLeaves(right);
    Lifted(AtLeaf(left, t, right), EditOf(r), x, mid, y, |OptLeaves(left)|, row, at, ShrunkLeaves(r, Leaves(t), left, right),
           x + ShrunkLeaves(r, Leaves(t), left, right) + y);
  }

  /** Through every steal, merge and collapse, removing changes the row only at the leaf
      the descent ends in and at most one neighbour of it, as removing from that leaf does. */
  lemma {:induction false} RemoveRow<P>(t: Node<P>, left: Option<Node<P>>, right: Option<Node<P>>, minKey: nat, maxKey: nat,
                                        s: nat, l: nat, x: seq<Node<P>>, y: seq<Node<P>>, row: seq<Node<P>>, at: nat)
    returns (after: seq<Node<P>>)
    requires Paired(t) && Alike(t, left) && Alike(t, right)
    requires row == x + (OptLeaves(left) + Leaves(t) + OptLeaves(right)) + y && at == |x| + (|OptLeaves(left)| + Start(t, s))
    ensures after == x + ShrunkLeaves(Remove(t, left, right, minKey, maxKey, s, l), Leaves(t), left, right) + y
    ensures
      var a := Descend(t, left, right, s);
      Becomes(a, EditOf(LeafRemove(a.leaf, a.left, a.right, s, l)), row, at, after)
    decreases t
  {
    if t.Leaf? {
      after := x + ShrunkLeaves(LeafRemove(t, left, right, s, l), Leaves(t), left, right) + y;
      LeafRowIn(t, left, right, s, l, x, y, row, at);
    } else {
      var c := ChildIdx(t.keys, s);
      assert AlikeAt(t.kids, c);
      var lk, rk := LeftOf(t.kids, c), RightOf(t.kids, c);
      var x', y' := OptLeaves(left) + LeavesOf(Before2(t.kids, c)), LeavesOf(After2(t.kids, c)) + OptLeaves(right);
      RowDown(t, left, right, s, c, x, y, row, at);
      after := RemoveRow(t.kids[c], lk, rk, KeyLeft(t.keys, c), KeyRight(t.keys, c), s, l, x + x', y' + y, row, at);
      RowAfterChild(t, left, right, minKey, maxKey, s, l, c);
      var r := Remove(t.kids[c], lk, rk, KeyLeft(t.keys, c), KeyRight(t.keys, c), s, l);
      Widened(x, x', ShrunkLeaves(r, Leaves(t.kids[c]), lk, rk), y', y);
    }
  }

  /** Nothing but leaves came of it. */
  ghost predicate OnlyLeaves<P>(r: Shrunk<P>) {
    match r
    case Same => true
    case Changed(node) => node.Leaf?
    case StoleFromRight(node, sib, _) => node.Leaf? && sib.Leaf?
    case MergedWithRight(node) => node.Leaf?
    case StoleFromLeft(sib, node, _) => node.Leaf? && sib.Leaf?
    case MergedWithLeft(sib) => sib.Leaf?
    case Replaced(node) => node.Leaf?
  }

  lemma LeafResults<P>(t: Node<P>, left: Option<Node<P>>, right: Option<Node<P>>, s: nat, l: nat)
    requires t.Leaf? && Alike(t, left) && Alike(t, right)
    ensures OnlyLeaves(LeafRemove(t, left, right, s, l))
  {}

  /** Replacing the middle of a row. */
  lemma SplicedMiddle<T>(x: seq<T>, mid: seq<T>, y: seq<T>, news: seq<T>)
    ensures Spliced(x + mid + y, |x|, |mid|, news) == x + news + y
  {}

  lemma {:induction false} LeavesInRow<P>(r: Shrunk<P>, t: Node<P>, left: Option<Node<P>>, right: Option<Node<P>>)
    requires t.Leaf? && (left.Some? ==> left.value.Leaf?) && (right.Some? ==> right.value.Leaf?) && OnlyLeaves(r)
    requires r.StoleFromLeft? || r.MergedWithLeft? ==> left.Some?
    requires r.StoleFromRight? || r.MergedWithRight? ==> right.Some?
    ensures
      Becomes(AtLeaf(left, t, right), EditOf(r), OptLeaves(left) + [t] + OptLeaves(right), |OptLeaves(left)|,
              ShrunkLeaves(r, [t], left, right))
  {
    var ls, rs := OptLeaves(left), OptLeaves(right);
    match r
    case Same => SplicedMiddle(ls, [], [t] + rs, []);
                 assert ls + [] + ([t] + rs) == ls + [t] + rs;
    case Changed(node) => SplicedMiddle(ls, [t], rs, [node]);
    case Replaced(node) => SplicedMiddle(ls, [t], rs, [node]);
    case StoleFromRight(node, sib, _) => WithRight(ls, t, right.value, [node, sib]);
    case MergedWithRight(node) => WithRight(ls, t, right.value, [node]);
    case StoleFromLeft(sib, node, _) => WithLeft(left.value, t, rs, [sib, node]);
    case MergedWithLeft(sib) => WithLeft(left.value, t, rs, [sib]);
  }

  lemma WithRight<T>(ls: seq<T>, t: T, r: T, news: seq<T>)
    ensures Spliced(ls + [t] + [r], |ls|, 2, news) == ls + news
  {
    assert ls + [t] + [r] == ls + [t, r] + [];
    SplicedMiddle(ls, [t, r], [], news);
  }

  lemma WithLeft<T>(l: T, t: T, rs: seq<T>, news: seq<T>)
    ensures Spliced([l] + [t] + rs, 0, 2, news) == news + rs
  {
    assert [l] + [t] + rs == [] + [l, t] + rs;
    SplicedMiddle([], [l, t], rs, news);
  }

  lemma {:induction false} LeafRow<P>(t: Node<P>, left: Option<Node<P>>, right: Option<Node<P>>, s: nat, l: nat)
    requires t.Leaf? && Alike(t, left) && Alike(t, right)
    ensures
      var r := LeafRemove(t, left, right, s, l);
      Becomes(AtLeaf(left, t, right), EditOf(r), OptLeaves(left) + [t] + OptLeaves(right), |OptLeaves(left)|,
              ShrunkLeaves(r, [t], left, right))
  {
    LeafResults(t, left, right, s, l);
    LeafSides(AtLeaf(left, t, right), s, l);
    LeavesInRow(LeafRemove(t, left, right, s, l), t, left, right);
  }

  /** The row after removing from a whole layer. */
  lemma {:induction false} RemoveRootRow<P>(t: Node<P>, s: nat, l: nat)
    requires Root(t) && s < TOP
    ensures
      && Paired(t)
      && var a, row, i := Descend(t, None, None, s), Leaves(t), Start(t, s);
         Becomes(a, EditOf(LeafRemove(a.leaf, a.left, a.right, s, l)), row, i, Leaves(RemoveRoot(t, s, l)))
  {
    WFPaired(t, Height(t), 0, TOP, true);
    RootLeaves(Remove(t, None, None, 0, 0, s, l), t);
    var after := RemoveRow(t, None, None, 0, 0, s, l, [], [], Leaves(t), Start(t, s));
  }

  lemma RootLeaves<P>(r: Shrunk<P>, t: Node<P>)
    requires r.Same? || r.Changed? || r.Replaced?
    ensures ShrunkLeaves(r, Leaves(t), None, None) == Leaves(if r.Same? then t else r.node)
    ensures OptLeaves<P>(None) == [] && OptLeaves(None) + Leaves(t) + OptLeaves(None) == Leaves(t)
  {}
}
