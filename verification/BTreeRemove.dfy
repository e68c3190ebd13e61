/** Removing from one layer of the B+-tree: the steals, merges and root collapse of remove0. */
module BTreeRemove {
  import opened Common
  import opened BTree
  import opened BTreeInsert

  // ------------------------------------------------------------------ the operation

  /** remove_status, with the nodes it leaves behind. */
  datatype Shrunk<P> =
    | Same                                                      // R_NONE_NOMOD
    | Changed(node: Node<P>)                                    // R_NONE_MOD
    | StoleFromRight(node: Node<P>, right: Node<P>, key: nat)
    | MergedWithRight(node: Node<P>)
    | StoleFromLeft(left: Node<P>, node: Node<P>, key: nat)
    | MergedWithLeft(left: Node<P>)
    | Replaced(node: Node<P>)                                   // R_REPLACE_NODE

  /** remove_pos_from_*: an array without position p. */
  function Drop<T>(s: seq<T>, p: nat): seq<T>
    requires p < |s|
  {
    s[..p] + s[p + 1..]
  }

  /** A leaf gives up the entry at (s, l), if it has it. */
  function LeafRemove<P>(t: Node<P>, left: Option<Node<P>>, right: Option<Node<P>>, s: nat, l: nat): Shrunk<P>
    requires t.Leaf?
    requires left.Some? ==> left.value.Leaf? && left.value.entries != []
    requires right.Some? ==> right.value.Leaf? && right.value.entries != []
  {
    var es, p := t.entries, Pos(t.entries, s, l);
    if !Match(es, s, l) then Same
    else if |es| > MIN_KEYS then Changed(Leaf(t.minKey, Drop(es, p)))
    else if right.Some? then LeafFromRight(t.minKey, Drop(es, p), right.value.entries)
    else if left.Some? then LeafFromLeft(t.minKey, Drop(es, p), left.value.minKey, left.value.entries)
    else Changed(Leaf(t.minKey, Drop(es, p)))
  }

  /** Steal the first run of equal slices from the right sibling; failing that, merge with
      it; failing that, stay as small as it is. */
  function LeafFromRight<P>(minKey: nat, es: seq<Entry<P>>, rs: seq<Entry<P>>): Shrunk<P>
    requires rs != []
  {
    var sp := RightSplit(rs, 1);
    if |rs| > MIN_KEYS && |es| + sp <= N && sp < |rs| then
      StoleFromRight(Leaf(minKey, es + rs[..sp]), Leaf(rs[sp].slice, rs[sp..]), rs[sp].slice)
    else if |rs| > MIN_KEYS && |es| + |rs| > N then Changed(Leaf(minKey, es))
    else MergedWithRight(Leaf(minKey, es + rs))
  }

  function LeafFromLeft<P>(minKey: nat, es: seq<Entry<P>>, leftMin: nat, ls: seq<Entry<P>>): Shrunk<P>
    requires ls != []
  {
    var sp := LeftSplit(ls, |ls| - 1);
    if |ls| > MIN_KEYS && |es| + (|ls| - sp) <= N && sp > 0 then
      StoleFromLeft(Leaf(leftMin, ls[..sp]), Leaf(ls[sp].slice, ls[sp..] + es), ls[sp].slice)
    else if |ls| > MIN_KEYS && |ls| + |es| > N then Changed(Leaf(minKey, es))
    else MergedWithLeft(Leaf(leftMin, ls + es))
  }

  /** A node that lost a child: `keys` and `kids` are what is left, n - 1 keys.  minKey and
      maxKey are the parent's keys on either side of the node. */
  function Rebalance<P>(keys: seq<nat>, kids: seq<Node<P>>, left: Option<Node<P>>, right: Option<Node<P>>,
                        minKey: nat, maxKey: nat): Shrunk<P>
    requires |kids| == |keys| + 1
    requires left.Some? ==> left.value.Internal? && |left.value.kids| == |left.value.keys| + 1
    requires right.Some? ==> right.value.Internal? && |right.value.kids| == |right.value.keys| + 1
  {
    if |keys| + 1 > MIN_KEYS then Changed(Internal(keys, kids))
    else if right.Some? then
      var r := right.value;
      if |r.keys| > MIN_KEYS then
        StoleFromRight(Internal(keys + [maxKey], kids + [r.kids[0]]), Internal(r.keys[1..], r.kids[1..]), r.keys[0])
      else MergedWithRight(Internal(keys + [maxKey] + r.keys, kids + r.kids))
    else if left.Some? then
      var l, n := left.value, |left.value.keys|;
      if n > MIN_KEYS then
        StoleFromLeft(Internal(l.keys[..n - 1], l.kids[..n]), Internal([minKey] + keys, [l.kids[n]] + kids), l.keys[n - 1])
      else MergedWithLeft(Internal(l.keys + [minKey] + keys, l.kids + kids))
    else if keys == [] then Replaced(kids[0])
    else Changed(Internal(keys, kids))
  }

  /** Siblings are of the same kind and not empty. */
  predicate Alike<P>(t: Node<P>, o: Option<Node<P>>) {
    o.Some? ==>
      if t.Leaf? then o.value.Leaf? && o.value.entries != []
      else o.value.Internal? && |o.value.kids| == |o.value.keys| + 1
  }

  /** Every node has the children its keys call for, and neighbours are alike. */
  predicate Paired<P>(t: Node<P>) {
    t.Internal? ==>
      && |t.kids| == |t.keys| + 1 && t.keys != []
      && (forall i :: 0 <= i < |t.kids| ==> Paired(t.kids[i]))
      && (forall i :: 0 <= i < |t.kids| ==> AlikeAt(t.kids, i))
  }

  predicate AlikeAt<P>(kids: seq<Node<P>>, i: nat)
    requires i < |kids|
  {
    Alike(kids[i], LeftOf(kids, i)) && Alike(kids[i], RightOf(kids, i))
  }

  function LeftOf<P>(kids: seq<Node<P>>, c: nat): Option<Node<P>>
    requires c < |kids|
  {
    if c == 0 then None else Some(kids[c - 1])
  }

  function RightOf<P>(kids: seq<Node<P>>, c: nat): Option<Node<P>>
    requires c < |kids|
  {
    if c + 1 == |kids| then None else Some(kids[c + 1])
  }

  function KeyLeft(keys: seq<nat>, c: nat): nat
    requires c <= |keys|
  {
    if c == 0 then 0 else keys[c - 1]
  }

  function KeyRight(keys: seq<nat>, c: nat): nat
    requires c <= |keys|
  {
    if c == |keys| then 0 else keys[c]
  }

  /** What an internal node does after its child c: store the new separator, or delete the
      key and the child that a merge made redundant and rebalance. */
  function AfterChild<P>(keys: seq<nat>, kids: seq<Node<P>>, c: nat, r: Shrunk<P>, left: Option<Node<P>>, right: Option<Node<P>>,
                         minKey: nat, maxKey: nat): (out: Shrunk<P>)
    requires |kids| == |keys| + 1 && c <= |keys| && !r.Replaced?
    requires left.Some? ==> left.value.Internal? && |left.value.kids| == |left.value.keys| + 1
    requires right.Some? ==> right.value.Internal? && |right.value.kids| == |right.value.keys| + 1
    requires r.StoleFromLeft? || r.MergedWithLeft? ==> c > 0
    requires r.StoleFromRight? || r.MergedWithRight? ==> c < |keys|
    ensures out.StoleFromLeft? || out.MergedWithLeft? ==> left.Some?
    ensures out.StoleFromRight? || out.MergedWithRight? ==> right.Some?
    ensures out.Replaced? ==> left.None? && right.None?
  {
    match r
    case Same => Same
    case Changed(kid) => Changed(Internal(keys, kids[c := kid]))
    case StoleFromLeft(sib, kid, key) => Changed(Internal(keys[c - 1 := key], kids[c - 1 := sib][c := kid]))
    case StoleFromRight(kid, sib, key) => Changed(Internal(keys[c := key], kids[c := kid][c + 1 := sib]))
    case MergedWithLeft(sib) =>
      Rebalance(Drop(keys, c - 1), Drop(kids[c - 1 := sib], c), left, right, minKey, maxKey)
    case MergedWithRight(kid) =>
      Rebalance(Drop(keys, c), Drop(kids[c := kid], c + 1), left, right, minKey, maxKey)
  }

  function Remove<P>(t: Node<P>, left: Option<Node<P>>, right: Option<Node<P>>, minKey: nat, maxKey: nat, s: nat, l: nat): (r: Shrunk<P>)
    requires Paired(t) && Alike(t, left) && Alike(t, right)
    ensures r.StoleFromLeft? || r.MergedWithLeft? ==> left.Some?
    ensures r.StoleFromRight? || r.MergedWithRight? ==> right.Some?
    ensures r.Replaced? ==> left.None? && right.None?
    decreases t
  {
    if t.Leaf? then LeafRemove(t, left, right, s, l)
    else
      var c := ChildIdx(t.keys, s);
      assert AlikeAt(t.kids, c);
      var r := Remove(t.kids[c], LeftOf(t.kids, c), RightOf(t.kids, c), KeyLeft(t.keys, c), KeyRight(t.keys, c), s, l);
      AfterChild(t.keys, t.kids, c, r, left, right, minKey, maxKey)
  }

  /** remove_stable_location: the root has no siblings, and a root with one child is
      replaced by that child. */
  function RemoveRoot<P>(t: Node<P>, s: nat, l: nat): Node<P>
    requires Paired(t)
  {
    match Remove(t, None, None, 0, 0, s, l)
    case Same => t
    case Changed(node) => node
    case Replaced(node) => node
  }

  // ------------------------------------------------------------------ what a removal must leave

  /** Where a node and its siblings stand: left in [llo, lo), node in [lo, hi), right in
      [hi, rhi). */
  datatype Bounds = Bounds(llo: nat, lo: nat, hi: nat, rhi: nat)

  ghost predicate ShrunkOk<P>(r: Shrunk<P>, h: nat, b: Bounds, root: bool) {
    match r
    case Same => true
    case Changed(node) => WF(node, h, b.lo, b.hi, root)
    case StoleFromRight(node, right, key) =>
      b.lo < key < b.rhi && WF(node, h, b.lo, key, false) && WF(right, h, key, b.rhi, false)
    case MergedWithRight(node) => WF(node, h, b.lo, b.rhi, false)
    case StoleFromLeft(left, node, key) =>
      b.llo < key < b.hi && WF(left, h, b.llo, key, false) && WF(node, h, key, b.hi, false)
    case MergedWithLeft(left) => WF(left, h, b.llo, b.hi, false)
    case Replaced(node) => root && h > 0 && WF(node, h - 1, b.lo, b.hi, true)
  }

  ghost predicate InOpt<P>(x: Entry<P>, o: Option<Node<P>>) { o.Some? && In(x, o.value) }

  /** The entries of the nodes involved: the same, without the one removed. */
  ghost predicate ShrunkHolds<P>(r: Shrunk<P>, kept: bool, inLeft: bool, inRight: bool, x: Entry<P>) {
    match r
    case Same => true
    case Changed(node) => In(x, node) <==> kept
    case StoleFromRight(node, right, _) => In(x, node) || In(x, right) <==> kept || inRight
    case MergedWithRight(node) => In(x, node) <==> kept || inRight
    case StoleFromLeft(left, node, _) => In(x, left) || In(x, node) <==> kept || inLeft
    case MergedWithLeft(left) => In(x, left) <==> kept || inLeft
    case Replaced(node) => In(x, node) <==> kept
  }

  // ------------------------------------------------------------------ leaves

  lemma DropKeeps<P>(es: seq<Entry<P>>, p: nat, lo: nat, hi: nat)
    requires EntriesOk(es, lo, hi) && p < |es|
    ensures EntriesOk(Drop(es, p), lo, hi)
  {
    var out := Drop(es, p);
    forall i, j | 0 <= i < j < |out|
      ensures Less(out[i], out[j])
    {
      assert Less(es[if i < p then i else i + 1], es[if j < p then j else j + 1]);
    }
  }

  lemma {:induction false} DropHolds<P>(es: seq<Entry<P>>, s: nat, l: nat, x: Entry<P>)
    requires Ascending(es) && Match(es, s, l)
    ensures x in Drop(es, Pos(es, s, l)) <==> x in es && !At(x, s, l)
  {
    var p := Pos(es, s, l);
    if x in es && !At(x, s, l) {
      var i :| 0 <= i < |es| && es[i] == x;
      assert Drop(es, p)[if i < p then i else i - 1] == x;
    }
    if x in Drop(es, p) {
      var i :| 0 <= i < |Drop(es, p)| && Drop(es, p)[i] == x;
      var j := if i < p then i else i + 1;
      assert es[j] == x;
      assert j < p ==> Less(es[j], es[p]);
      assert p < j ==> Less(es[p], es[j]);
    }
  }

  lemma JoinKeeps<P>(es: seq<Entry<P>>, rs: seq<Entry<P>>, lo: nat, mid: nat, hi: nat)
    requires EntriesOk(es, lo, mid) && EntriesOk(rs, mid, hi) && lo < mid < hi
    ensures EntriesOk(es + rs, lo, hi)
  {
    var all := es + rs;
    forall i | 0 <= i < |all|
      ensures Fits(all[i], lo, hi)
    {
      assert if i < |es| then Fits(es[i], lo, mid) else Fits(rs[i - |es|], mid, hi);
    }
    forall i, j | 0 <= i < j < |all|
      ensures Less(all[i], all[j])
    {
      if i < |es| <= j {
        assert Fits(es[i], lo, mid) && Fits(rs[j - |es|], mid, hi);
      }
    }
  }

  lemma LeafFromRightOk<P>(minKey: nat, es: seq<Entry<P>>, rs: seq<Entry<P>>, b: Bounds)
    requires EntriesOk(es, b.lo, b.hi) && EntriesOk(rs, b.hi, b.rhi) && b.lo < b.hi < b.rhi
    requires minKey == b.lo && |es| < MIN_KEYS && 1 <= |rs| <= N
    ensures ShrunkOk(LeafFromRight(minKey, es, rs), 0, b, false)
  {
    var sp := RightSplit(rs, 1);
    JoinKeeps(es, rs, b.lo, b.hi, b.rhi);
    if sp < |rs| {
      assert Less(rs[sp - 1], rs[sp]);
      CutKeeps(rs, sp, b.hi, b.rhi);
      JoinKeeps(es, rs[..sp], b.lo, b.hi, rs[sp].slice);
    }
  }

  lemma LeafFromLeftOk<P>(minKey: nat, es: seq<Entry<P>>, leftMin: nat, ls: seq<Entry<P>>, b: Bounds)
    requires EntriesOk(es, b.lo, b.hi) && EntriesOk(ls, b.llo, b.lo) && b.llo < b.lo < b.hi
    requires minKey == b.lo && leftMin == b.llo && |es| < MIN_KEYS && 1 <= |ls| <= N
    ensures ShrunkOk(LeafFromLeft(minKey, es, leftMin, ls), 0, b, false)
  {
    var sp := LeftSplit(ls, |ls| - 1);
    JoinKeeps(ls, es, b.llo, b.lo, b.hi);
    if sp > 0 {
      assert Less(ls[sp - 1], ls[sp]);
      CutKeeps(ls, sp, b.llo, b.lo);
      JoinKeeps(ls[sp..], es, ls[sp].slice, b.lo, b.hi);
    }
  }

  ghost predicate SiblingsOk<P>(left: Option<Node<P>>, right: Option<Node<P>>, h: nat, b: Bounds, root: bool) {
    && b.lo < b.hi && (root <==> left.None? && right.None?)
    && (left.Some? ==> b.llo < b.lo && WF(left.value, h, b.llo, b.lo, false))
    && (right.Some? ==> b.hi < b.rhi && WF(right.value, h, b.hi, b.rhi, false))
  }

  lemma LeafRemoveOk<P>(t: Node<P>, left: Option<Node<P>>, right: Option<Node<P>>, h: nat, b: Bounds, root: bool, s: nat, l: nat)
    requires WF(t, h, b.lo, b.hi, root) && t.Leaf? && SiblingsOk(left, right, h, b, root)
    requires Alike(t, left) && Alike(t, right)
    ensures ShrunkOk(LeafRemove(t, left, right, s, l), h, b, root)
  {
    var es, p := t.entries, Pos(t.entries, s, l);
    if Match(es, s, l) {
      DropKeeps(es, p, b.lo, b.hi);
      if |es| <= MIN_KEYS {
        if right.Some? {
          LeafFromRightOk(t.minKey, Drop(es, p), right.value.entries, b);
        } else if left.Some? {
          LeafFromLeftOk(t.minKey, Drop(es, p), left.value.minKey, left.value.entries, b);
        }
      }
    }
  }

  lemma FromRightHolds<P>(minKey: nat, es: seq<Entry<P>>, rs: seq<Entry<P>>, inLeft: bool, x: Entry<P>)
    requires rs != []
    ensures ShrunkHolds(LeafFromRight(minKey, es, rs), x in es, inLeft, x in rs, x)
  {
    InCut(rs, RightSplit(rs, 1), x);
  }

  lemma FromLeftHolds<P>(minKey: nat, es: seq<Entry<P>>, leftMin: nat, ls: seq<Entry<P>>, inRight: bool, x: Entry<P>)
    requires ls != []
    ensures ShrunkHolds(LeafFromLeft(minKey, es, leftMin, ls), x in es, x in ls, inRight, x)
  {
    InCut(ls, LeftSplit(ls, |ls| - 1), x);
  }

  lemma {:induction false} LeafRemoveHolds<P>(t: Node<P>, left: Option<Node<P>>, right: Option<Node<P>>, s: nat, l: nat, x: Entry<P>)
    requires t.Leaf? && Ascending(t.entries) && Alike(t, left) && Alike(t, right)
    ensures ShrunkHolds(LeafRemove(t, left, right, s, l), In(x, t) && !At(x, s, l), InOpt(x, left), InOpt(x, right), x)
    ensures LeafRemove(t, left, right, s, l).Same? && In(x, t) ==> !At(x, s, l)
  {
    var es, p := t.entries, Pos(t.entries, s, l);
    if Match(es, s, l) {
      DropHolds(es, s, l, x);
      if right.Some? {
        FromRightHolds(t.minKey, Drop(es, p), right.value.entries, InOpt(x, left), x);
      } else if left.Some? {
        FromLeftHolds(t.minKey, Drop(es, p), left.value.minKey, left.value.entries, InOpt(x, right), x);
      }
    } else if x in es {
      NotThere(es, s, l, x);
    }
  }

  // ------------------------------------------------------------------ internal nodes

  /** Two neighbours whose common bound moved. */
  lemma ShiftSep<P>(keys: seq<nat>, kids: seq<Node<P>>, h: nat, lo: nat, hi: nat, i: nat, k: Node<P>, r: Node<P>, key: nat)
    requires KidsOk(keys, kids, h, lo, hi) && i < |keys| && h > 0
    requires
      var seps := Seps(keys, lo, hi);
      && seps[i] < key < seps[i + 2]
      && WF(k, h - 1, seps[i], key, false) && WF(r, h - 1, key, seps[i + 2], false)
    ensures KidsOk(keys[i := key], kids[i := k][i + 1 := r], h, lo, hi)
  {
    var seps, seps', kids' := Seps(keys, lo, hi), Seps(keys[i := key], lo, hi), kids[i := k][i + 1 := r];
    assert seps' == seps[i + 1 := key];
    forall a, c | 0 <= a < c < |seps'|
      ensures seps'[a] < seps'[c]
    {
      assert seps[a] < seps[c];
      assert a < i ==> seps[a] < seps[i];
      assert c > i + 2 ==> seps[i + 2] < seps[c];
    }
    forall j | 0 <= j < |kids'|
      ensures KidOk(kids'[j], h, seps', j)
    {
      assert KidOk(kids[j], h, seps, j);
    }
  }

  /** Two neighbours that became one. */
  lemma {:induction false} JoinTwo<P>(keys: seq<nat>, kids: seq<Node<P>>, h: nat, lo: nat, hi: nat, i: nat, k: Node<P>)
    requires KidsOk(keys, kids, h, lo, hi) && i < |keys| && h > 0
    requires WF(k, h - 1, Seps(keys, lo, hi)[i], Seps(keys, lo, hi)[i + 2], false)
    ensures KidsOk(Drop(keys, i), Drop(kids[i := k], i + 1), h, lo, hi)
  {
    var seps, seps', kids' := Seps(keys, lo, hi), Seps(Drop(keys, i), lo, hi), Drop(kids[i := k], i + 1);
    assert seps' == Drop(seps, i + 1);
    forall a, c | 0 <= a < c < |seps'|
      ensures seps'[a] < seps'[c]
    {
      assert seps[if a <= i then a else a + 1] < seps[if c <= i then c else c + 1];
    }
    forall j | 0 <= j < |kids'|
      ensures KidOk(kids'[j], h, seps', j)
    {
      assert KidOk(kids[if j <= i then j else j + 1], h, seps, if j <= i then j else j + 1);
    }
  }

  /** The children of two neighbouring nodes, with their parent's key between them. */
  lemma {:induction false} JoinKids<P>(keys: seq<nat>, kids: seq<Node<P>>, rkeys: seq<nat>, rkids: seq<Node<P>>, h: nat, lo: nat, mid: nat, hi: nat)
    requires KidsOk(keys, kids, h, lo, mid) && KidsOk(rkeys, rkids, h, mid, hi)
    ensures KidsOk(keys + [mid] + rkeys, kids + rkids, h, lo, hi)
  {
    var left, right := Seps(keys, lo, mid), Seps(rkeys, mid, hi);
    var all, seps := kids + rkids, Seps(keys + [mid] + rkeys, lo, hi);
    assert seps == left + right[1..];
    var n := |kids|;
    forall a, c | 0 <= a < c < |seps|
      ensures seps[a] < seps[c]
    {
      assert a < n ==> left[a] < left[n];
      assert c > n ==> right[0] < right[c - n];
      assert c <= n ==> left[a] < left[c];
      assert a >= n ==> right[a - n] < right[c - n];
    }
    forall j | 0 <= j < |all|
      ensures KidOk(all[j], h, seps, j)
    {
      if j < n {
        assert KidOk(kids[j], h, left, j);
      } else {
        assert KidOk(rkids[j - n], h, right, j - n);
      }
    }
  }

  lemma AsRoot<P>(t: Node<P>, h: nat, lo: nat, hi: nat)
    requires WF(t, h, lo, hi, false)
    ensures WF(t, h, lo, hi, true)
  {
  }

  lemma {:induction false} FromRightOk<P>(keys: seq<nat>, kids: seq<Node<P>>, right: Node<P>, h: nat, b: Bounds)
    requires KidsOk(keys, kids, h, b.lo, b.hi) && h > 0 && |keys| + 1 == MIN_KEYS
    requires b.lo < b.hi < b.rhi && WF(right, h, b.hi, b.rhi, false) && right.Internal?
    ensures ShrunkOk(Rebalance(keys, kids, None, Some(right), b.lo, b.hi), h, b, false)
  {
    JoinKids(keys, kids, right.keys, right.kids, h, b.lo, b.hi, b.rhi);
    if |right.keys| > MIN_KEYS {
      var all, ks, m := kids + right.kids, keys + [b.hi] + right.keys, |keys| + 1;
      CutKids(ks, all, h, b.lo, b.rhi, m);
      assert ks[..m] == keys + [b.hi] && ks[m] == right.keys[0] && ks[m + 1..] == right.keys[1..];
      assert all[..m + 1] == kids + [right.kids[0]] && all[m + 1..] == right.kids[1..];
    }
  }

  /** What goes over from a left sibling: its last child. */
  lemma LeftParts<P>(lkeys: seq<nat>, lkids: seq<Node<P>>, lo: nat, keys: seq<nat>, kids: seq<Node<P>>)
    requires |lkids| == |lkeys| + 1 > 1
    ensures
      var ks, all, m := lkeys + [lo] + keys, lkids + kids, |lkeys| - 1;
      && ks[..m] == lkeys[..m] && ks[m] == lkeys[m] && ks[m + 1..] == [lo] + keys
      && all[..m + 1] == lkids[..m + 1] && all[m + 1..] == [lkids[m + 1]] + kids
  {
    var m := |lkeys| - 1;
    assert lkeys + [lo] + keys == lkeys + ([lo] + keys);
    assert (lkids + kids)[m + 1..] == lkids[m + 1..] + kids;
  }

  lemma {:induction false} FromLeftOk<P>(keys: seq<nat>, kids: seq<Node<P>>, left: Node<P>, h: nat, b: Bounds, maxKey: nat)
    requires KidsOk(keys, kids, h, b.lo, b.hi) && h > 0 && |keys| + 1 == MIN_KEYS
    requires b.llo < b.lo < b.hi && WF(left, h, b.llo, b.lo, false) && left.Internal?
    ensures ShrunkOk(Rebalance(keys, kids, Some(left), None, b.lo, maxKey), h, b, false)
  {
    JoinKids(left.keys, left.kids, keys, kids, h, b.llo, b.lo, b.hi);
    if |left.keys| > MIN_KEYS {
      CutKids(left.keys + [b.lo] + keys, left.kids + kids, h, b.llo, b.hi, |left.keys| - 1);
      LeftParts(left.keys, left.kids, b.lo, keys, kids);
    }
  }

  lemma RebalanceOk<P>(keys: seq<nat>, kids: seq<Node<P>>, left: Option<Node<P>>, right: Option<Node<P>>, h: nat, b: Bounds,
                       root: bool, minKey: nat, maxKey: nat)
    requires KidsOk(keys, kids, h, b.lo, b.hi) && h > 0 && (if root then 1 else MIN_KEYS) <= |keys| + 1 <= N
    requires SiblingsOk(left, right, h, b, root)
    requires (left.Some? ==> left.value.Internal? && minKey == b.lo) && (right.Some? ==> right.value.Internal? && maxKey == b.hi)
    ensures ShrunkOk(Rebalance(keys, kids, left, right, minKey, maxKey), h, b, root)
  {
    if |keys| + 1 <= MIN_KEYS {
      if right.Some? {
        FromRightOk(keys, kids, right.value, h, b);
      } else if left.Some? {
        FromLeftOk(keys, kids, left.value, h, b, maxKey);
      } else if keys == [] {
        assert KidOk(kids[0], h, Seps(keys, b.lo, b.hi), 0);
        AsRoot(kids[0], h - 1, b.lo, b.hi);
      }
    }
  }

  lemma InBoth<P>(a: seq<Node<P>>, b: seq<Node<P>>, x: Entry<P>)
    ensures InKids(x, a + b) <==> InKids(x, a) || InKids(x, b)
  {
    assert (a + b)[..|a|] == a && (a + b)[|a|..] == b;
    InCutKids(a + b, |a|, x);
  }

  lemma InOne<P>(t: Node<P>, x: Entry<P>)
    ensures InKids(x, [t]) <==> In(x, t)
  {
    assert [t][0] == t;
  }

  lemma RebalanceHolds<P>(keys: seq<nat>, kids: seq<Node<P>>, left: Option<Node<P>>, right: Option<Node<P>>,
                          minKey: nat, maxKey: nat, x: Entry<P>)
    requires |kids| == |keys| + 1
    requires left.Some? ==> left.value.Internal? && |left.value.kids| == |left.value.keys| + 1
    requires right.Some? ==> right.value.Internal? && |right.value.kids| == |right.value.keys| + 1
    ensures ShrunkHolds(Rebalance(keys, kids, left, right, minKey, maxKey), InKids(x, kids), InOpt(x, left), InOpt(x, right), x)
    ensures !Rebalance(keys, kids, left, right, minKey, maxKey).Same?
  {
    if right.Some? {
      var rs := right.value.kids;
      InCutKids(rs, 1, x);
      assert rs[..1] == [rs[0]];
      InBoth(kids, rs, x);
      InBoth(kids, [rs[0]], x);
    } else if left.Some? {
      var ls, n := left.value.kids, |left.value.keys|;
      InCutKids(ls, n, x);
      assert ls[n..] == [ls[n]];
      InBoth(ls, kids, x);
      InBoth([ls[n]], kids, x);
    } else if keys == [] {
      assert kids == [kids[0]];
      InOne(kids[0], x);
    }
  }

  // ------------------------------------------------------------------ the recursion

  function KidBounds(keys: seq<nat>, lo: nat, hi: nat, c: nat): Bounds
    requires c <= |keys|
  {
    var seps := Seps(keys, lo, hi);
    Bounds(if c > 0 then seps[c - 1] else 0, seps[c], seps[c + 1], if c < |keys| then seps[c + 2] else 0)
  }

  lemma KidSiblings<P>(t: Node<P>, h: nat, lo: nat, hi: nat, root: bool, c: nat)
    requires WF(t, h, lo, hi, root) && t.Internal? && c < |t.kids|
    ensures
      var b := KidBounds(t.keys, lo, hi, c);
      WF(t.kids[c], h - 1, b.lo, b.hi, false) && SiblingsOk(LeftOf(t.kids, c), RightOf(t.kids, c), h - 1, b, false)
  {
    var seps := Seps(t.keys, lo, hi);
    assert KidOk(t.kids[c], h, seps, c);
    assert c > 0 ==> KidOk(t.kids[c - 1], h, seps, c - 1);
    assert c < |t.keys| ==> KidOk(t.kids[c + 1], h, seps, c + 1);
  }

  lemma {:induction false} WFPaired<P>(t: Node<P>, h: nat, lo: nat, hi: nat, root: bool)
    requires WF(t, h, lo, hi, root)
    ensures Paired(t)
    decreases t
  {
    if t.Internal? {
      forall i | 0 <= i < |t.kids|
        ensures Paired(t.kids[i]) && AlikeAt(t.kids, i)
      {
        KidSiblings(t, h, lo, hi, root, i);
        var b := KidBounds(t.keys, lo, hi, i);
        WFPaired(t.kids[i], h - 1, b.lo, b.hi, false);
      }
    }
  }

  lemma AfterChildOk<P>(t: Node<P>, h: nat, b: Bounds, root: bool, c: nat, r: Shrunk<P>, left: Option<Node<P>>, right: Option<Node<P>>,
                        minKey: nat, maxKey: nat)
    requires WF(t, h, b.lo, b.hi, root) && t.Internal? && c < |t.kids| && !r.Replaced?
    requires r.StoleFromLeft? || r.MergedWithLeft? ==> c > 0
    requires r.StoleFromRight? || r.MergedWithRight? ==> c < |t.keys|
    requires ShrunkOk(r, h - 1, KidBounds(t.keys, b.lo, b.hi, c), false)
    requires SiblingsOk(left, right, h, b, root) && Alike(t, left) && Alike(t, right)
    requires (left.Some? ==> minKey == b.lo) && (right.Some? ==> maxKey == b.hi)
    ensures ShrunkOk(AfterChild(t.keys, t.kids, c, r, left, right, minKey, maxKey), h, b, root)
  {
    if r.MergedWithLeft? {
      MergedOk(t, h, b, root, c - 1, r.left, left, right, minKey, maxKey);
    } else if r.MergedWithRight? {
      MergedOk(t, h, b, root, c, r.node, left, right, minKey, maxKey);
    } else {
      NotMergedOk(t, h, b, root, c, r, left, right, minKey, maxKey);
    }
  }

  lemma {:induction false} NotMergedOk<P>(t: Node<P>, h: nat, b: Bounds, root: bool, c: nat, r: Shrunk<P>, left: Option<Node<P>>, right: Option<Node<P>>,
                       minKey: nat, maxKey: nat)
    requires WF(t, h, b.lo, b.hi, root) && t.Internal? && c < |t.kids|
    requires !r.Replaced? && !r.MergedWithLeft? && !r.MergedWithRight?
    requires r.StoleFromLeft? ==> c > 0
    requires r.StoleFromRight? ==> c < |t.keys|
    requires ShrunkOk(r, h - 1, KidBounds(t.keys, b.lo, b.hi, c), false) && Alike(t, left) && Alike(t, right)
    ensures ShrunkOk(AfterChild(t.keys, t.kids, c, r, left, right, minKey, maxKey), h, b, root)
  {
    match r
    case Same =>
    case Changed(kid) => ReplaceKid(t.keys, t.kids, h, b.lo, b.hi, c, kid);
    case StoleFromLeft(sib, kid, key) => StolenOk(t, h, b, root, c - 1, sib, kid, key);
    case StoleFromRight(kid, sib, key) => StolenOk(t, h, b, root, c, kid, sib, key);
  }

  lemma StolenOk<P>(t: Node<P>, h: nat, b: Bounds, root: bool, i: nat, k: Node<P>, r: Node<P>, key: nat)
    requires WF(t, h, b.lo, b.hi, root) && t.Internal? && i < |t.keys|
    requires
      var seps := Seps(t.keys, b.lo, b.hi);
      && seps[i] < key < seps[i + 2]
      && WF(k, h - 1, seps[i], key, false) && WF(r, h - 1, key, seps[i + 2], false)
    ensures WF(Internal(t.keys[i := key], t.kids[i := k][i + 1 := r]), h, b.lo, b.hi, root)
  {
    ShiftSep(t.keys, t.kids, h, b.lo, b.hi, i, k, r, key);
  }

  lemma MergedOk<P>(t: Node<P>, h: nat, b: Bounds, root: bool, i: nat, k: Node<P>, left: Option<Node<P>>, right: Option<Node<P>>,
                    minKey: nat, maxKey: nat)
    requires WF(t, h, b.lo, b.hi, root) && t.Internal? && i < |t.keys|
    requires WF(k, h - 1, Seps(t.keys, b.lo, b.hi)[i], Seps(t.keys, b.lo, b.hi)[i + 2], false)
    requires SiblingsOk(left, right, h, b, root) && Alike(t, left) && Alike(t, right)
    requires (left.Some? ==> minKey == b.lo) && (right.Some? ==> maxKey == b.hi)
    ensures ShrunkOk(Rebalance(Drop(t.keys, i), Drop(t.kids[i := k], i + 1), left, right, minKey, maxKey), h, b, root)
  {
    JoinTwo(t.keys, t.kids, h, b.lo, b.hi, i, k);
    RebalanceOk(Drop(t.keys, i), Drop(t.kids[i := k], i + 1), left, right, h, b, root, minKey, maxKey);
  }

  /** Removing keeps the invariant, through every steal, merge and collapse. */
  lemma {:induction false} RemoveKeeps<P>(t: Node<P>, left: Option<Node<P>>, right: Option<Node<P>>, h: nat, b: Bounds, root: bool,
                                          minKey: nat, maxKey: nat, s: nat, l: nat)
    requires WF(t, h, b.lo, b.hi, root) && SiblingsOk(left, right, h, b, root) && b.lo <= s < b.hi
    requires Paired(t) && Alike(t, left) && Alike(t, right)
    requires (left.Some? ==> minKey == b.lo) && (right.Some? ==> maxKey == b.hi)
    ensures ShrunkOk(Remove(t, left, right, minKey, maxKey, s, l), h, b, root)
    decreases t
  {
    if t.Leaf? {
      LeafRemoveOk(t, left, right, h, b, root, s, l);
    } else {
      var c := ChildIdx(t.keys, s);
      assert AlikeAt(t.kids, c);
      CoversSlice(t.keys, b.lo, b.hi, s, c);
      KidSiblings(t, h, b.lo, b.hi, root, c);
      var kb, lk, rk := KidBounds(t.keys, b.lo, b.hi, c), KeyLeft(t.keys, c), KeyRight(t.keys, c);
      RemoveKeeps(t.kids[c], LeftOf(t.kids, c), RightOf(t.kids, c), h - 1, kb, false, lk, rk, s, l);
      var r := Remove(t.kids[c], LeftOf(t.kids, c), RightOf(t.kids, c), lk, rk, s, l);
      AfterChildOk(t, h, b, root, c, r, left, right, minKey, maxKey);
    }
  }

  ghost predicate InRest<P>(x: Entry<P>, kids: seq<Node<P>>, i: nat) {
    exists j :: 0 <= j < |kids| && j != i && j != i + 1 && In(x, kids[j])
  }

  lemma {:induction false} InTwo<P>(kids: seq<Node<P>>, i: nat, k: Node<P>, r: Node<P>, x: Entry<P>)
    requires i + 1 < |kids|
    ensures InKids(x, kids[i := k][i + 1 := r]) <==> In(x, k) || In(x, r) || InRest(x, kids, i)
  {
    var all := kids[i := k][i + 1 := r];
    assert all[i] == k && all[i + 1] == r;
    if InRest(x, kids, i) {
      var j :| 0 <= j < |kids| && j != i && j != i + 1 && In(x, kids[j]);
      assert In(x, all[j]);
    }
    if InKids(x, all) {
      var j :| 0 <= j < |all| && In(x, all[j]);
      assert j != i && j != i + 1 ==> In(x, kids[j]);
    }
  }

  lemma {:induction false} InJoined<P>(kids: seq<Node<P>>, i: nat, k: Node<P>, x: Entry<P>)
    requires i + 1 < |kids|
    ensures InKids(x, Drop(kids[i := k], i + 1)) <==> In(x, k) || InRest(x, kids, i)
  {
    var all := Drop(kids[i := k], i + 1);
    assert all[i] == k;
    if InRest(x, kids, i) {
      var j :| 0 <= j < |kids| && j != i && j != i + 1 && In(x, kids[j]);
      assert all[if j < i then j else j - 1] == kids[j];
    }
    if InKids(x, all) {
      var j :| 0 <= j < |all| && In(x, all[j]);
      assert j != i ==> In(x, kids[if j < i then j else j + 1]);
    }
  }

  lemma {:induction false} AfterChildHolds<P>(t: Node<P>, c: nat, r: Shrunk<P>, left: Option<Node<P>>, right: Option<Node<P>>,
                           minKey: nat, maxKey: nat, x: Entry<P>, kept: bool)
    requires t.Internal? && |t.kids| == |t.keys| + 1 && c < |t.kids| && !r.Replaced?
    requires r.StoleFromLeft? || r.MergedWithLeft? ==> c > 0
    requires r.StoleFromRight? || r.MergedWithRight? ==> c < |t.keys|
    requires Alike(t, left) && Alike(t, right)
    requires ShrunkHolds(r, In(x, t.kids[c]) && kept, InOpt(x, LeftOf(t.kids, c)), InOpt(x, RightOf(t.kids, c)), x)
    requires InOthers(x, t.kids, c) ==> kept
    ensures ShrunkHolds(AfterChild(t.keys, t.kids, c, r, left, right, minKey, maxKey), In(x, t) && kept, InOpt(x, left), InOpt(x, right), x)
    ensures AfterChild(t.keys, t.kids, c, r, left, right, minKey, maxKey).Same? ==> r.Same?
  {
    var kids := t.kids;
    match r
    case Same =>
    case Changed(kid) => InReplaced(kids, c, kid, x);
    case StoleFromLeft(sib, kid, _) =>
      InTwo(kids, c - 1, sib, kid, x);
      RestIsKept(kids, c - 1, c, x);
    case StoleFromRight(kid, sib, _) =>
      InTwo(kids, c, kid, sib, x);
      RestIsKept(kids, c, c, x);
    case MergedWithLeft(sib) => MergedHolds(t, c, c - 1, sib, left, right, minKey, maxKey, x, kept);
    case MergedWithRight(kid) => MergedHolds(t, c, c, kid, left, right, minKey, maxKey, x, kept);
  }

  lemma {:induction false} MergedHolds<P>(t: Node<P>, c: nat, i: nat, k: Node<P>, left: Option<Node<P>>, right: Option<Node<P>>,
                       minKey: nat, maxKey: nat, x: Entry<P>, kept: bool)
    requires t.Internal? && |t.kids| == |t.keys| + 1 && i < |t.keys| && (c == i || c == i + 1)
    requires Alike(t, left) && Alike(t, right)
    requires In(x, k) <==> (In(x, t.kids[c]) && kept) || In(x, t.kids[if c == i then i + 1 else i])
    requires InOthers(x, t.kids, c) ==> kept
    ensures
      var r := Rebalance(Drop(t.keys, i), Drop(t.kids[i := k], i + 1), left, right, minKey, maxKey);
      ShrunkHolds(r, In(x, t) && kept, InOpt(x, left), InOpt(x, right), x) && !r.Same?
  {
    InJoined(t.kids, i, k, x);
    RestIsKept(t.kids, i, c, x);
    RebalanceHolds(Drop(t.keys, i), Drop(t.kids[i := k], i + 1), left, right, minKey, maxKey, x);
  }

  /** The children other than c: its neighbour, and the rest. */
  lemma RestIsKept<P>(kids: seq<Node<P>>, i: nat, c: nat, x: Entry<P>)
    requires i + 1 < |kids| && (c == i || c == i + 1)
    ensures InKids(x, kids) <==> In(x, kids[i]) || In(x, kids[i + 1]) || InRest(x, kids, i)
    ensures InOthers(x, kids, c) <==> In(x, kids[if c == i then i + 1 else i]) || InRest(x, kids, i)
  {
  }

  /** Removing leaves exactly the other entries, and changes nothing only if there was
      nothing to remove. */
  lemma {:induction false} RemoveHolds<P>(t: Node<P>, left: Option<Node<P>>, right: Option<Node<P>>, h: nat, lo: nat, hi: nat, root: bool,
                                          minKey: nat, maxKey: nat, s: nat, l: nat, x: Entry<P>)
    requires WF(t, h, lo, hi, root) && lo <= s < hi && Paired(t) && Alike(t, left) && Alike(t, right)
    ensures ShrunkHolds(Remove(t, left, right, minKey, maxKey, s, l), In(x, t) && !At(x, s, l), InOpt(x, left), InOpt(x, right), x)
    ensures Remove(t, left, right, minKey, maxKey, s, l).Same? && In(x, t) ==> !At(x, s, l)
    decreases t
  {
    if t.Leaf? {
      LeafRemoveHolds(t, left, right, s, l, x);
    } else {
      var c := ChildIdx(t.keys, s);
      assert AlikeAt(t.kids, c);
      CoversSlice(t.keys, lo, hi, s, c);
      KidSiblings(t, h, lo, hi, root, c);
      var kb, lk, rk := KidBounds(t.keys, lo, hi, c), KeyLeft(t.keys, c), KeyRight(t.keys, c);
      RemoveHolds(t.kids[c], LeftOf(t.kids, c), RightOf(t.kids, c), h - 1, kb.lo, kb.hi, false, lk, rk, s, l, x);
      OthersElsewhere(t, h, lo, hi, root, c, s, x);
      var r := Remove(t.kids[c], LeftOf(t.kids, c), RightOf(t.kids, c), lk, rk, s, l);
      AfterChildHolds(t, c, r, left, right, minKey, maxKey, x, !At(x, s, l));
    }
  }

  lemma OthersElsewhere<P>(t: Node<P>, h: nat, lo: nat, hi: nat, root: bool, c: nat, s: nat, x: Entry<P>)
    requires WF(t, h, lo, hi, root) && t.Internal? && lo <= s < hi && c == ChildIdx(t.keys, s)
    ensures InOthers(x, t.kids, c) ==> x.slice != s
    ensures In(x, t) <==> In(x, t.kids[c]) || InOthers(x, t.kids, c)
  {
    OthersDiffer(t, h, lo, hi, root, c, x.(slice := s), x);
  }

  /** Removing from a whole layer: the result is a layer with exactly the other entries. */
  lemma RemoveRootCorrect<P>(t: Node<P>, s: nat, l: nat)
    requires Root(t) && s < TOP
    ensures Paired(t) && Root(RemoveRoot(t, s, l))
    ensures forall x :: In(x, RemoveRoot(t, s, l)) <==> In(x, t) && !At(x, s, l)
  {
    var h, b := Height(t), Bounds(0, 0, TOP, 0);
    WFPaired(t, h, 0, TOP, true);
    RemoveKeeps(t, None, None, h, b, true, 0, 0, s, l);
    forall x
      ensures In(x, RemoveRoot(t, s, l)) <==> In(x, t) && !At(x, s, l)
    {
      RemoveHolds(t, None, None, h, 0, TOP, true, 0, 0, s, l, x);
    }
    match Remove(t, None, None, 0, 0, s, l)
    case Same =>
    case Changed(node) => HeightIs(node, h, 0, TOP, true);
    case Replaced(node) => HeightIs(node, h - 1, 0, TOP, true);
  }
}
