/** How a leaf that has become too small takes entries from a sibling or joins it, on the
    nodes' arrays (the leaf case of remove0 in silo/btree_impl.h). */
module BTreeSiblings {
  import opened Common
  import opened BTree
  import opened BTreeInsert
  import opened BTreeRemove
  import opened BTreeArrays

  /** remove_status, as far as leaves are concerned. */
  datatype Status = NoneNoMod | NoneMod | StoleRight | MergeRight | StoleLeft | MergeLeft

  /** The nodes that a status leaves behind. */
  function Outcome<P>(status: Status, left: Node<P>, node: Node<P>, right: Node<P>, key: nat): Shrunk<P> {
    match status
    case NoneNoMod => Shrunk.Same
    case NoneMod => Shrunk.Changed(node)
    case StoleRight => Shrunk.StoleFromRight(node, right, key)
    case MergeRight => Shrunk.MergedWithRight(node)
    case StoleLeft => Shrunk.StoleFromLeft(left, node, key)
    case MergeLeft => Shrunk.MergedWithLeft(left)
  }

  function AsNode<P>(l: LeafNode<P>): Node<P>
    requires l.Valid()
    reads l, l.slots
  {
    Leaf(l.minKey, l.Entries())
  }

  /** The loop for the end of the first run of equal slices. */
  method FirstRun<P>(a: array<Entry<P>>, n: nat) returns (sp: nat)
    requires 0 < n <= a.Length
    ensures sp == RightSplit(a[..n], 1)
  {
    sp := 1;
    var i := 0;
    while i < n - 1
      invariant i == sp - 1 && 1 <= sp <= n
      invariant RightSplit(a[..n], sp) == RightSplit(a[..n], 1)
    {
      if a[i].slice != a[sp].slice {
        break;
      }
      i, sp := i + 1, sp + 1;
    }
  }

  /** The loop for the start of the last run of equal slices. */
  method LastRun<P>(a: array<Entry<P>>, n: nat) returns (sp: nat)
    requires 0 < n <= a.Length
    ensures sp == LeftSplit(a[..n], n - 1)
  {
    sp := n - 1;
    var i := sp - 1;
    while i >= 0
      invariant i == sp - 1 && 0 <= sp < n
      invariant LeftSplit(a[..n], sp) == LeftSplit(a[..n], n - 1)
    {
      if a[i].slice != a[sp].slice {
        break;
      }
      i, sp := i - 1, sp - 1;
    }
  }

  /** Drops the entry at p and takes the first m entries of the right sibling. */
  method DropAndAppend<P>(leaf: LeafNode<P>, right: LeafNode<P>, p: nat, m: nat)
    requires leaf.Valid() && right.Valid() && leaf != right && leaf.slots != right.slots
    requires p < leaf.used && m <= right.used && leaf.used - 1 + m <= N
    modifies leaf`used, leaf.slots
    ensures leaf.Valid() && leaf.Entries() == Drop(old(leaf.Entries()), p) + right.Entries()[..m]
  {
    var n := leaf.used;
    leaf.RemovePos(p);
    ghost var kept := leaf.Entries();
    CopyInto(leaf.slots, n - 1, right.slots, 0, m);
    leaf.used := n - 1 + m;
    assert leaf.slots[..n - 1] == kept;
    assert leaf.slots[..n - 1 + m] == leaf.slots[..n - 1] + leaf.slots[n - 1..n - 1 + m];
  }

  /** The leaf drops the entry at p and turns to its right sibling: it steals a run of equal
      slices, or merges, or stays as it is. */
  method TurnRight<P>(leaf: LeafNode<P>, right: LeafNode<P>, p: nat) returns (status: Status, key: nat)
    requires leaf.Valid() && right.Valid() && leaf != right && leaf.slots != right.slots
    requires p < leaf.used <= MIN_KEYS && 0 < right.used
    modifies leaf`used, leaf.slots, right`used, right`minKey, right.slots
    ensures leaf.Valid() && right.Valid()
    ensures
      Outcome(status, AsNode(leaf), AsNode(leaf), AsNode(right), key) ==
      LeafFromRight(leaf.minKey, Drop(old(leaf.Entries()), p), old(right.Entries()))
  {
    key := 0;
    if right.used > MIN_KEYS {
      var sp := FirstRun(right.slots, right.used);
      if leaf.used - 1 + sp <= N && sp < right.used {
        key := StealRight(leaf, right, p, sp);
        return StoleRight, key;
      }
      if leaf.used - 1 + right.used > N {
        leaf.RemovePos(p);
        return NoneMod, key;
      }
    }
    assert right.Entries()[..right.used] == right.Entries();
    DropAndAppend(leaf, right, p, right.used);
    return MergeRight, key;
  }

  method StealRight<P>(leaf: LeafNode<P>, right: LeafNode<P>, p: nat, sp: nat) returns (key: nat)
    requires leaf.Valid() && right.Valid() && leaf != right && leaf.slots != right.slots
    requires p < leaf.used && sp < right.used && leaf.used - 1 + sp <= N
    modifies leaf`used, leaf.slots, right`used, right`minKey, right.slots
    ensures leaf.Valid() && right.Valid()
    ensures leaf.Entries() == Drop(old(leaf.Entries()), p) + old(right.Entries())[..sp]
    ensures right.Entries() == old(right.Entries())[sp..]
    ensures key == right.minKey == old(right.Entries())[sp].slice
  {
    DropAndAppend(leaf, right, p, sp);
    SiftLeft(right.slots, 0, right.used, sp);
    right.used := right.used - sp;
    key := right.slots[0].slice;
    right.minKey := key;
  }

  /** The mirror image, with the left sibling. */
  method TurnLeft<P>(left: LeafNode<P>, leaf: LeafNode<P>, p: nat, ghost es: seq<Entry<P>>, ghost ls: seq<Entry<P>>)
    returns (status: Status, key: nat)
    requires leaf.Valid() && left.Valid() && leaf != left && leaf.slots != left.slots
    requires p < leaf.used <= MIN_KEYS && 0 < left.used && es == Drop(leaf.Entries(), p) && ls == left.Entries()
    modifies leaf`used, leaf`minKey, leaf.slots, left`used, left.slots
    ensures leaf.Valid() && left.Valid()
    ensures
      Outcome(status, AsNode(left), AsNode(leaf), AsNode(leaf), key) ==
      LeafFromLeft(old(leaf.minKey), es, old(left.minKey), ls)
  {
    key := 0;
    if left.used > MIN_KEYS {
      var sp := LastRun(left.slots, left.used);
      if leaf.used - 1 + (left.used - sp) <= N && sp > 0 {
        key := StealLeft(left, leaf, p, sp, es, ls);
        return StoleLeft, key;
      }
      if left.used + (leaf.used - 1) > N {
        leaf.RemovePos(p);
        return NoneMod, key;
      }
    }
    JoinLeft(left, leaf, p, es, ls);
    return MergeLeft, key;
  }

  method StealLeft<P>(left: LeafNode<P>, leaf: LeafNode<P>, p: nat, sp: nat, ghost es: seq<Entry<P>>, ghost ls: seq<Entry<P>>)
    returns (key: nat)
    requires leaf.Valid() && left.Valid() && leaf != left && leaf.slots != left.slots
    requires p < leaf.used && 0 < sp < left.used && leaf.used - 1 + (left.used - sp) <= N
    requires es == Drop(leaf.Entries(), p) && ls == left.Entries()
    modifies leaf`used, leaf`minKey, leaf.slots, left`used
    ensures leaf.Valid() && left.Valid()
    ensures leaf.Entries() == ls[sp..] + es && left.Entries() == ls[..sp] && key == leaf.minKey == ls[sp].slice
  {
    MakeRoom(leaf.slots, leaf.used, p, left.used - sp);
    var m := left.used - sp;
    assert leaf.slots[m..][..leaf.used - 1] == es;
    CopyInto(leaf.slots, 0, left.slots, sp, left.used);
    leaf.used := leaf.used - 1 + m;
    assert leaf.slots[..leaf.used] == leaf.slots[..m] + leaf.slots[m..][..leaf.used - m];
    left.used := sp;
    key := leaf.slots[0].slice;
    leaf.minKey := key;
  }

  /** Drops the entry at p of the first n and moves the others to the right by m. */
  method MakeRoom<T>(a: array<T>, n: nat, p: nat, m: nat)
    requires p < n && 0 < m && n - 1 + m <= a.Length
    modifies a
    ensures a[m..n - 1 + m] == Drop(old(a[..n]), p)
  {
    ghost var b0 := a[..];
    SiftRight(a, p + 1, n, m - 1);
    ghost var b1 := a[..];
    SiftRight(a, 0, p, m);
    RoomMade(b0, b1, a[..], n, p, m);
    assert a[..][m..n - 1 + m] == a[m..n - 1 + m] && b0[..n] == old(a[..n]);
  }

  lemma RoomMade<T>(b0: seq<T>, b1: seq<T>, b2: seq<T>, n: nat, p: nat, m: nat)
    requires p < n && 0 < m && n - 1 + m <= |b0| == |b1| == |b2|
    requires b1[..p + 1] == b0[..p + 1] && b1[p + m..n - 1 + m] == b0[p + 1..n]
    requires b2[m..p + m] == b1[..p] && b2[p + m..] == b1[p + m..]
    ensures b2[m..n - 1 + m] == Drop(b0[..n], p)
  {
    forall i | 0 <= i < n - 1
      ensures b2[m + i] == Drop(b0[..n], p)[i]
    {
      if i < p {
        assert b2[m + i] == b2[m..p + m][i] == b1[..p][i] == b1[..p + 1][i];
      } else {
        assert b2[m + i] == b2[p + m..][i - p] == b1[p + m..][i - p];
        assert b1[m + i] == b1[p + m..n - 1 + m][i - p] == b0[p + 1..n][i - p];
      }
    }
  }

  method JoinLeft<P>(left: LeafNode<P>, leaf: LeafNode<P>, p: nat, ghost es: seq<Entry<P>>, ghost ls: seq<Entry<P>>)
    requires leaf.Valid() && left.Valid() && leaf != left && leaf.slots != left.slots
    requires p < leaf.used && left.used + (leaf.used - 1) <= N
    requires es == Drop(leaf.Entries(), p) && ls == left.Entries()
    modifies left`used, left.slots
    ensures left.Valid() && left.Entries() == ls + es
  {
    var n, m := leaf.used, left.used;
    ghost var b0 := left.slots[..];
    CopyInto(left.slots, m, leaf.slots, 0, p);
    ghost var b1 := left.slots[..];
    CopyInto(left.slots, m + p, leaf.slots, p + 1, n);
    left.used := m + (n - 1);
    RoomFilled(b0, b1, left.slots[..], leaf.slots[..n], m, p);
    assert left.slots[..][..m + (n - 1)] == left.slots[..m + (n - 1)];
  }

  lemma RoomFilled<T>(b0: seq<T>, b1: seq<T>, b2: seq<T>, es: seq<T>, m: nat, p: nat)
    requires p < |es| && m + (|es| - 1) <= |b0| == |b1| == |b2|
    requires b1[..m] == b0[..m] && b1[m..m + p] == es[..p]
    requires b2[..m + p] == b1[..m + p] && b2[m + p..m + (|es| - 1)] == es[p + 1..]
    ensures b2[..m + (|es| - 1)] == b0[..m] + Drop(es, p)
  {
    assert b1[..m + p] == b1[..m] + b1[m..m + p];
    assert b2[..m + (|es| - 1)] == b2[..m + p] + b2[m + p..m + (|es| - 1)];
  }

  /** A sibling, if there is one. */
  ghost function Memory<P>(l: LeafNode?<P>): set<object> { if l == null then {} else {l, l.slots} }

  ghost function Opt<P>(l: LeafNode?<P>): Option<Node<P>>
    requires l != null ==> l.Valid()
    reads l, Memory(l)
  {
    if l == null then None else Some(AsNode(l))
  }

  ghost predicate Beside<P>(leaf: LeafNode<P>, l: LeafNode?<P>)
    reads Memory(l)
  {
    l != null ==> l.Valid() && 0 < l.used && l != leaf && l.slots != leaf.slots
  }

  /** The leaf case of remove0, from the search to the status: the arrays of the leaf and its
      siblings become what the removal from a leaf says of the nodes. */
  method RemoveFromLeaf<P>(left: LeafNode?<P>, leaf: LeafNode<P>, right: LeafNode?<P>, s: nat, l: nat)
    returns (status: Status, key: nat)
    requires leaf.Valid() && Ascending(leaf.Entries()) && Beside(leaf, left) && Beside(leaf, right)
    modifies leaf, leaf.slots, Memory(left), Memory(right)
    ensures leaf.Valid() && (left != null ==> left.Valid()) && (right != null ==> right.Valid())
    ensures
      var node := AsNode(leaf);
      Outcome(status, if left != null then AsNode(left) else node, node, if right != null then AsNode(right) else node, key) ==
      LeafRemove(old(AsNode(leaf)), old(Opt(left)), old(Opt(right)), s, l)
  {
    var p := KeySearch(leaf.slots, leaf.used, s, l);
    key := 0;
    if p == -1 {
      return NoneNoMod, key;
    }
    if leaf.used <= MIN_KEYS && right != null {
      status, key := TurnRight(leaf, right, p);
    } else if leaf.used <= MIN_KEYS && left != null {
      status, key := TurnLeft(left, leaf, p, Drop(leaf.Entries(), p), left.Entries());
    } else {
      leaf.RemovePos(p);
      status := NoneMod;
    }
  }
}
