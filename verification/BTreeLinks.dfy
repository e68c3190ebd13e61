/** The doubly linked row of a layer's leaves: the pointer updates of splits and merges, and
    that through every insert and removal the links thread exactly the leaves of the tree. */
module BTreeLinks {
  import opened Common
  import opened BTree
  import opened BTreeInsert
  import opened BTreeRemove
  import opened BTreeRow

  /** A leaf node: its contents and its place in the row. */
  class LeafLink<P> {
    var leaf: Node<P>
    var prev: LeafLink?<P>
    var next: LeafLink?<P>

    constructor (leaf: Node<P>)
      ensures this.leaf == leaf && prev == null && next == null
    {
      this.leaf, prev, next := leaf, null, null;
    }
  }

  ghost predicate LinkedAt<P>(ls: seq<LeafLink<P>>, i: nat)
    requires i < |ls|
    reads ls`prev, ls`next
  {
    && ls[i].prev == (if i > 0 then ls[i - 1] else null)
    && ls[i].next == (if i + 1 < |ls| then ls[i + 1] else null)
  }

  predicate Differ<P>(ls: seq<LeafLink<P>>, i: nat, j: nat)
    requires i < |ls| && j < |ls|
  {
    ls[i] != ls[j]
  }

  /** The pointers link exactly these leaves, in this order, both ways. */
  ghost predicate Linked<P>(ls: seq<LeafLink<P>>)
    reads ls`prev, ls`next
  {
    && (forall i, j {:trigger Differ(ls, i, j)} :: 0 <= i < j < |ls| ==> Differ(ls, i, j))
    && (forall i {:trigger LinkedAt(ls, i)} :: 0 <= i < |ls| ==> LinkedAt(ls, i))
  }

  ghost predicate Holds<P>(ls: seq<LeafLink<P>>, row: seq<Node<P>>)
    reads ls`leaf
  {
    |ls| == |row| && forall i :: 0 <= i < |ls| ==> ls[i].leaf == row[i]
  }

  /** The links thread the leaves of t. */
  ghost predicate Threads<P>(ls: seq<LeafLink<P>>, t: Node<P>)
    reads ls
  {
    Linked(ls) && Holds(ls, Leaves(t))
  }

  ghost function Next<P>(l: LeafLink<P>): set<LeafLink<P>>
    reads l
  {
    if l.next != null then {l.next} else {}
  }

  lemma AllDiffer<P>(ls: seq<LeafLink<P>>)
    requires Linked(ls)
    ensures forall i, j :: 0 <= i < j < |ls| ==> ls[i] != ls[j]
  {
    forall i, j | 0 <= i < j < |ls|
      ensures ls[i] != ls[j]
    {
      assert Differ(ls, i, j);
    }
  }

  /** The pointer adjustment after a leaf split: the new leaf comes right after the old. */
  method LinkNew<P>(leaf: LeafLink<P>, newLeaf: LeafLink<P>, ghost ls: seq<LeafLink<P>>, ghost i: nat)
    requires Linked(ls) && i < |ls| && ls[i] == leaf && newLeaf !in ls
    modifies leaf`next, newLeaf`prev, newLeaf`next, Next(leaf)`prev
    ensures Linked(Spliced(ls, i, 1, [leaf, newLeaf]))
  {
    AllDiffer(ls);
    assert LinkedAt(ls, i);
    newLeaf.prev := leaf;
    newLeaf.next := leaf.next;
    if leaf.next != null {
      leaf.next.prev := newLeaf;
    }
    leaf.next := newLeaf;
    ghost var all := Spliced(ls, i, 1, [leaf, newLeaf]);
    forall j | 0 <= j < |all|
      ensures LinkedAt(all, j)
    {
      assert j < i ==> old(LinkedAt(ls, j));
      assert j > i + 1 ==> old(LinkedAt(ls, j - 1));
    }
  }

  /** The pointer adjustment after a merge: the leaf that was next leaves the row. */
  method UnlinkNext<P>(leaf: LeafLink<P>, next: LeafLink<P>, ghost ls: seq<LeafLink<P>>, ghost i: nat)
    requires Linked(ls) && i + 1 < |ls| && ls[i] == leaf && ls[i + 1] == next
    modifies leaf`next, Next(next)`prev
    ensures Linked(Drop(ls, i + 1))
  {
    AllDiffer(ls);
    assert LinkedAt(ls, i) && LinkedAt(ls, i + 1);
    leaf.next := next.next;
    if next.next != null {
      next.next.prev := leaf;
    }
    ghost var all := Drop(ls, i + 1);
    forall j | 0 <= j < |all|
      ensures LinkedAt(all, j)
    {
      assert j <= i ==> old(LinkedAt(ls, j));
      assert j > i ==> old(LinkedAt(ls, j + 1));
    }
  }

  /** One leaf takes the place of n and is given its contents. */
  method FillOne<P>(a: LeafLink<P>, x: Node<P>, ghost ls: seq<LeafLink<P>>, ghost row: seq<Node<P>>, ghost p: nat, ghost n: nat)
    requires Holds(ls, row) && p + n <= |ls| && a !in ls[..p] && a !in ls[p + n..]
    modifies a`leaf
    ensures Holds(Spliced(ls, p, n, [a]), Spliced(row, p, n, [x]))
  {
    a.leaf := x;
    HeldAfter(ls, row, p, n, [a], [x]);
  }

  /** Two leaves take the place of n. */
  method FillTwo<P>(a: LeafLink<P>, x: Node<P>, b: LeafLink<P>, y: Node<P>, ghost ls: seq<LeafLink<P>>, ghost row: seq<Node<P>>,
                    ghost p: nat, ghost n: nat)
    requires Holds(ls, row) && p + n <= |ls| && a != b
    requires a !in ls[..p] && a !in ls[p + n..] && b !in ls[..p] && b !in ls[p + n..]
    modifies a`leaf, b`leaf
    ensures Holds(Spliced(ls, p, n, [a, b]), Spliced(row, p, n, [x, y]))
  {
    a.leaf, b.leaf := x, y;
    HeldAfter(ls, row, p, n, [a, b], [x, y]);
  }

  lemma HeldAfter<P>(ls: seq<LeafLink<P>>, row: seq<Node<P>>, p: nat, n: nat, links: seq<LeafLink<P>>, news: seq<Node<P>>)
    requires |ls| == |row| && p + n <= |ls| && Holds(links, news)
    requires forall i :: 0 <= i < p || p + n <= i < |ls| ==> ls[i].leaf == row[i]
    ensures Holds(Spliced(ls, p, n, links), Spliced(row, p, n, news))
  {
    var ls', row' := Spliced(ls, p, n, links), Spliced(row, p, n, news);
    forall i | 0 <= i < |ls'|
      ensures ls'[i].leaf == row'[i]
    {
      if p <= i < p + |links| {
        assert links[i - p].leaf == news[i - p];
      }
    }
  }

  /** The links around the places p to p + n are all different from those there. */
  lemma Others<P>(ls: seq<LeafLink<P>>, p: nat, n: nat, i: nat)
    requires Linked(ls) && p + n <= |ls| && p <= i < p + n
    ensures ls[i] !in ls[..p] && ls[i] !in ls[p + n..]
  {
    AllDiffer(ls);
  }

  lemma OneLeaf<P>(t: Node<P>, e: Entry<P>, last: bool)
    requires t.Leaf? && |t.entries| <= N && Tidy(t.entries)
    ensures
      var g := LeafPut(t, e, last);
      GrownLeaves(g) == if g.One? then [g.node] else [g.left, g.right]
  {}

  /** New contents for a leaf. */
  method SetOne<P>(leaf: LeafLink<P>, x: Node<P>, ghost ls: seq<LeafLink<P>>, ghost row: seq<Node<P>>, ghost i: nat)
    requires Linked(ls) && Holds(ls, row) && i < |ls| && leaf == ls[i]
    modifies leaf`leaf
    ensures Linked(ls) && Holds(ls, Spliced(row, i, 1, [x]))
  {
    Others(ls, i, 1, i);
    FillOne(leaf, x, ls, row, i, 1);
    assert Spliced(ls, i, 1, [leaf]) == ls;
  }

  /** A leaf shares its contents with a new one, which comes right after it. */
  method Split<P>(leaf: LeafLink<P>, x: Node<P>, newLeaf: LeafLink<P>, y: Node<P>, ghost ls: seq<LeafLink<P>>,
                  ghost row: seq<Node<P>>, ghost i: nat)
    requires Linked(ls) && Holds(ls, row) && i < |ls| && leaf == ls[i] && newLeaf !in ls
    modifies leaf`leaf, leaf`next, newLeaf, Next(leaf)`prev
    ensures Linked(Spliced(ls, i, 1, [leaf, newLeaf])) && Holds(Spliced(ls, i, 1, [leaf, newLeaf]), Spliced(row, i, 1, [x, y]))
  {
    Others(ls, i, 1, i);
    assert newLeaf !in ls[..i] && newLeaf !in ls[i + 1..];
    LinkNew(leaf, newLeaf, ls, i);
    FillTwo(leaf, x, newLeaf, y, ls, row, i, 1);
  }

  /** What has become of a leaf, itself or two, takes its place in the row. */
  method ReplaceLeaf<P>(leaf: LeafLink<P>, newLeaf: LeafLink<P>, g: Grown<P>, ghost ls: seq<LeafLink<P>>,
                        ghost row: seq<Node<P>>, ghost i: nat)
    returns (ghost after: seq<LeafLink<P>>)
    requires Linked(ls) && Holds(ls, row) && i < |ls| && leaf == ls[i] && newLeaf !in ls
    modifies leaf`leaf, leaf`next, newLeaf, Next(leaf)`prev
    ensures Linked(after) && Holds(after, Spliced(row, i, 1, if g.One? then [g.node] else [g.left, g.right]))
  {
    match g {
      case One(node) =>
        SetOne(leaf, node, ls, row, i);
        after := ls;
      case Two(left, _, right) =>
        Split(leaf, left, newLeaf, right, ls, row, i);
        after := Spliced(ls, i, 1, [leaf, newLeaf]);
    }
  }

  /** An insert at the responsible leaf, which splits if it must: the links thread the
      leaves of the new tree. */
  method InsertAtLeaf<P>(ghost t: Node<P>, e: Entry<P>, ghost ls: seq<LeafLink<P>>, leaf: LeafLink<P>, newLeaf: LeafLink<P>)
    returns (ghost after: seq<LeafLink<P>>)
    requires Root(t) && Fits(e, 0, TOP) && Threads(ls, t) && newLeaf !in ls
    requires Start(t, e.slice) < |ls| && leaf == ls[Start(t, e.slice)]
    modifies leaf`leaf, leaf`next, newLeaf, Next(leaf)`prev
    ensures Shaped(t) && Threads(after, InsertRoot(t, e))
  {
    InsertRootRow(t, e);
    assert LinkedAt(ls, Start(t, e.slice));
    OneLeaf(leaf.leaf, e, leaf.next == null);
    after := ReplaceLeaf(leaf, newLeaf, LeafPut(leaf.leaf, e, leaf.next == null), ls, Leaves(t), Start(t, e.slice));
  }

  /** New contents for two neighbours. */
  method SetTwo<P>(leaf: LeafLink<P>, x: Node<P>, next: LeafLink<P>, y: Node<P>, ghost ls: seq<LeafLink<P>>,
                   ghost row: seq<Node<P>>, ghost i: nat)
    requires Linked(ls) && Holds(ls, row) && i + 1 < |ls| && leaf == ls[i] && next == ls[i + 1]
    modifies leaf`leaf, next`leaf
    ensures Linked(ls) && Holds(ls, Spliced(row, i, 2, [x, y]))
  {
    Others(ls, i, 2, i);
    Others(ls, i, 2, i + 1);
    assert Differ(ls, i, i + 1);
    FillTwo(leaf, x, next, y, ls, row, i, 2);
    assert Spliced(ls, i, 2, [leaf, next]) == ls;
  }

  /** A leaf takes over the contents of both and its neighbour leaves the row. */
  method Merge<P>(leaf: LeafLink<P>, next: LeafLink<P>, x: Node<P>, ghost ls: seq<LeafLink<P>>, ghost row: seq<Node<P>>, ghost i: nat)
    requires Linked(ls) && Holds(ls, row) && i + 1 < |ls| && leaf == ls[i] && next == ls[i + 1]
    modifies leaf`leaf, leaf`next, Next(next)`prev
    ensures Linked(Drop(ls, i + 1)) && Holds(Drop(ls, i + 1), Spliced(row, i, 2, [x]))
  {
    Others(ls, i, 2, i);
    UnlinkNext(leaf, next, ls, i);
    FillOne(leaf, x, ls, row, i, 2);
    assert Spliced(ls, i, 2, [leaf]) == Drop(ls, i + 1);
  }

  ghost function Around<P>(l: LeafLink<P>): set<LeafLink<P>>
    reads l, Next(l)
  {
    {l} + (if l.prev != null then {l.prev} else {}) + Next(l) + (if l.next != null then Next(l.next) else {})
  }

  /** What has become of a leaf and a sibling takes their places in the row. */
  method ReplaceShrunk<P>(leaf: LeafLink<P>, r: Shrunk<P>, ghost a: AtLeaf<P>, ghost ls: seq<LeafLink<P>>,
                          ghost row: seq<Node<P>>, ghost i: nat)
    returns (ghost after: seq<LeafLink<P>>)
    requires Linked(ls) && Holds(ls, row) && i < |ls| && leaf == ls[i] && Around3(a, EditOf(r), row, i)
    modifies Around(leaf)
    ensures
      var ed := EditOf(r);
      Linked(after) && Holds(after, Spliced(row, i - ed.back, ed.n, ed.news))
  {
    assert LinkedAt(ls, i);
    after := ls;
    match r {
      case Same => assert Spliced(row, i, 0, []) == row;
      case Changed(node) => SetOne(leaf, node, ls, row, i);
      case Replaced(node) => SetOne(leaf, node, ls, row, i);
      case StoleFromRight(node, sib, _) => SetTwo(leaf, node, leaf.next, sib, ls, row, i);
      case StoleFromLeft(sib, node, _) => SetTwo(leaf.prev, sib, leaf, node, ls, row, i - 1);
      case MergedWithRight(node) =>
        Merge(leaf, leaf.next, node, ls, row, i);
        after := Drop(ls, i + 1);
      case MergedWithLeft(sib) =>
        Merge(leaf.prev, leaf, sib, ls, row, i - 1);
        after := Drop(ls, i);
    }
  }

  /** The siblings under the same parent, found through the links. */
  method Siblings<P>(leaf: LeafLink<P>, hasLeft: bool, hasRight: bool, ghost a: AtLeaf<P>, ghost ed: Edit<P>,
                     ghost ls: seq<LeafLink<P>>, ghost row: seq<Node<P>>, ghost i: nat)
    returns (left: Option<Node<P>>, right: Option<Node<P>>)
    requires Linked(ls) && Holds(ls, row) && i < |ls| && leaf == ls[i] && Around3(a, ed, row, i)
    requires hasLeft == a.left.Some? && hasRight == a.right.Some?
    ensures leaf.leaf == a.leaf && left == a.left && right == a.right
  {
    assert LinkedAt(ls, i);
    left := if hasLeft then Some(leaf.prev.leaf) else None;
    right := if hasRight then Some(leaf.next.leaf) else None;
  }

  /** A removal at the responsible leaf: the links thread the leaves of the new tree.
      hasLeft and hasRight say which neighbours are under the same parent. */
  method RemoveAtLeaf<P>(ghost t: Node<P>, s: nat, l: nat, ghost ls: seq<LeafLink<P>>, leaf: LeafLink<P>,
                         hasLeft: bool, hasRight: bool)
    returns (ghost after: seq<LeafLink<P>>)
    requires Root(t) && s < TOP && Threads(ls, t) && Start(t, s) < |ls| && leaf == ls[Start(t, s)]
    requires Paired(t) && hasLeft == Descend(t, None, None, s).left.Some? && hasRight == Descend(t, None, None, s).right.Some?
    modifies Around(leaf)
    ensures Threads(after, RemoveRoot(t, s, l))
  {
    ghost var a, row, i := Descend(t, None, None, s), Leaves(t), Start(t, s);
    RemoveRootRow(t, s, l);
    ghost var ed := EditOf(LeafRemove(a.leaf, a.left, a.right, s, l));
    var left, right := Siblings(leaf, hasLeft, hasRight, a, ed, ls, row, i);
    after := ReplaceShrunk(leaf, LeafRemove(leaf.leaf, left, right, s, l), a, ls, row, i);
  }
}
