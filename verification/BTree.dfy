/** One layer of the B+-tree of silo/btree.h and silo/btree_impl.h, as a value: nodes of up
    to N keys, entries ordered by (key slice, length), any payload.

    N stands for NKeysPerNode, which the source only requires to exceed 10. */
module BTree {
  import opened Common

  type Fanout = n: nat | n > 10 witness 11
  const N: Fanout
  const MIN_KEYS: nat := N / 2
  const TOP: nat := 0x1_0000_0000_0000_0000     // slices are below 2^64

  /** A leaf's slot: 8 bytes of key as a number, the key length capped at 9, a payload. */
  datatype Entry<P> = Entry(slice: nat, len: nat, payload: P)

  datatype Node<P> =
    | Leaf(minKey: nat, entries: seq<Entry<P>>)
    | Internal(keys: seq<nat>, kids: seq<Node<P>>)

  predicate Before(s: nat, l: nat, s': nat, l': nat) { s < s' || (s == s' && l < l') }

  predicate Less<P>(a: Entry<P>, b: Entry<P>) { Before(a.slice, a.len, b.slice, b.len) }

  predicate Ascending<P>(es: seq<Entry<P>>) {
    forall i, j {:trigger Less(es[i], es[j])} :: 0 <= i < j < |es| ==> Less(es[i], es[j])
  }

  predicate Fits<P>(e: Entry<P>, lo: nat, hi: nat) { lo <= e.slice < hi && e.len <= 9 }

  predicate EntriesOk<P>(es: seq<Entry<P>>, lo: nat, hi: nat) {
    Ascending(es) && forall i :: 0 <= i < |es| ==> Fits(es[i], lo, hi)
  }

  /** The bounds of the children: lo, the keys, hi. */
  function Seps(keys: seq<nat>, lo: nat, hi: nat): seq<nat> { [lo] + keys + [hi] }

  predicate Climbs(s: seq<nat>) { forall i, j :: 0 <= i < j < |s| ==> s[i] < s[j] }

  /** The invariant of a subtree of height h that is responsible for the slices in
      [lo, hi): entries in order, separators between the children and equal to the
      minimum key of the leaf to their right, all leaves at one depth, and the occupancy
      bounds. */
  ghost predicate WF<P>(t: Node<P>, h: nat, lo: nat, hi: nat, root: bool)
    decreases t, 0
  {
    match t
    case Leaf(minKey, es) =>
      h == 0 && minKey == lo && |es| <= N && (!root ==> |es| >= 1) && EntriesOk(es, lo, hi)
    case Internal(keys, kids) =>
      && h > 0 && |kids| == |keys| + 1 && |keys| <= N && |keys| >= (if root then 1 else MIN_KEYS)
      && Climbs(Seps(keys, lo, hi))
      && forall i {:trigger KidOk(kids[i], h, Seps(keys, lo, hi), i)} :: 0 <= i < |kids| ==> KidOk(kids[i], h, Seps(keys, lo, hi), i)
  }

  ghost predicate KidOk<P>(kid: Node<P>, h: nat, seps: seq<nat>, i: int)
    decreases kid, 1
  {
    h > 0 && 0 <= i && i + 1 < |seps| && WF(kid, h - 1, seps[i], seps[i + 1], false)
  }

  function Height<P>(t: Node<P>): nat {
    if t.Leaf? || t.kids == [] then 0 else 1 + Height(t.kids[0])
  }

  /** A whole layer. */
  ghost predicate Root<P>(t: Node<P>) { WF(t, Height(t), 0, TOP, true) }

  ghost predicate In<P>(e: Entry<P>, t: Node<P>) {
    match t
    case Leaf(_, es) => e in es
    case Internal(_, kids) => exists i :: 0 <= i < |kids| && In(e, kids[i])
  }

  // ------------------------------------------------------------------ searching

  /** The child that covers a slice: key_lower_bound_search, plus one. */
  function ChildIdx(keys: seq<nat>, s: nat): (r: nat)
    ensures r <= |keys|
    ensures r > 0 ==> keys[r - 1] <= s
    ensures forall i :: r <= i < |keys| ==> s < keys[i]
  {
    if keys == [] || keys[|keys| - 1] <= s then |keys| else ChildIdx(keys[..|keys| - 1], s)
  }

  /** Where (s, l) is or belongs in a leaf: the lower bound, plus one. */
  function Pos<P>(es: seq<Entry<P>>, s: nat, l: nat): (r: nat)
    ensures r <= |es|
    ensures r > 0 ==> Before(es[r - 1].slice, es[r - 1].len, s, l)
    ensures forall i :: r <= i < |es| ==> !Before(es[i].slice, es[i].len, s, l)
  {
    if es == [] || Before(es[|es| - 1].slice, es[|es| - 1].len, s, l) then |es| else Pos(es[..|es| - 1], s, l)
  }

  predicate At<P>(e: Entry<P>, s: nat, l: nat) { e.slice == s && e.len == l }

  predicate Match<P>(es: seq<Entry<P>>, s: nat, l: nat) {
    Pos(es, s, l) < |es| && At(es[Pos(es, s, l)], s, l)
  }

  /** The descent to the responsible leaf and the search in it. */
  function Find<P>(t: Node<P>, s: nat, l: nat): Option<Entry<P>> {
    match t
    case Leaf(_, es) => if Match(es, s, l) then Some(es[Pos(es, s, l)]) else None
    case Internal(keys, kids) =>
      if ChildIdx(keys, s) < |kids| then Find(kids[ChildIdx(keys, s)], s, l) else None
  }

  lemma {:induction false} InRange<P>(t: Node<P>, h: nat, lo: nat, hi: nat, root: bool, e: Entry<P>)
    requires WF(t, h, lo, hi, root) && In(e, t)
    ensures Fits(e, lo, hi)
    decreases t
  {
    if t.Internal? {
      var i :| 0 <= i < |t.kids| && In(e, t.kids[i]);
      var seps := Seps(t.keys, lo, hi);
      assert KidOk(t.kids[i], h, seps, i);
      InRange(t.kids[i], h - 1, seps[i], seps[i + 1], false, e);
      SepsWithin(t.keys, lo, hi, i);
    }
  }

  lemma SepsWithin(keys: seq<nat>, lo: nat, hi: nat, i: nat)
    requires Climbs(Seps(keys, lo, hi)) && i <= |keys|
    ensures lo <= Seps(keys, lo, hi)[i] < Seps(keys, lo, hi)[i + 1] <= hi
  {
    var seps := Seps(keys, lo, hi);
    assert i > 0 ==> seps[0] < seps[i];
    assert i < |keys| ==> seps[i + 1] < seps[|keys| + 1];
  }

  lemma CoversSlice(keys: seq<nat>, lo: nat, hi: nat, s: nat, i: nat)
    requires Climbs(Seps(keys, lo, hi)) && lo <= s < hi && i <= |keys|
    ensures
      var seps := Seps(keys, lo, hi);
      seps[i] <= s < seps[i + 1] <==> i == ChildIdx(keys, s)
  {
    var seps, c := Seps(keys, lo, hi), ChildIdx(keys, s);
    assert c < |keys| ==> seps[c + 1] == keys[c];
    assert c > 0 ==> seps[c] == keys[c - 1];
    assert seps[c] <= s < seps[c + 1];
    if i < c {
      assert i + 1 < c ==> seps[i + 1] < seps[c];
    } else if c < i {
      assert c + 1 < i ==> seps[c + 1] < seps[i];
    }
  }

  /** An entry is in exactly the child that covers its slice. */
  lemma InChild<P>(t: Node<P>, h: nat, lo: nat, hi: nat, root: bool, e: Entry<P>)
    requires WF(t, h, lo, hi, root) && t.Internal? && lo <= e.slice < hi
    ensures ChildIdx(t.keys, e.slice) < |t.kids|
    ensures In(e, t) <==> In(e, t.kids[ChildIdx(t.keys, e.slice)])
  {
    if In(e, t) {
      var i :| 0 <= i < |t.kids| && In(e, t.kids[i]);
      var seps := Seps(t.keys, lo, hi);
      assert KidOk(t.kids[i], h, seps, i);
      InRange(t.kids[i], h - 1, seps[i], seps[i + 1], false, e);
      CoversSlice(t.keys, lo, hi, e.slice, i);
    }
  }

  lemma PosUnique<P>(es: seq<Entry<P>>, s: nat, l: nat, i: nat)
    requires Ascending(es) && i < |es| && At(es[i], s, l)
    ensures Pos(es, s, l) == i
  {
    var p := Pos(es, s, l);
    assert p > 0 && i <= p - 1 ==> es[i] == es[p - 1] || Less(es[i], es[p - 1]);
    assert i > p ==> Less(es[p], es[i]);
  }

  /** Searching a layer finds exactly the entry with the given slice and length. */
  lemma {:induction false} FindIsIn<P>(t: Node<P>, h: nat, lo: nat, hi: nat, root: bool, s: nat, l: nat, e: Entry<P>)
    requires WF(t, h, lo, hi, root) && lo <= s < hi
    ensures Find(t, s, l) == Some(e) <==> In(e, t) && At(e, s, l)
    decreases t
  {
    match t
    case Leaf(_, es) =>
      if e in es && At(e, s, l) {
        var i :| 0 <= i < |es| && es[i] == e;
        PosUnique(es, s, l, i);
      }
    case Internal(keys, kids) =>
      var c, seps := ChildIdx(keys, s), Seps(keys, lo, hi);
      CoversSlice(keys, lo, hi, s, c);
      assert KidOk(kids[c], h, seps, c);
      FindIsIn(kids[c], h - 1, seps[c], seps[c + 1], false, s, l, e);
      if At(e, s, l) {
        InChild(t, h, lo, hi, root, e);
      }
  }
}
