/** The array operations of the B+-tree's nodes (silo/btree.h): binary searches, the sifts
    and copies, and a leaf that uses them.  keys_, values_, lengths_ and suffixes_ always
    move together, so a leaf here has one array of entries. */
module BTreeArrays {
  import opened BTree
  import opened BTreeInsert
  import opened BTreeRemove

  /** sift_right: moves [p, n) to the right by k. */
  method SiftRight<T>(a: array<T>, p: nat, n: nat, k: nat)
    requires p <= n && n + k <= a.Length
    modifies a
    ensures a[..p] == old(a[..p]) && a[p + k..n + k] == old(a[p..n]) && a[n + k..] == old(a[n + k..])
  {
    if k == 0 {
      return;
    }
    var i := n + k - 1;
    while i > p + k - 1
      invariant p + k - 1 <= i <= n + k - 1
      invariant forall j :: 0 <= j <= i ==> a[j] == old(a[j])
      invariant forall j :: i < j < n + k ==> a[j] == old(a[j - k])
      invariant forall j :: n + k <= j < a.Length ==> a[j] == old(a[j])
    {
      a[i] := a[i - k];
      i := i - 1;
    }
    ghost var here, there := a[p + k..n + k], old(a[p..n]);
    forall j | 0 <= j < |here|
      ensures here[j] == there[j]
    {
      assert a[p + k + j] == old(a[p + j]);
    }
  }

  /** sift_left: moves [p + k, n) to the left by k. */
  method SiftLeft<T>(a: array<T>, p: nat, n: nat, k: nat)
    requires p + k <= n <= a.Length
    modifies a
    ensures a[..p] == old(a[..p]) && a[p..n - k] == old(a[p + k..n]) && a[n..] == old(a[n..])
  {
    if p + k >= n {
      return;
    }
    for i := p to n - k
      invariant a[..p] == old(a[..p])
      invariant forall j :: p <= j < i ==> a[j] == old(a[j + k])
      invariant forall j :: i <= j < a.Length ==> a[j] == old(a[j])
    {
      a[i] := a[i + k];
    }
    ghost var here, there := a[p..n - k], old(a[p + k..n]);
    forall j | 0 <= j < |here|
      ensures here[j] == there[j]
    {
      assert a[p + j] == old(a[p + j + k]);
    }
  }

  /** copy_into: copies [p, n) of one array to another, from position d on. */
  method CopyInto<T>(dest: array<T>, d: nat, source: array<T>, p: nat, n: nat)
    requires dest != source && p <= n <= source.Length && d + (n - p) <= dest.Length
    modifies dest
    ensures dest[..d] == old(dest[..d]) && dest[d..d + (n - p)] == source[p..n]
    ensures dest[d + (n - p)..] == old(dest[d + (n - p)..])
  {
    for i := p to n
      invariant dest[..d] == old(dest[..d])
      invariant dest[d..d + (i - p)] == source[p..i]
      invariant dest[d + (i - p)..] == old(dest[d + (i - p)..])
    {
      dest[d + (i - p)] := source[i];
      assert source[p..i + 1] == source[p..i] + [source[i]];
    }
  }

  /** key_search of a leaf. */
  method KeySearch<P>(a: array<Entry<P>>, n: nat, s: nat, l: nat) returns (r: int)
    requires n <= a.Length && Ascending(a[..n])
    ensures r == if Match(a[..n], s, l) then Pos(a[..n], s, l) else -1
  {
    var lower, upper := 0, n;
    while lower < upper
      invariant 0 <= lower <= upper <= n
      invariant forall i :: 0 <= i < lower ==> Before(a[i].slice, a[i].len, s, l)
      invariant forall i :: upper <= i < n ==> Before(s, l, a[i].slice, a[i].len)
    {
      var i := (lower + upper) / 2;
      SplitsAt(a[..n], s, l, i);
      if Before(a[i].slice, a[i].len, s, l) {
        lower := i + 1;
      } else if At(a[i], s, l) {
        PosUnique(a[..n], s, l, i);
        return i;
      } else {
        upper := i;
      }
    }
    assert forall i :: 0 <= i < n ==> !At(a[..n][i], s, l);
    return -1;
  }

  lemma {:induction false} SplitsAt<P>(es: seq<Entry<P>>, s: nat, l: nat, i: nat)
    requires Ascending(es) && i < |es|
    ensures Before(es[i].slice, es[i].len, s, l) ==> forall j :: 0 <= j <= i ==> Before(es[j].slice, es[j].len, s, l)
    ensures Before(s, l, es[i].slice, es[i].len) ==> forall j :: i <= j < |es| ==> Before(s, l, es[j].slice, es[j].len)
  {
    forall j | 0 <= j < |es|
      ensures j < i ==> Less(es[j], es[i])
      ensures i < j ==> Less(es[i], es[j])
    {
    }
  }

  /** key_lower_bound_search of an internal node: the index before the child to descend to. */
  method KeyLowerBoundSearch(keys: array<nat>, n: nat, s: nat) returns (r: int)
    requires n <= keys.Length && Climbs(keys[..n])
    ensures r + 1 == ChildIdx(keys[..n], s)
  {
    r := -1;
    var lower, upper := 0, n;
    while lower < upper
      invariant 0 <= lower <= upper <= n && r == lower - 1
      invariant forall i :: 0 <= i < lower ==> keys[i] <= s
      invariant forall i :: upper <= i < n ==> s < keys[i]
    {
      var i := (lower + upper) / 2;
      assert forall j :: 0 <= j < i ==> keys[..n][j] < keys[..n][i];
      assert forall j :: i < j < n ==> keys[..n][i] < keys[..n][j];
      if keys[i] == s {
        ChildIdxIs(keys[..n], s, i + 1);
        return i;
      } else if keys[i] > s {
        upper := i;
      } else {
        r := i;
        lower := i + 1;
      }
    }
    ChildIdxIs(keys[..n], s, lower);
  }

  lemma {:induction false} ChildIdxIs(keys: seq<nat>, s: nat, c: nat)
    requires c <= |keys| && (forall i :: 0 <= i < c ==> keys[i] <= s) && (forall i :: c <= i < |keys| ==> s < keys[i])
    ensures ChildIdx(keys, s) == c
  {
    if c < |keys| {
      ChildIdxIs(keys[..|keys| - 1], s, c);
    }
  }

  /** A leaf node: N slots, the first `used` of them in use. */
  class LeafNode<P> {
    const slots: array<Entry<P>>
    var used: nat
    var minKey: nat

    constructor (slots: array<Entry<P>>)
      requires slots.Length == N
      ensures Valid() && this.slots == slots && used == 0 && minKey == 0
    {
      this.slots, used, minKey := slots, 0, 0;
    }

    ghost predicate Valid()
      reads this
    {
      slots.Length == N && used <= N
    }

    function Entries(): seq<Entry<P>>
      requires Valid()
      reads this, slots
    {
      slots[..used]
    }

    /** The search of FindRespLeafLowerBound: the slot that matches, if any, and the last
        slot not above (s, l). */
    method FindLowerBound(s: nat, l: nat) returns (same: int, lower: int)
      requires Valid() && Ascending(Entries())
      ensures same == if Match(Entries(), s, l) then Pos(Entries(), s, l) else -1
      ensures lower == NotAbove(Entries(), s, l) - 1
    {
      var start := LowerBoundSearch(slots, used, s, 0);
      same, lower := -1, start;
      var i := if start == -1 then 0 else start;
      ghost var es := Entries();
      ghost var q: int := NotAbove(es, s, l);
      StartsBelow(es, s, l);
      while i < used
        invariant start <= i <= used && 0 <= i && start < q
        invariant lower == if i == start then start else if i <= q then i - 1 else q - 1
        invariant same == if Match(es, s, l) && Pos(es, s, l) < i then Pos(es, s, l) else -1
      {
        NotAboveIs(es, s, l, i);
        NotAboveIs(es, s, 0, i);
        if slots[i].slice < s {
        } else if slots[i].slice == s {
          if slots[i].len <= l {
            lower := i;
            if slots[i].len == l {
              PosUnique(es, s, l, i);
              same := i;
            }
          }
        } else {
          break;
        }
        i := i + 1;
      }
    }

    /** The easy insert: make room at p and store. */
    method InsertAt(p: nat, e: Entry<P>)
      requires Valid() && p <= used < N
      modifies this`used, slots
      ensures Valid() && Entries() == Put(old(Entries()), p, e)
    {
      SiftRight(slots, p, used, 1);
      slots[p] := e;
      used := used + 1;
      assert slots[..used] == slots[..p] + [slots[p]] + slots[p + 1..used];
    }

    /** remove_pos_from_leaf_node */
    method RemovePos(p: nat)
      requires Valid() && p < used
      modifies this`used, slots
      ensures Valid() && Entries() == Drop(old(Entries()), p)
    {
      SiftLeft(slots, p, used, 1);
      used := used - 1;
      assert slots[..used] == slots[..p] + slots[p..used];
    }

    /** The regular split of a full leaf: the upper part goes to the other, new leaf, and e
        to whichever side it belongs. */
    method SplitInto(other: LeafNode<P>, e: Entry<P>, lower: int)
      requires Valid() && used == N && Tidy(Entries()) && other.Valid() && other.used == 0
      requires other != this && other.slots != slots
      requires lower + 1 == Pos(Entries(), e.slice, e.len)
      modifies this`used, slots, other, other.slots
      ensures Valid() && other.Valid()
      ensures
        Two(Leaf(minKey, Entries()), other.minKey, Leaf(other.minKey, other.Entries())) ==
        LeafSplit(minKey, old(Entries()), e)
    {
      SplitHalves(other, e, lower);
      SplitShape(minKey, old(Entries()), e, Entries(), other.Entries());
    }

    method SplitHalves(other: LeafNode<P>, e: Entry<P>, lower: int)
      requires Valid() && used == N && Tidy(Entries()) && other.Valid() && other.used == 0
      requires other != this && other.slots != slots
      requires lower + 1 == Pos(Entries(), e.slice, e.len)
      modifies this`used, slots, other, other.slots
      ensures Valid() && other.Valid()
      ensures Halves(old(Entries()), e, SplitPoint(old(Entries())), lower + 1, Entries(), other.Entries())
      ensures other.minKey == other.Entries()[0].slice
    {
      assert slots[..used] == slots[..];
      var sp := FindSplitPoint(slots, e);
      used, other.used := Distribute(slots, other.slots, e, sp, lower + 1);
      other.minKey := other.slots[0].slice;
    }
  }

  /** What the two leaves of a split at sp must hold, when e belongs at p. */
  ghost predicate Halves<P>(es: seq<Entry<P>>, e: Entry<P>, sp: nat, p: nat, left: seq<Entry<P>>, right: seq<Entry<P>>) {
    && 0 < sp < |es| && right != [] && p <= |es|
    && if sp <= p && es[sp - 1].slice != e.slice then left == es[..sp] && right == es[sp..p] + [e] + es[p..]
       else p <= sp && left == es[..p] + [e] + es[p..sp] && right == es[sp..]
  }

  lemma {:induction false} SplitShape<P>(minKey: nat, es: seq<Entry<P>>, e: Entry<P>, left: seq<Entry<P>>, right: seq<Entry<P>>)
    requires |es| == N && Tidy(es) && Halves(es, e, SplitPoint(es), Pos(es, e.slice, e.len), left, right)
    ensures Two(Leaf(minKey, left), right[0].slice, Leaf(right[0].slice, right)) == LeafSplit(minKey, es, e)
  {
  }

  /** The choice between the two split points. */
  method FindSplitPoint<P>(a: array<Entry<P>>, ghost e: Entry<P>) returns (sp: nat)
    requires a.Length == N && Tidy(a[..])
    ensures sp == SplitPoint(a[..]) && 0 < sp < N
    ensures !GoesRight(a[..], sp, e) ==> Pos(a[..], e.slice, e.len) <= sp
  {
    var left := FindLeftSplit(a);
    var right := FindRightSplit(a);
    sp := if Min(left, N - left) < Min(right, N - right) then right else left;
    SplitInside(a[..]);
    if !GoesRight(a[..], sp, e) {
      StaysLeft(a[..], sp, e);
    }
  }

  /** The regular split, on the arrays of the two leaves. */
  method Distribute<P>(a: array<Entry<P>>, b: array<Entry<P>>, e: Entry<P>, sp: nat, p: nat) returns (na: nat, nb: nat)
    requires a != b && a.Length == b.Length == N && 0 < sp < N && p <= N
    requires !(sp <= p && a[sp - 1].slice != e.slice) ==> p <= sp
    modifies a, b
    ensures 0 < na <= N && 0 < nb <= N && Halves(old(a[..]), e, sp, p, a[..na], b[..nb])
  {
    ghost var es := a[..];
    if sp <= p && a[sp - 1].slice != e.slice {
      MoveRight(a, b, sp, p, e, es);
      return sp, N - sp + 1;
    } else {
      MoveLeft(a, b, sp, p, e, es);
      return sp + 1, N - sp;
    }
  }

  /** The loop for the split point at or before the middle. */
  method FindLeftSplit<P>(a: array<Entry<P>>) returns (left: nat)
    requires a.Length == N
    ensures left == LeftSplit(a[..], N / 2)
  {
    left := N / 2;
    var i := left - 1;
    while i >= 0
      invariant -1 <= i && i == left - 1 && left <= N / 2
      invariant LeftSplit(a[..], left) == LeftSplit(a[..], N / 2)
    {
      if a[i].slice != a[left].slice {
        break;
      }
      left := left - 1;
      i := i - 1;
    }
  }

  /** The loop for the split point at or after the middle. */
  method FindRightSplit<P>(a: array<Entry<P>>) returns (right: nat)
    requires a.Length == N
    ensures right == RightSplit(a[..], N / 2)
  {
    right := N / 2;
    var i := right - 1;
    while i >= 0 && i < N - 1
      invariant 0 <= i && i == right - 1 && N / 2 <= right <= N
      invariant RightSplit(a[..], right) == RightSplit(a[..], N / 2)
      decreases N - i
    {
      if a[i].slice != a[right].slice {
        break;
      }
      right := right + 1;
      i := i + 1;
    }
  }

  /** The split that puts e into the new leaf. */
  method MoveRight<T>(a: array<T>, b: array<T>, sp: nat, p: nat, e: T, ghost es: seq<T>)
    requires a != b && a.Length == b.Length == N && 0 < sp <= p <= N && a[..] == es
    modifies b
    ensures a[..sp] == es[..sp] && b[..N - sp + 1] == es[sp..p] + [e] + es[p..]
  {
    var pos := p - sp;
    CopyInto(b, 0, a, sp, p);
    b[pos] := e;
    CopyInto(b, pos + 1, a, p, N);
    assert b[..N - sp + 1] == b[..pos + 1] + b[pos + 1..N - sp + 1];
    assert b[..pos + 1] == a[sp..p] + [e];
  }

  /** The split that puts e into the old leaf. */
  method MoveLeft<T>(a: array<T>, b: array<T>, sp: nat, p: nat, e: T, ghost es: seq<T>)
    requires a != b && a.Length == b.Length == N && p <= sp < N && a[..] == es
    modifies a, b
    ensures b[..N - sp] == es[sp..] && a[..sp + 1] == es[..p] + [e] + es[p..sp]
  {
    CopyInto(b, 0, a, sp, N);
    assert b[..N - sp] == es[sp..];
    SiftRight(a, p, sp, 1);
    a[p] := e;
    assert a[..sp + 1] == a[..p] + [a[p]] + a[p + 1..sp + 1];
  }

  /** How many entries are not above (s, l). */
  function NotAbove<P>(es: seq<Entry<P>>, s: nat, l: nat): nat {
    if Match(es, s, l) then Pos(es, s, l) + 1 else Pos(es, s, l)
  }

  lemma {:induction false} NotAboveIs<P>(es: seq<Entry<P>>, s: nat, l: nat, i: nat)
    requires Ascending(es) && i < |es|
    ensures i < NotAbove(es, s, l) <==> !Before(s, l, es[i].slice, es[i].len)
    ensures i < Pos(es, s, l) <==> Before(es[i].slice, es[i].len, s, l)
  {
    var p := Pos(es, s, l);
    assert p > 0 && i < p - 1 ==> Less(es[i], es[p - 1]);
    assert p < i ==> Less(es[p], es[i]);
  }

  lemma StartsBelow<P>(es: seq<Entry<P>>, s: nat, l: nat)
    requires Ascending(es)
    ensures NotAbove(es, s, 0) <= NotAbove(es, s, l)
  {
    var n := NotAbove(es, s, 0);
    if n > 0 {
      NotAboveIs(es, s, 0, n - 1);
      NotAboveIs(es, s, l, n - 1);
    }
  }

  /** key_lower_bound_search of a leaf. */
  method LowerBoundSearch<P>(a: array<Entry<P>>, n: nat, s: nat, l: nat) returns (r: int)
    requires n <= a.Length && Ascending(a[..n])
    ensures r + 1 == NotAbove(a[..n], s, l)
  {
    r := -1;
    var lower, upper := 0, n;
    while lower < upper
      invariant 0 <= lower <= upper <= n && r == lower - 1
      invariant lower <= Pos(a[..n], s, l) && NotAbove(a[..n], s, l) <= upper
    {
      var i := (lower + upper) / 2;
      NotAboveIs(a[..n], s, l, i);
      if Before(a[i].slice, a[i].len, s, l) {
        r := i;
        lower := i + 1;
      } else if At(a[i], s, l) {
        PosUnique(a[..n], s, l, i);
        return i;
      } else {
        upper := i;
      }
    }
  }
}
