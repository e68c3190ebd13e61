/** The queue of deferred frees (silo/pxqueue.h): a linked list of groups, each with items
    of one tick, and a free list of groups. */
module PxQueue {
  type Positive = n: nat | n >= 1 witness 1
  const GROUP_SIZE: Positive

  // ------------------------------------------------------------------ what a queue stands for

  /** The contents of a group. */
  datatype Batch<T> = Batch(tick: nat, items: seq<T>)

  /** Groups in use are never empty or overfull, and their ticks never go down. */
  predicate Orderly<T>(v: seq<Batch<T>>) {
    && (forall i :: 0 <= i < |v| ==> 1 <= |v[i].items| <= GROUP_SIZE)
    && (forall i, j :: 0 <= i < j < |v| ==> v[i].tick <= v[j].tick)
  }

  /** The view after one more item: it joins the last group if that has its tick and room. */
  function Enqueued<T>(v: seq<Batch<T>>, t: T, tick: nat): seq<Batch<T>> {
    if HasRoom(v, tick)
    then v[..|v| - 1] + [Batch(tick, v[|v| - 1].items + [t])]
    else v + [Batch(tick, [t])]
  }

  /** How many groups, from the front, are not above a tick. */
  function Ripe<T>(v: seq<Batch<T>>, tick: nat): (n: nat)
    ensures n <= |v|
  {
    if v == [] || v[0].tick > tick then 0 else 1 + Ripe(v[1..], tick)
  }

  /** The items with their ticks, in order. */
  function Items<T>(v: seq<Batch<T>>): seq<(T, nat)> {
    if v == [] then [] else Stamped(v[0]) + Items(v[1..])
  }

  function Stamped<T>(b: Batch<T>): (r: seq<(T, nat)>)
    ensures |r| == |b.items| && forall i :: 0 <= i < |r| ==> r[i] == (b.items[i], b.tick)
  {
    seq(|b.items|, i requires 0 <= i < |b.items| => (b.items[i], b.tick))
  }

  /** The items of a sequence up to a tick. */
  function UpTo<T>(xs: seq<(T, nat)>, tick: nat): seq<(T, nat)> {
    if xs == [] then [] else (if xs[0].1 <= tick then [xs[0]] else []) + UpTo(xs[1..], tick)
  }

  function Above<T>(xs: seq<(T, nat)>, tick: nat): seq<(T, nat)> {
    if xs == [] then [] else (if xs[0].1 > tick then [xs[0]] else []) + Above(xs[1..], tick)
  }

  lemma EnqueuedOrderly<T>(v: seq<Batch<T>>, t: T, tick: nat)
    requires Orderly(v) && (v != [] ==> v[|v| - 1].tick <= tick)
    ensures Orderly(Enqueued(v, t, tick))
  {
  }

  lemma OrderlyParts<T>(a: seq<Batch<T>>, b: seq<Batch<T>>)
    requires Orderly(a + b)
    ensures Orderly(a) && Orderly(b)
  {
    forall i | 0 <= i < |b|
      ensures b[i] == (a + b)[|a| + i]
    {
    }
    forall i | 0 <= i < |a|
      ensures a[i] == (a + b)[i]
    {
    }
  }

  lemma {:induction false} UpToJoined<T>(a: seq<(T, nat)>, b: seq<(T, nat)>, tick: nat)
    ensures UpTo(a + b, tick) == UpTo(a, tick) + UpTo(b, tick)
    ensures Above(a + b, tick) == Above(a, tick) + Above(b, tick)
  {
    if a != [] {
      UpToJoined(a[1..], b, tick);
      assert (a + b)[1..] == a[1..] + b;
    } else {
      assert a + b == b;
    }
  }

  lemma {:induction false} UpToAll<T>(a: seq<(T, nat)>, tick: nat, t: nat)
    requires forall i :: 0 <= i < |a| ==> a[i].1 == t
    ensures t <= tick ==> UpTo(a, tick) == a && Above(a, tick) == []
    ensures t > tick ==> UpTo(a, tick) == [] && Above(a, tick) == a
  {
    if a != [] {
      UpToAll(a[1..], tick, t);
      assert a == [a[0]] + a[1..];
    }
  }

  /** What empty_accept_from takes is exactly the items up to the tick, in order, and what
      it leaves is exactly the others. */
  lemma {:induction false} RipeItems<T>(v: seq<Batch<T>>, tick: nat)
    requires Orderly(v)
    ensures Items(v[..Ripe(v, tick)]) == UpTo(Items(v), tick)
    ensures Items(v[Ripe(v, tick)..]) == Above(Items(v), tick)
  {
    if v != [] {
      var first := Stamped(v[0]);
      assert [v[0]] + v[1..] == v;
      OrderlyParts([v[0]], v[1..]);
      RipeItems(v[1..], tick);
      UpToAll(first, tick, v[0].tick);
      UpToJoined(first, Items(v[1..]), tick);
      if v[0].tick <= tick {
        var n := Ripe(v[1..], tick);
        assert v[..n + 1][1..] == v[1..][..n] && v[n + 1..] == v[1..][n..];
      } else {
        NoneRipe(v, tick);
      }
    }
  }

  /** Behind a group above the tick, all items are above it. */
  lemma {:induction false} NoneRipe<T>(v: seq<Batch<T>>, tick: nat)
    requires Orderly(v) && v != [] && v[0].tick > tick
    ensures UpTo(Items(v), tick) == [] && Above(Items(v), tick) == Items(v)
  {
    var first := Stamped(v[0]);
    assert [v[0]] + v[1..] == v;
    OrderlyParts([v[0]], v[1..]);
    UpToAll(first, tick, v[0].tick);
    UpToJoined(first, Items(v[1..]), tick);
    if |v| > 1 {
      assert v[0].tick <= v[1].tick;
      NoneRipe(v[1..], tick);
    }
  }

  /** enqueue adds its item at the end and changes nothing else. */
  lemma {:induction false} EnqueuedItems<T>(v: seq<Batch<T>>, t: T, tick: nat)
    ensures Items(Enqueued(v, t, tick)) == Items(v) + [(t, tick)]
  {
    if |v| > 1 {
      EnqueuedItems(v[1..], t, tick);
      assert Enqueued(v, t, tick) == [v[0]] + Enqueued(v[1..], t, tick);
    } else if HasRoom(v, tick) {
      assert Stamped(Batch(tick, v[0].items + [t])) == Stamped(v[0]) + [(t, tick)];
    } else {
      var b := Batch(tick, [t]);
      assert Stamped(b) == [(t, tick)] && Items([b]) == Stamped(b) + [];
      assert Enqueued(v, t, tick) == v + [b];
      assert v != [] ==> (v + [b])[1..] == [b];
      assert v == [] ==> v + [b] == [b];
    }
  }

  predicate HasRoom<T>(v: seq<Batch<T>>, tick: nat) {
    v != [] && v[|v| - 1].tick == tick && |v[|v| - 1].items| < GROUP_SIZE
  }

  /** A new item opens a new group, unless the last one has room; then it is added to the
      last one. */
  lemma EnqueuedIs<T>(v: seq<Batch<T>>, w: seq<Batch<T>>, t: T, tick: nat)
    requires w == if HasRoom(v, tick) then v else v + [Batch(tick, [])]
    ensures w[..|w| - 1] + [Batch(w[|w| - 1].tick, w[|w| - 1].items + [t])] == Enqueued(v, t, tick)
  {
    assert [] + [t] == [t];
  }

  // ------------------------------------------------------------------ linked lists of groups

  class Group<T> {
    var next: Group?<T>
    var pxs: seq<T>
    var tick: nat

    constructor ()
      ensures next == null && pxs == [] && tick == 0
    {
      next, pxs, tick := null, [], 0;
    }
  }

  /** gs is a linked list, in order and without repetition. */
  ghost predicate Chain<T>(gs: seq<Group<T>>)
    reads gs`next
  {
    gs != [] ==>
      && gs[0] !in gs[1..] && gs[0].next == (if |gs| > 1 then gs[1] else null)
      && Chain(gs[1..])
  }

  ghost function View<T>(gs: seq<Group<T>>): seq<Batch<T>>
    reads gs`tick, gs`pxs
  {
    if gs == [] then [] else [Batch(gs[0].tick, gs[0].pxs)] + View(gs[1..])
  }

  ghost predicate Apart<T>(a: seq<Group<T>>, b: seq<Group<T>>) {
    forall i, j :: 0 <= i < |a| && 0 <= j < |b| ==> a[i] != b[j]
  }

  ghost predicate Ends<T>(head: Group?<T>, tail: Group?<T>, gs: seq<Group<T>>) {
    if gs == [] then head == null && tail == null else head == gs[0] && tail == gs[|gs| - 1]
  }

  /** Distinct groups, each linked to the next and the last one to `end`. */
  ghost predicate Links<T>(gs: seq<Group<T>>, end: Group<T>)
    reads gs`next
  {
    gs != [] ==>
      && gs[0] !in gs[1..] && gs[0].next == (if |gs| > 1 then gs[1] else end)
      && Links(gs[1..], end)
  }

  lemma {:induction false} ChainFront<T>(a: seq<Group<T>>)
    requires a != [] && Chain(a)
    ensures Links(a[..|a| - 1], a[|a| - 1]) && a[|a| - 1] !in a[..|a| - 1]
  {
    if |a| > 1 {
      var rest, front := a[1..], a[..|a| - 1];
      ChainFront(rest);
      assert front[1..] == rest[..|rest| - 1] && a[|a| - 1] == rest[|rest| - 1];
      assert rest[|rest| - 1] in rest;
      assert front[0] !in front[1..];
    }
  }

  /** A list that leads to `last`, and a list that starts with it. */
  lemma {:induction false} Joined<T>(front: seq<Group<T>>, last: Group<T>, b: seq<Group<T>>)
    requires Links(front, last) && Chain([last] + b) && last !in front && Apart(front, b)
    ensures Chain(front + [last] + b)
  {
    if front == [] {
      assert [] + [last] + b == [last] + b;
    } else {
      Joined(front[1..], last, b);
      var all := front + [last] + b;
      assert all[1..] == front[1..] + [last] + b;
      assert front[0] !in b;
    }
  }

  lemma {:induction false} ChainDistinct<T>(gs: seq<Group<T>>)
    requires Chain(gs)
    ensures forall i, j :: 0 <= i < j < |gs| ==> gs[i] != gs[j]
    ensures gs != [] ==> gs[|gs| - 1].next == null
  {
    if gs != [] {
      ChainDistinct(gs[1..]);
      forall i, j | 0 <= i < j < |gs|
        ensures gs[i] != gs[j]
      {
        if i > 0 {
          assert gs[1..][i - 1] != gs[1..][j - 1];
        } else {
          assert gs[j] in gs[1..];
        }
      }
    }
  }

  lemma {:induction false} ViewJoined<T>(a: seq<Group<T>>, b: seq<Group<T>>)
    ensures View(a + b) == View(a) + View(b) && |View(a)| == |a|
  {
    if a != [] {
      ViewJoined(a[1..], b);
      assert (a + b)[1..] == a[1..] + b;
    } else {
      assert a + b == b;
    }
  }

  class Queue<T> {
    var head: Group?<T>
    var tail: Group?<T>
    var freeHead: Group?<T>
    var freeTail: Group?<T>
    var ngroups: nat
    ghost var groups: seq<Group<T>>
    ghost var free: seq<Group<T>>

    ghost predicate Valid()
      reads this, groups, free`next
    {
      Linked() && Orderly(View(groups))
    }

    ghost predicate Linked()
      reads this, groups`next, free`next
    {
      && Ends(head, tail, groups) && Ends(freeHead, freeTail, free)
      && Chain(groups) && Chain(free) && Apart(groups, free) && ngroups == |groups|
    }

    ghost predicate Separate(o: Queue<T>)
      reads this, o
    {
      o != this && Apart(groups, o.groups) && Apart(groups, o.free) && Apart(free, o.groups) && Apart(free, o.free)
    }

    /** Two queues that share no group.  The comparison with `true` only keeps the verifier
        from taking the predicate apart wherever it is used. */
    ghost predicate Both(o: Queue<T>)
      reads this, o, groups`next, free`next, o.groups`next, o.free`next
    {
      (Linked() && o.Linked() && Separate(o)) == true
    }

    constructor ()
      ensures Valid() && groups == [] && free == []
    {
      head, tail, freeHead, freeTail, ngroups := null, null, null, null, 0;
      groups, free := [], [];
    }

    /** A group goes to the front of the free list. */
    method PushFree(p: Group<T>)
      requires Linked() && p !in groups && p !in free
      modifies this`freeHead, this`freeTail, this`free, p`next
      ensures Linked() && free == [p] + old(free)
    {
      if freeTail == null {
        freeTail := p;
      }
      p.next := freeHead;
      freeHead := p;
      free := [p] + free;
      assert free[1..] == old(free);
    }

    /** alloc_freelist */
    method AllocFreelist(n: nat)
      requires Linked()
      modifies this`freeHead, this`freeTail, this`free
      ensures Linked() && |free| == n + |old(free)| && free[n..] == old(free)
      ensures forall x :: x in free[..n] ==> fresh(x)
    {
      for i := 0 to n
        invariant Linked() && |free| == i + |old(free)| && free[i..] == old(free)
        invariant forall x :: x in free[..i] ==> fresh(x)
      {
        ghost var before := free;
        var p := new Group<T>();
        PushFree(p);
        assert free[..i + 1] == [p] + before[..i] && free[i + 1..] == before[i..];
      }
    }

    /** ensure_freelist */
    method EnsureFreelist()
      requires Linked()
      modifies this`freeHead, this`freeTail, this`free
      ensures Linked() && free != []
      ensures free == old(free) || (old(free) == [] && |free| == 16 && forall x :: x in free ==> fresh(x))
    {
      if freeHead == null {
        AllocFreelist(16);
        assert free[..16] == free;
      }
    }

    /** Pops a group off the free list and makes it empty. */
    method TakeFree(tick: nat) returns (g: Group<T>)
      requires Linked() && free != []
      modifies this`freeHead, this`freeTail, this`free, freeHead
      ensures Linked() && old(free) == [g] + free && g == old(freeHead)
      ensures g !in groups && g !in free && g.next == null && g.pxs == [] && g.tick == tick
    {
      g := freeHead;
      assert g in free && g !in groups && g !in free[1..];
      assert |free| > 1 ==> free[|free| - 1] == free[1..][|free| - 2];
      freeHead := g.next;
      if g == freeTail {
        freeTail := null;
      }
      free := free[1..];
      g.next, g.pxs, g.tick := null, [], tick;
    }

    /** Links a group to the end of the queue. */
    method LinkLast(g: Group<T>)
      requires Linked() && g !in groups && g !in free && g.next == null
      modifies this`head, this`tail, this`groups, this`ngroups, groups`next
      ensures Linked() && groups == old(groups) + [g]
    {
      ngroups := ngroups + 1;
      if head == null {
        head := g;
      } else {
        assert tail in groups && tail !in free;
        Join(tail, g, groups, [g]);
      }
      tail := g;
      groups := groups + [g];
    }

    /** Adds an item to the last group. */
    method AddToLast(t: T)
      requires Linked() && tail != null
      modifies tail`pxs
      ensures Linked()
      ensures
        var was := old(View(groups));
        was != [] && View(groups) == was[..|was| - 1] + [Batch(was[|was| - 1].tick, was[|was| - 1].items + [t])]
    {
      ghost var front := groups[..|groups| - 1];
      assert groups == front + [tail];
      ChainFront(groups);
      ViewJoined(front, [tail]);
      tail.pxs := tail.pxs + [t];
      ViewJoined(front, [tail]);
    }

    /** Takes a group from the free list, refilled if need be. */
    method GetFree(tick: nat) returns (g: Group<T>)
      requires Linked()
      modifies this`freeHead, this`freeTail, this`free, free
      ensures Linked() && View(groups) == old(View(groups)) && (g in old(free) || fresh(g))
      ensures g !in groups && g !in free && g.next == null && g.pxs == [] && g.tick == tick
      ensures forall x :: x in old(free) ==> x in [g] + free
      ensures forall x :: x in free ==> x in old(free) || fresh(x)
    {
      EnsureFreelist();
      assert freeHead in free && freeHead !in groups;
      ghost var list := free;
      g := TakeFree(tick);
      assert forall x :: x in free ==> x in list;
    }

    /** Links in a group from the free list. */
    method NewGroup(tick: nat)
      requires Linked()
      modifies this, groups`next, free
      ensures Linked() && tail != null && (tail in old(free) || fresh(tail))
      ensures View(groups) == old(View(groups)) + [Batch(tick, [])]
      ensures forall x :: x in old(groups + free) ==> x in groups + free
      ensures forall x :: x in groups + free ==> x in old(groups + free) || fresh(x)
    {
      var g := GetFree(tick);
      ViewJoined(groups, [g]);
      LinkLast(g);
    }

    /** Makes sure that the last group has room for an item of this tick. */
    method MakeRoom(tick: nat)
      requires Valid()
      modifies this, groups`next, free
      ensures Linked() && tail != null && (tail in old(groups) || tail in old(free) || fresh(tail))
      ensures var was := old(View(groups)); View(groups) == if HasRoom(was, tick) then was else was + [Batch(tick, [])]
      ensures forall x :: x in old(groups + free) ==> x in groups + free
      ensures forall x :: x in groups + free ==> x in old(groups + free) || fresh(x)
    {
      LastView(groups);
      if tail == null || |tail.pxs| == GROUP_SIZE || tail.tick != tick {
        NewGroup(tick);
      } else {
        assert tail in groups;
      }
    }

    /** enqueue */
    method Enqueue(t: T, tick: nat)
      requires Valid() && (tail != null ==> tail.tick <= tick)
      modifies this, groups, free
      ensures Valid() && View(groups) == Enqueued(old(View(groups)), t, tick)
      ensures forall x :: x in old(groups + free) ==> x in groups + free
      ensures forall x :: x in groups + free ==> x in old(groups + free) || fresh(x)
    {
      ghost var v := View(groups);
      LastView(groups);
      EnqueuedOrderly(v, t, tick);
      MakeRoom(tick);
      EnqueuedIs(v, View(groups), t, tick);
      AddToLast(t);
    }

    /** Unlinks the first group and returns it. */
    method TakeFirst() returns (p: Group<T>)
      requires Linked() && head != null
      modifies this`head, this`tail, this`groups, this`ngroups, head`next
      ensures Linked() && old(groups) == [p] + groups && p.next == null && p == old(head) && p !in groups && p !in free
    {
      p := head;
      assert p in groups && p !in free && p !in groups[1..];
      assert |groups| > 1 ==> groups[|groups| - 1] == groups[1..][|groups| - 2];
      head := p.next;
      p.next := null;
      if head == null {
        tail := null;
      }
      groups, ngroups := groups[1..], ngroups - 1;
    }

    /** Takes the first group out of another queue. */
    method TakeFrom(source: Queue<T>) returns (p: Group<T>)
      requires Both(source) && source.head != null
      modifies source`head, source`tail, source`groups, source`ngroups, source.head`next
      ensures Both(source) && old(source.groups) == [p] + source.groups && p == old(source.head) && p.next == null
      ensures p !in groups && p !in free && p !in source.groups && p !in source.free
      ensures View(source.groups) == old(View(source.groups))[1..]
    {
      assert View(source.groups)[1..] == View(source.groups[1..]);
      assert source.head in source.groups && source.head !in groups && source.head !in free;
      p := source.TakeFirst();
    }

    /** Links in a group that neither queue has. */
    method LinkBeside(o: Queue<T>, g: Group<T>)
      requires Both(o) && g.next == null
      requires g !in groups && g !in free && g !in o.groups && g !in o.free
      modifies this`head, this`tail, this`groups, this`ngroups, groups`next
      ensures Both(o) && groups == old(groups) + [g] && o.groups == old(o.groups) && View(o.groups) == old(View(o.groups))
    {
      LinkLast(g);
      assert Chain(o.groups);
      assert Chain(o.free);
    }

    /** One round of empty_accept_from. */
    method MoveFirst(source: Queue<T>)
      requires Both(source) && source.head != null
      modifies this, source, groups`next, source.head`next
      ensures Both(source) && free == old(free) && source.free == old(source.free)
      ensures groups + source.groups == old(groups + source.groups) && |groups| == |old(groups)| + 1
      ensures View(source.groups) == old(View(source.groups))[1..] && |source.groups| < |old(source.groups)|
    {
      ghost var mine := groups;
      var p := TakeFrom(source);
      ghost var rest := source.groups;
      LinkBeside(source, p);
      Shifted(mine, p, rest);
    }

    /** The loop of empty_accept_from. */
    method AcceptLoop(source: Queue<T>, tick: nat)
      requires Both(source) && groups == []
      modifies this, source, source.groups`next
      ensures Both(source) && free == old(free) && source.free == old(source.free)
      ensures groups + source.groups == old(source.groups) && |groups| == Ripe(old(View(source.groups)), tick)
    {
      ghost var all, n := source.groups, Ripe(View(source.groups), tick);
      while source.head != null && source.head.tick <= tick
        invariant Both(source) && all == groups + source.groups
        invariant free == old(free) && source.free == old(source.free)
        invariant n == |groups| + Ripe(View(source.groups), tick)
        decreases |source.groups|
      {
        assert forall i :: 0 <= i < |groups| ==> groups[i] == all[i];
        assert source.head == all[|groups|];
        assert View(source.groups)[0].tick <= tick;
        MoveFirst(source);
      }
    }

    /** empty_accept_from: takes the groups up to a tick, in order, from another queue. */
    method EmptyAcceptFrom(source: Queue<T>, tick: nat)
      requires Valid() && source.Valid() && Both(source) && groups == []
      modifies this, source, source.groups`next
      ensures Valid() && source.Valid() && Both(source) && free == old(free) && source.free == old(source.free)
      ensures groups + source.groups == old(source.groups)
      ensures
        var was := old(View(source.groups));
        View(groups) == was[..Ripe(was, tick)] && View(source.groups) == was[Ripe(was, tick)..]
    {
      ghost var all, v := source.groups, View(source.groups);
      AcceptLoop(source, tick);
      assert View(all) == v;
      ViewJoined(groups, source.groups);
      OrderlyParts(View(groups), View(source.groups));
    }

    /** A list of groups goes to the front of the free list. */
    method PushFreeList(first: Group<T>, last: Group<T>, ghost list: seq<Group<T>>)
      requires Linked() && Chain(list) && list != [] && first == list[0] && last == list[|list| - 1]
      requires Apart(list, groups) && Apart(list, free)
      modifies this`freeHead, this`freeTail, this`free, last`next
      ensures Linked() && free == list + old(free)
    {
      assert last !in groups && last !in free;
      Join(last, freeHead, list, free);
      if freeTail == null {
        freeTail := last;
      }
      freeHead := first;
      free := list + free;
    }

    /** clear: all groups go to the front of the free list. */
    method Clear()
      requires Linked()
      modifies this, groups`next
      ensures Valid() && groups == [] && free == old(groups + free) && ngroups == 0
    {
      if head == null {
        return;
      }
      var first, last := head, tail;
      ghost var list := groups;
      head, tail, groups, ngroups := null, null, [], 0;
      PushFreeList(first, last, list);
    }

    /** transfer_freelist(dest): the whole free list goes to the front of another one. */
    method TransferFreelist(dest: Queue<T>)
      requires Both(dest)
      modifies this`freeHead, this`freeTail, this`free, dest`freeHead, dest`freeTail, dest`free, free`next
      ensures Both(dest) && free == [] && dest.free == old(free + dest.free)
    {
      if freeHead == null {
        return;
      }
      var first, last := freeHead, freeTail;
      ghost var list := free;
      assert last in list && last !in groups;
      freeHead, freeTail, free := null, null, [];
      dest.PushFreeList(first, last, list);
      assert Chain(groups);
    }

    /** One group from this free list to the front of another one. */
    method MoveFree(dest: Queue<T>)
      requires Both(dest) && freeHead != null
      modifies this`freeHead, this`freeTail, this`free, dest`freeHead, dest`freeTail, dest`free, freeHead`next
      ensures Both(dest) && |free| < |old(free)|
      ensures old(free) == [old(freeHead)] + free && dest.free == [old(freeHead)] + old(dest.free)
    {
      var p := freeHead;
      assert p == free[0] && p !in free[1..];
      assert |free| > 1 ==> free[|free| - 1] == free[1..][|free| - 2];
      if p == freeTail {
        freeTail := null;
      }
      freeHead := p.next;
      free := free[1..];
      dest.PushFree(p);
    }

    /** transfer_freelist(dest, n): up to n groups, one by one. */
    method TransferSome(dest: Queue<T>, n: nat)
      requires Both(dest)
      modifies this`freeHead, this`freeTail, this`free, dest`freeHead, dest`freeTail, dest`free, free`next
      ensures Both(dest)
      ensures
        var m := if n < |old(free)| then n else |old(free)|;
        free == old(free)[m..] && dest.free == Reversed(old(free)[..m]) + old(dest.free)
    {
      ghost var all := free;
      var c := 0;
      while freeHead != null && c < n
        invariant Both(dest) && 0 <= c <= n && c <= |all| && free == all[c..]
        invariant dest.free == Reversed(all[..c]) + old(dest.free)
      {
        assert freeHead == all[c] && all[..c + 1] == all[..c] + [all[c]];
        MoveFree(dest);
        ReversedNext(all[..c], all[c], old(dest.free));
        c := c + 1;
      }
    }
  }

  lemma Shifted<T>(a: seq<T>, x: T, b: seq<T>)
    ensures a + ([x] + b) == a + [x] + b
  {}

  function Reversed<T>(s: seq<T>): seq<T> { if s == [] then [] else Reversed(s[1..]) + [s[0]] }

  lemma {:induction false} ReversedNext<T>(s: seq<T>, x: T, rest: seq<T>)
    ensures Reversed(s + [x]) + rest == [x] + (Reversed(s) + rest)
  {
    if s != [] {
      assert (s + [x])[1..] == s[1..] + [x];
      ReversedNext(s[1..], x, []);
      assert Reversed(s[1..] + [x]) + [] == Reversed(s[1..] + [x]);
      assert Reversed(s[1..]) + [] == Reversed(s[1..]);
    }
  }

  /** Links the last group of one list to the first of another. */
  method Join<T>(last: Group<T>, first: Group?<T>, ghost a: seq<Group<T>>, ghost b: seq<Group<T>>)
    requires Chain(a) && Chain(b) && Apart(a, b) && a != [] && last == a[|a| - 1]
    requires first == if b != [] then b[0] else null
    modifies last`next
    ensures Chain(a + b)
  {
    ghost var front := a[..|a| - 1];
    ChainFront(a);
    assert last !in b && a == front + [last];
    last.next := first;
    assert ([last] + b)[1..] == b;
    Joined(front, last, b);
  }

  lemma LastView<T>(gs: seq<Group<T>>)
    ensures |View(gs)| == |gs|
    ensures gs != [] ==> View(gs)[|gs| - 1] == Batch(gs[|gs| - 1].tick, gs[|gs| - 1].pxs)
  {
    if gs != [] {
      assert gs == gs[..|gs| - 1] + [gs[|gs| - 1]];
      ViewJoined(gs[..|gs| - 1], [gs[|gs| - 1]]);
    } else {
      ViewJoined(gs, []);
    }
  }
}
