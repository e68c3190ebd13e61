/** The ring buffer of silo/circbuf.h: many producers, one consumer, one step for each
    access to shared memory.

    Producers race for the head with a compare-and-swap on an index that wraps around, so
    a producer may win with an index it read a whole lap ago.  What makes the ring safe is
    that at most Capacity pointers are in circulation: stored, not yet cleared, or held
    inside enq. */
module Circbuf {
  import opened Common
  import opened Arithmetic

  type Ptr = nat
  type Producer = nat

  datatype Enq =
    | Away
    | Entered(p: Ptr)                  // in enq, about to read the head
    | Loaded(p: Ptr, icur: nat)        // head read, slot not yet looked at
    | SawEmpty(p: Ptr, icur: nat)      // the slot was empty when looked at
    | Claimed(p: Ptr, icur: nat)       // compare-and-swap won, store still to come

  datatype Deq = Waiting | Got(p: Ptr) | Bumped(p: Ptr, icur: nat)

  /** `order` lists the pointers by their compare-and-swap, `delivered` by their delivery;
      `cleared` counts the slots given back, `inside` the producers before their
      compare-and-swap and `owner` the places claimed but not yet stored to.  These five
      only serve to state the properties and the limit on circulation. */
  datatype State = State(capacity: nat, buf: seq<Option<Ptr>>, head: nat, tail: nat,
                         producers: map<Producer, Enq>, consumer: Deq,
                         order: seq<Ptr>, delivered: seq<Ptr>, cleared: nat,
                         inside: set<Producer>, owner: map<nat, Producer>)

  datatype Step =
    | Enter(q: Producer, p: Ptr) | LoadHead(q: Producer) | CheckSlot(q: Producer) | Cas(q: Producer) | Store(q: Producer)
    | Take | BumpTail | Clear

  function At(s: State, q: Producer): Enq { if q in s.producers then s.producers[q] else Away }

  function Circulating(s: State): int { |s.order| - s.cleared + |s.inside| }

  predicate Enabled(s: State, step: Step) {
    && s.capacity >= 1 && |s.buf| == s.capacity
    && match step
       case Enter(q, p) => At(s, q).Away? && Circulating(s) < s.capacity
       case LoadHead(q) => At(s, q).Entered?
       case CheckSlot(q) => At(s, q).Loaded? && At(s, q).icur < s.capacity
       case Cas(q) => At(s, q).SawEmpty?
       case Store(q) => At(s, q).Claimed? && At(s, q).icur < s.capacity
       case Take => s.consumer.Waiting? && s.tail < s.capacity && s.buf[s.tail].Some?
       case BumpTail => s.consumer.Got?
       case Clear => s.consumer.Bumped? && s.consumer.icur < s.capacity
  }

  function Move(s: State, q: Producer, e: Enq): State { s.(producers := s.producers[q := e]) }

  function Apply(s: State, step: Step): State
    requires Enabled(s, step)
  {
    match step
    case Enter(q, p) => Move(s, q, Entered(p)).(inside := s.inside + {q})
    case LoadHead(q) => Move(s, q, Loaded(At(s, q).p, s.head))
    case CheckSlot(q) =>
      var e := At(s, q);
      Move(s, q, if s.buf[e.icur].None? then SawEmpty(e.p, e.icur) else Entered(e.p))
    case Cas(q) =>
      var e := At(s, q);
      if s.head == e.icur then
        Move(s, q, Claimed(e.p, e.icur)).(head := (e.icur + 1) % s.capacity, order := s.order + [e.p],
                                          inside := s.inside - {q}, owner := s.owner[|s.order| := q])
      else Move(s, q, Entered(e.p))
    case Store(q) =>
      var e := At(s, q);
      Move(s, q, Away).(buf := s.buf[e.icur := Some(e.p)], owner := map n | n in s.owner && s.owner[n] != q :: s.owner[n])
    case Take => s.(consumer := Got(s.buf[s.tail].value))
    case BumpTail => s.(tail := (s.tail + 1) % s.capacity, consumer := Bumped(s.consumer.p, s.tail))
    case Clear =>
      s.(buf := s.buf[s.consumer.icur := None], consumer := Waiting, cleared := s.cleared + 1,
         delivered := s.delivered + [s.consumer.p])
  }

  predicate Initial(s: State) {
    && s.capacity >= 1 && |s.buf| == s.capacity && (forall i :: 0 <= i < |s.buf| ==> s.buf[i] == None)
    && s.head == 0 && s.tail == 0 && s.producers == map[] && s.consumer == Waiting
    && s.order == [] && s.delivered == [] && s.cleared == 0 && s.inside == {} && s.owner == map[]
  }

  function Run(s: State, steps: seq<Step>): Option<State> {
    if steps == [] then Some(s)
    else
      var r := Run(s, steps[..|steps| - 1]);
      if r.Some? && Enabled(r.value, steps[|steps| - 1]) then Some(Apply(r.value, steps[|steps| - 1])) else None
  }

  // ------------------------------------------------------------------ the invariant

  function Slot(s: State, n: nat): Option<Ptr>
    requires s.capacity >= 1 && |s.buf| == s.capacity
  {
    s.buf[n % s.capacity]
  }

  /** Place n of the order is in flight: it is claimed, or its slot holds its pointer. */
  predicate PlaceOk(s: State, n: nat)
    requires s.capacity >= 1 && |s.buf| == s.capacity && n < |s.order|
  {
    if n in s.owner
    then Slot(s, n) == None && At(s, s.owner[n]) == Claimed(s.order[n], n % s.capacity)
    else Slot(s, n) == Some(s.order[n])
  }

  predicate ProducerOk(s: State, q: Producer)
    requires s.capacity >= 1
  {
    && (q in s.inside <==> At(s, q).Entered? || At(s, q).Loaded? || At(s, q).SawEmpty?)
    && (At(s, q).Loaded? || At(s, q).SawEmpty? ==> At(s, q).icur < s.capacity)
    && (At(s, q).Claimed? ==> exists n :: n in s.owner && s.owner[n] == q)
  }

  predicate ConsumerOk(s: State)
    requires s.capacity >= 1
  {
    && s.cleared == |s.delivered| <= |s.order| && s.delivered == s.order[..s.cleared]
    && (s.consumer.Waiting? ==> s.tail == s.cleared % s.capacity)
    && (s.consumer.Got? ==> s.tail == s.cleared % s.capacity)
    && (s.consumer.Bumped? ==> s.tail == (s.cleared + 1) % s.capacity && s.consumer.icur == s.cleared % s.capacity)
    && (!s.consumer.Waiting? ==> s.cleared < |s.order| && s.cleared !in s.owner && s.consumer.p == s.order[s.cleared])
  }

  predicate OwnerOk(s: State, n: nat) {
    n in s.owner ==> s.cleared <= n < |s.order| && forall m :: m in s.owner && s.owner[m] == s.owner[n] ==> m == n
  }

  ghost predicate Inv(s: State) {
    && s.capacity >= 1 && |s.buf| == s.capacity && s.head == |s.order| % s.capacity
    && Circulating(s) <= s.capacity && ConsumerOk(s)
    && (forall n :: s.cleared <= n < |s.order| ==> PlaceOk(s, n))
    && (forall n :: |s.order| <= n < s.cleared + s.capacity ==> Slot(s, n) == None)
    && (forall q :: ProducerOk(s, q))
    && (forall n :: OwnerOk(s, n))
  }

  /** Writing the slot of one place leaves the other places of the same lap alone. */
  lemma WriteOne(s: State, m: nat, n: nat, v: Option<Ptr>)
    requires s.capacity >= 1 && |s.buf| == s.capacity && m != n && (m < n < m + s.capacity || n < m < n + s.capacity)
    ensures Slot(s.(buf := s.buf[m % s.capacity := v]), n) == Slot(s, n)
  {
    if m < n {
      ModApart(m, n, s.capacity);
    } else {
      ModApart(n, m, s.capacity);
    }
  }

  // ------------------------------------------------------------------ every step keeps it

  /** A producer that has claimed nothing moves, and claims nothing. */
  lemma MoveKeeps(s: State, q: Producer, e: Enq, inside: set<Producer>)
    requires Inv(s) && !At(s, q).Claimed? && !e.Claimed?
    requires e.Loaded? || e.SawEmpty? ==> e.icur < s.capacity
    requires inside == if e.Away? then s.inside - {q} else s.inside + {q}
    requires |s.order| - s.cleared + |inside| <= s.capacity
    ensures Inv(Move(s, q, e).(inside := inside))
  {
    var t := Move(s, q, e).(inside := inside);
    forall n | t.cleared <= n < |t.order|
      ensures PlaceOk(t, n)
    {
      assert PlaceOk(s, n);
    }
    forall p
      ensures ProducerOk(t, p)
    {
      assert ProducerOk(s, p);
      if At(t, p).Claimed? {
        var n :| n in s.owner && s.owner[n] == p;
        assert n in t.owner && t.owner[n] == p;
      }
    }
    forall n
      ensures OwnerOk(t, n)
    {
      assert OwnerOk(s, n);
    }
    forall n | |t.order| <= n < t.cleared + t.capacity
      ensures Slot(t, n) == None
    {
      assert Slot(s, n) == None;
    }
  }

  /** Winning the compare-and-swap claims a place whose slot is empty, however long ago the
      producer looked. */
  lemma CasKeeps(s: State, q: Producer)
    requires Inv(s) && Enabled(s, Cas(q)) && s.head == At(s, q).icur
    ensures Slot(s, |s.order|) == None
    ensures Inv(Apply(s, Cas(q)))
  {
    var t, h := Apply(s, Cas(q)), |s.order|;
    assert ProducerOk(s, q) && OwnerOk(s, h);
    assert |s.inside| >= 1 by {
      assert q in s.inside && s.inside == s.inside - {q} + {q};
    }
    assert Slot(s, h) == None;
    ModStep(h, s.capacity);
    forall n | t.cleared <= n < |t.order|
      ensures PlaceOk(t, n)
    {
      if n < h {
        assert PlaceOk(s, n);
      }
    }
    CasOwners(s, q);
    forall n | |t.order| <= n < t.cleared + t.capacity
      ensures Slot(t, n) == None
    {
      assert Slot(s, n) == None;
    }
  }

  lemma CasOwners(s: State, q: Producer)
    requires Inv(s) && Enabled(s, Cas(q)) && s.head == At(s, q).icur
    ensures forall p :: ProducerOk(Apply(s, Cas(q)), p)
    ensures forall n :: OwnerOk(Apply(s, Cas(q)), n)
  {
    var t, h := Apply(s, Cas(q)), |s.order|;
    assert OwnerOk(s, h);
    forall p
      ensures ProducerOk(t, p)
    {
      assert ProducerOk(s, p);
      if p == q {
        assert h in t.owner && t.owner[h] == q;
      } else if At(t, p).Claimed? {
        var n :| n in s.owner && s.owner[n] == p;
        assert n in t.owner && t.owner[n] == p;
      }
    }
    forall m | m in s.owner
      ensures s.owner[m] != q
    {
      assert OwnerOk(s, m) && PlaceOk(s, m);
    }
    forall n
      ensures OwnerOk(t, n)
    {
      assert OwnerOk(s, n);
    }
  }

  /** The store finds the claimed slot empty and fills the place it was claimed for. */
  lemma StoreKeeps(s: State, q: Producer)
    requires Inv(s) && Enabled(s, Store(q))
    ensures s.buf[At(s, q).icur] == None
    ensures Inv(Apply(s, Store(q)))
  {
    var t, e := Apply(s, Store(q)), At(s, q);
    assert ProducerOk(s, q);
    var c :| c in s.owner && s.owner[c] == q;
    assert OwnerOk(s, c) && PlaceOk(s, c);
    forall n | t.cleared <= n < |t.order|
      ensures PlaceOk(t, n)
    {
      assert PlaceOk(s, n) && OwnerOk(s, n);
      if n != c {
        WriteOne(s, c, n, Some(e.p));
      }
    }
    forall n | |t.order| <= n < t.cleared + t.capacity
      ensures Slot(t, n) == None
    {
      assert Slot(s, n) == None;
      WriteOne(s, c, n, Some(e.p));
    }
    StoreOwners(s, q);
    assert OwnerOk(s, s.cleared);
  }

  lemma StoreOwners(s: State, q: Producer)
    requires Inv(s) && Enabled(s, Store(q))
    ensures forall p :: ProducerOk(Apply(s, Store(q)), p)
    ensures forall n :: OwnerOk(Apply(s, Store(q)), n)
  {
    var t := Apply(s, Store(q));
    forall p
      ensures ProducerOk(t, p)
    {
      assert ProducerOk(s, p);
      if At(t, p).Claimed? {
        var n :| n in s.owner && s.owner[n] == p;
        assert n in t.owner && t.owner[n] == p;
      }
    }
    forall n
      ensures OwnerOk(t, n)
    {
      assert OwnerOk(s, n);
    }
  }

  /** A slot the consumer finds filled holds the next pointer of the order. */
  lemma TakeKeeps(s: State)
    requires Inv(s) && Enabled(s, Take)
    ensures s.cleared < |s.order| && s.buf[s.tail] == Some(s.order[s.cleared])
    ensures Inv(Apply(s, Take))
  {
    assert Slot(s, s.cleared) != None ==> s.cleared != |s.order|;
    assert PlaceOk(s, s.cleared);
    SameShared(s, Apply(s, Take));
  }

  lemma BumpKeeps(s: State)
    requires Inv(s) && Enabled(s, BumpTail)
    ensures Inv(Apply(s, BumpTail))
  {
    ModStep(s.cleared, s.capacity);
    SameShared(s, Apply(s, BumpTail));
  }

  /** Steps that only move the consumer. */
  lemma SameShared(s: State, t: State)
    requires Inv(s) && t == s.(consumer := t.consumer, tail := t.tail) && ConsumerOk(t)
    ensures Inv(t)
  {
    forall n | t.cleared <= n < |t.order|
      ensures PlaceOk(t, n)
    {
      assert PlaceOk(s, n);
    }
    forall q
      ensures ProducerOk(t, q)
    {
      assert ProducerOk(s, q);
    }
    forall n
      ensures OwnerOk(t, n)
    {
      assert OwnerOk(s, n);
    }
    forall n | |t.order| <= n < t.cleared + t.capacity
      ensures Slot(t, n) == None
    {
      assert Slot(s, n) == None;
    }
  }

  /** Clearing gives the slot of the delivered place back for the place one lap on. */
  lemma ClearKeeps(s: State)
    requires Inv(s) && Enabled(s, Clear)
    ensures Inv(Apply(s, Clear))
  {
    var t, c := Apply(s, Clear), s.cleared;
    assert s.order[..c + 1] == s.order[..c] + [s.order[c]];
    forall n | t.cleared <= n < |t.order|
      ensures PlaceOk(t, n)
    {
      assert PlaceOk(s, n);
      WriteOne(s, c, n, None);
    }
    forall n | |t.order| <= n < t.cleared + t.capacity
      ensures Slot(t, n) == None
    {
      if n == c + s.capacity {
        ModStep(c, s.capacity);
      } else {
        assert Slot(s, n) == None;
        WriteOne(s, c, n, None);
      }
    }
    forall q
      ensures ProducerOk(t, q)
    {
      assert ProducerOk(s, q);
    }
    forall n
      ensures OwnerOk(t, n)
    {
      assert OwnerOk(s, n);
    }
  }

  lemma StepKeeps(s: State, step: Step)
    requires Inv(s) && Enabled(s, step)
    ensures Inv(Apply(s, step))
  {
    match step
    case Enter(q, p) => MoveKeeps(s, q, Entered(p), s.inside + {q});
    case LoadHead(q) => Stays(s, q, Loaded(At(s, q).p, s.head));
    case CheckSlot(q) =>
      var e := At(s, q);
      Stays(s, q, if s.buf[e.icur].None? then SawEmpty(e.p, e.icur) else Entered(e.p));
    case Cas(q) =>
      if s.head == At(s, q).icur {
        CasKeeps(s, q);
      } else {
        Stays(s, q, Entered(At(s, q).p));
      }
    case Store(q) => StoreKeeps(s, q);
    case Take => TakeKeeps(s);
    case BumpTail => BumpKeeps(s);
    case Clear => ClearKeeps(s);
  }

  lemma Stays(s: State, q: Producer, e: Enq)
    requires Inv(s) && (At(s, q).Entered? || At(s, q).Loaded? || At(s, q).SawEmpty?)
    requires e.Entered? || ((e.Loaded? || e.SawEmpty?) && e.icur < s.capacity)
    ensures Inv(Move(s, q, e))
  {
    assert ProducerOk(s, q);
    assert s.inside + {q} == s.inside;
    MoveKeeps(s, q, e, s.inside);
  }

  lemma {:induction false} RunKeepsInv(s: State, steps: seq<Step>)
    requires Initial(s) && Run(s, steps).Some?
    ensures Inv(Run(s, steps).value)
  {
    if steps != [] {
      RunKeepsInv(s, steps[..|steps| - 1]);
      StepKeeps(Run(s, steps[..|steps| - 1]).value, steps[|steps| - 1]);
    }
  }

  // ------------------------------------------------------------------ the theorems

  /** Pointers are delivered exactly once, in the order of the compare-and-swaps. */
  lemma DeliveredInOrder(s: State, steps: seq<Step>)
    requires Initial(s) && Run(s, steps).Some?
    ensures
      var t := Run(s, steps).value;
      t.delivered <= t.order && |t.order| - |t.delivered| <= t.capacity
  {
    RunKeepsInv(s, steps);
  }

  /** No store ever hits a slot that is in use, and a claim never takes one that is claimed. */
  lemma NoOverwrite(s: State, steps: seq<Step>, q: Producer)
    requires Initial(s) && Run(s, steps).Some?
    ensures
      var t := Run(s, steps).value;
      && (Enabled(t, Store(q)) ==> t.buf[At(t, q).icur] == None)
      && (forall p :: p != q && At(t, q).Claimed? && At(t, p).Claimed? ==> At(t, p).icur != At(t, q).icur)
  {
    RunKeepsInv(s, steps);
    var t := Run(s, steps).value;
    if Enabled(t, Store(q)) {
      StoreKeeps(t, q);
    }
    forall p | p != q && At(t, q).Claimed? && At(t, p).Claimed?
      ensures At(t, p).icur != At(t, q).icur
    {
      ClaimsApart(t, p, q);
    }
  }

  lemma ClaimsApart(t: State, p: Producer, q: Producer)
    requires Inv(t) && p != q && At(t, q).Claimed? && At(t, p).Claimed?
    ensures At(t, p).icur != At(t, q).icur
  {
    assert ProducerOk(t, p) && ProducerOk(t, q);
    var m :| m in t.owner && t.owner[m] == p;
    var n :| n in t.owner && t.owner[n] == q;
    assert OwnerOk(t, m) && OwnerOk(t, n) && PlaceOk(t, m) && PlaceOk(t, n);
    if m < n {
      ModApart(m, n, t.capacity);
    } else {
      ModApart(n, m, t.capacity);
    }
  }

  /** Nothing is lost: when nobody is in the middle of an operation, the ring holds, slot
      by slot, exactly the pointers claimed and not yet delivered. */
  lemma NothingLost(s: State, steps: seq<Step>)
    requires Initial(s) && Run(s, steps).Some?
    ensures
      var t := Run(s, steps).value;
      t.capacity >= 1 && |t.buf| == t.capacity &&
      ((forall q :: At(t, q).Away?) ==> forall n :: |t.delivered| <= n < |t.order| ==> Slot(t, n) == Some(t.order[n]))
  {
    RunKeepsInv(s, steps);
    var t := Run(s, steps).value;
    if forall q :: At(t, q).Away? {
      forall n | |t.delivered| <= n < |t.order|
        ensures Slot(t, n) == Some(t.order[n])
      {
        assert PlaceOk(t, n);
        if n in t.owner {
          assert false;
        }
      }
    }
  }
}
