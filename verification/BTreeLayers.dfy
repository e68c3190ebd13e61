/** The whole tree: layers of B+-trees, one for each 8 bytes of key, as a map from byte
    strings to values. */
module BTreeLayers {
  import opened Common
  import opened BTree
  import opened BTreeInsert
  import opened BTreeRemove
  import Keys = BTreeKeys

  type Key = Keys.Key
  type Value = nat        // a pointer to a record

  /** A slot holds a value, with the rest of its key if that is longer than the slice, or
      the root of the next layer. */
  datatype Payload = Val(value: Value, suffix: Key) | Layer(root: Node<Payload>)

  type Slot = Entry<Payload>
  type Tree = Node<Payload>

  predicate For(e: Slot, k: Key) { At(e, Keys.Slice(k), Keys.Len(k)) }

  // ------------------------------------------------------------------ the invariant

  /** A slot's layer is a tree of its own, and only keys that go on can be in it. */
  ghost predicate SlotOk(e: Slot)
    decreases e
  {
    && (exists k :: Stored(e, k))
    && match e.payload
       case Val(_, suffix) => e.len == 9 <==> suffix != []
       case Layer(root) => e.len == 9 && Root(root) && SlotsOk(root)
  }

  /** The slot has the slice and the length of some key, and the rest of it if a value. */
  predicate Stored(e: Slot, k: Key) { For(e, k) && (e.payload.Val? ==> e.payload.suffix == Keys.Shift(k)) }

  ghost predicate SlotsOk(t: Tree)
    decreases t
  {
    match t
    case Leaf(_, es) => forall i :: 0 <= i < |es| ==> SlotOk(es[i])
    case Internal(_, kids) => forall i :: 0 <= i < |kids| ==> SlotsOk(kids[i])
  }

  ghost predicate TreeOk(t: Tree) { Root(t) && SlotsOk(t) }

  lemma {:induction false} SlotOfTree(t: Tree, e: Slot)
    requires SlotsOk(t) && In(e, t)
    ensures SlotOk(e)
    decreases t
  {
    match t
    case Leaf(_, es) =>
      var i :| 0 <= i < |es| && es[i] == e;
      assert SlotOk(es[i]);
    case Internal(_, kids) =>
      var i :| 0 <= i < |kids| && In(e, kids[i]);
      assert SlotsOk(kids[i]);
      SlotOfTree(kids[i], e);
  }

  lemma {:induction false} TreeOfSlots(t: Tree)
    requires forall e :: In(e, t) ==> SlotOk(e)
    ensures SlotsOk(t)
    decreases t
  {
    match t
    case Leaf(_, es) =>
      forall i | 0 <= i < |es|
        ensures SlotOk(es[i])
      {
        assert In(es[i], t);
      }
    case Internal(_, kids) =>
      forall i | 0 <= i < |kids|
        ensures SlotsOk(kids[i])
      {
        forall e | In(e, kids[i])
          ensures SlotOk(e)
        {
          assert In(e, t);
        }
        TreeOfSlots(kids[i]);
      }
  }

  function Lookup(t: Tree, k: Key): Option<Slot> { Find(t, Keys.Slice(k), Keys.Len(k)) }

  /** The slot a search finds is the one slot of its slice and length, and is sound. */
  lemma LookupIs(t: Tree, k: Key)
    requires TreeOk(t)
    ensures forall e :: Lookup(t, k) == Some(e) <==> In(e, t) && For(e, k)
    ensures Lookup(t, k).Some? ==> SlotOk(Lookup(t, k).value)
    ensures Shaped(t) && Paired(t)
  {
    Keys.SliceBelow(k);
    WFShaped(t, Height(t), 0, TOP, true);
    WFPaired(t, Height(t), 0, TOP, true);
    forall e
      ensures Lookup(t, k) == Some(e) <==> In(e, t) && For(e, k)
    {
      FindIsIn(t, Height(t), 0, TOP, true, Keys.Slice(k), Keys.Len(k), e);
    }
    if Lookup(t, k).Some? {
      SlotOfTree(t, Lookup(t, k).value);
    }
  }

  // ------------------------------------------------------------------ the operations

  /** search_impl */
  ghost function Get(t: Tree, k: Key): Option<Value>
    requires TreeOk(t)
    decreases |k|
  {
    LookupIs(t, k);
    match Lookup(t, k)
    case None => None
    case Some(e) =>
      match e.payload
      case Val(v, suffix) => if |k| <= 8 || suffix == Keys.Shift(k) then Some(v) else None
      case Layer(root) => Get(root, Keys.Shift(k))
  }

  function NewSlot(k: Key, p: Payload): Slot { Entry(Keys.Slice(k), Keys.Len(k), p) }

  function NewVal(k: Key, v: Value): Slot { NewSlot(k, Val(v, Keys.Shift(k))) }

  /** The first leaf of a new layer. */
  function NewLayer(suffix: Key, v: Value): Tree { Leaf(0, [NewVal(suffix, v)]) }

  lemma NewLayerOk(suffix: Key, v: Value)
    ensures TreeOk(NewLayer(suffix, v))
  {
    Keys.SliceBelow(suffix);
    assert Stored(NewVal(suffix, v), suffix);
  }

  /** insert0: the slot the key's slice and length get.  A value with another suffix moves
      down into a new layer, which then takes the new key. */
  ghost function PutSlot(t: Tree, k: Key, v: Value, onlyIfAbsent: bool): Slot
    requires TreeOk(t)
    decreases |k|, 0
  {
    LookupIs(t, k);
    match Lookup(t, k)
    case None => NewVal(k, v)
    case Some(e) =>
      match e.payload
      case Val(w, suffix) =>
        if |k| <= 8 || suffix == Keys.Shift(k) then (if onlyIfAbsent then e else NewVal(k, v))
        else
          NewLayerOk(suffix, w);
          NewSlot(k, Layer(Insert(NewLayer(suffix, w), Keys.Shift(k), v, onlyIfAbsent)))
      case Layer(root) => NewSlot(k, Layer(Insert(root, Keys.Shift(k), v, onlyIfAbsent)))
  }

  /** insert and insert_if_absent on a whole tree. */
  ghost function Insert(t: Tree, k: Key, v: Value, onlyIfAbsent: bool): Tree
    requires TreeOk(t)
    decreases |k|, 1
  {
    LookupIs(t, k);
    InsertRoot(t, PutSlot(t, k, v, onlyIfAbsent))
  }

  /** remove on a whole tree.  A layer stays a layer, even when it becomes empty. */
  ghost function Delete(t: Tree, k: Key): Tree
    requires TreeOk(t)
    decreases |k|
  {
    LookupIs(t, k);
    match Lookup(t, k)
    case None => t
    case Some(e) =>
      match e.payload
      case Val(_, suffix) =>
        if |k| > 8 && suffix != Keys.Shift(k) then t else RemoveRoot(t, Keys.Slice(k), Keys.Len(k))
      case Layer(root) => InsertRoot(t, NewSlot(k, Layer(Delete(root, Keys.Shift(k)))))
  }

  // ------------------------------------------------------------------ what a tree stands for

  /** The slot gives v for k: it is a value for exactly the rest of k, or its layer does. */
  ghost predicate Gives(e: Slot, k: Key, v: Value)
    decreases |k|, 0
  {
    match e.payload
    case Val(w, suffix) => w == v && suffix == Keys.Shift(k)
    case Layer(root) => |k| > 8 && Binds(root, Keys.Shift(k), v)
  }

  /** Some slot, anywhere in the tree, gives v for k. */
  ghost predicate Binds(t: Tree, k: Key, v: Value)
    decreases |k|, 1
  {
    exists e :: In(e, t) && For(e, k) && Gives(e, k, v)
  }

  /** With the only slot for a key in hand, the tree binds what the slot gives. */
  lemma BindsAt(t: Tree, k: Key, v: Value)
    requires TreeOk(t)
    ensures Binds(t, k, v) <==> Lookup(t, k).Some? && Gives(Lookup(t, k).value, k, v)
  {
    LookupIs(t, k);
    if Lookup(t, k).Some? {
      assert In(Lookup(t, k).value, t) && For(Lookup(t, k).value, k);
    }
    if Binds(t, k, v) {
      var e :| In(e, t) && For(e, k) && Gives(e, k, v);
      assert Lookup(t, k) == Some(e);
    }
  }

  /** search finds exactly the value bound to the key. */
  lemma {:induction false} SearchCorrect(t: Tree, k: Key, v: Value)
    requires TreeOk(t)
    ensures Get(t, k) == Some(v) <==> Binds(t, k, v)
    decreases |k|
  {
    LookupIs(t, k);
    BindsAt(t, k, v);
    match Lookup(t, k)
    case None =>
    case Some(e) =>
      match e.payload
      case Val(w, suffix) =>
      case Layer(root) => SearchCorrect(root, Keys.Shift(k), v);
  }

  /** The tree after one slot was put in. */
  ghost predicate SlotPut(t: Tree, t': Tree, e: Slot) {
    TreeOk(t') && forall x :: In(x, t') <==> Holds(x, e, In(x, t))
  }

  lemma PutOneSlot(t: Tree, e: Slot)
    requires TreeOk(t) && Fits(e, 0, TOP) && SlotOk(e)
    ensures Shaped(t) && SlotPut(t, InsertRoot(t, e), e)
  {
    InsertRootCorrect(t, e);
    forall x | In(x, InsertRoot(t, e))
      ensures SlotOk(x)
    {
      if x != e {
        SlotOfTree(t, x);
      }
    }
    TreeOfSlots(InsertRoot(t, e));
  }

  /** Putting a slot in changes what is bound to the keys of its slice and length only. */
  lemma SlotPutBinds(t: Tree, t': Tree, e: Slot, k: Key, v: Value)
    requires SlotPut(t, t', e)
    ensures For(e, k) ==> (Binds(t', k, v) <==> Gives(e, k, v))
    ensures !For(e, k) ==> (Binds(t', k, v) <==> Binds(t, k, v))
  {
    if For(e, k) {
      assert In(e, t');
    } else {
      if Binds(t, k, v) {
        var x :| In(x, t) && For(x, k) && Gives(x, k, v);
        assert In(x, t');
      }
      if Binds(t', k, v) {
        var x :| In(x, t') && For(x, k) && Gives(x, k, v);
        assert In(x, t);
      }
    }
  }

  // ------------------------------------------------------------------ insert

  /** Inserting keeps the tree well formed, in every layer it reaches. */
  lemma {:induction false} InsertKeepsTree(t: Tree, k: Key, v: Value, onlyIfAbsent: bool)
    requires TreeOk(t)
    ensures For(PutSlot(t, k, v, onlyIfAbsent), k)
    ensures SlotPut(t, Insert(t, k, v, onlyIfAbsent), PutSlot(t, k, v, onlyIfAbsent))
    decreases |k|
  {
    LookupIs(t, k);
    Keys.SliceBelow(k);
    if Lookup(t, k).Some? {
      match Lookup(t, k).value.payload
      case Val(w, suffix) =>
        if |k| > 8 && suffix != Keys.Shift(k) {
          NewLayerOk(suffix, w);
          InsertKeepsTree(NewLayer(suffix, w), Keys.Shift(k), v, onlyIfAbsent);
        }
      case Layer(root) => InsertKeepsTree(root, Keys.Shift(k), v, onlyIfAbsent);
    }
    var e := PutSlot(t, k, v, onlyIfAbsent);
    assert e == NewVal(k, v) || e.payload.Layer? ==> Stored(e, k);
    PutOneSlot(t, PutSlot(t, k, v, onlyIfAbsent));
  }

  lemma NewLayerBinds(suffix: Key, w: Value, k: Key, v: Value)
    ensures Binds(NewLayer(suffix, w), k, v) <==> k == suffix && v == w
  {
    var e := NewVal(suffix, w);
    if Binds(NewLayer(suffix, w), k, v) {
      var x :| In(x, NewLayer(suffix, w)) && For(x, k) && Gives(x, k, v);
      assert x == e;
      Keys.KeyUnique(k, suffix);
    }
    if k == suffix && v == w {
      assert In(e, NewLayer(suffix, w)) && For(e, k) && Gives(e, k, v);
    }
  }

  /** Whether the insert stores its value. */
  ghost predicate Stores(t: Tree, k: Key, onlyIfAbsent: bool)
    requires TreeOk(t)
  {
    !(onlyIfAbsent && Get(t, k).Some?)
  }

  /** What the new slot gives for the keys of its slice and length. */
  lemma {:induction false} PutSlotGives(t: Tree, k: Key, v: Value, onlyIfAbsent: bool, k': Key, v': Value)
    requires TreeOk(t) && Keys.Slice(k') == Keys.Slice(k) && Keys.Len(k') == Keys.Len(k)
    ensures
      Gives(PutSlot(t, k, v, onlyIfAbsent), k', v') <==>
      if k' == k && Stores(t, k, onlyIfAbsent) then v' == v else Binds(t, k', v')
    decreases |k|, 0
  {
    LookupIs(t, k);
    BindsAt(t, k', v');
    assert Keys.Shift(k') == Keys.Shift(k) <==> k' == k by {
      if Keys.Shift(k') == Keys.Shift(k) {
        Keys.KeyUnique(k, k');
      }
    }
    if Lookup(t, k).Some? {
      match Lookup(t, k).value.payload
      case Val(w, suffix) =>
        if |k| > 8 && suffix != Keys.Shift(k) {
          NewLayerOk(suffix, w);
          InsertBinds(NewLayer(suffix, w), Keys.Shift(k), v, onlyIfAbsent, Keys.Shift(k'), v');
          NewLayerBinds(suffix, w, Keys.Shift(k'), v');
          NewLayerMisses(suffix, w, Keys.Shift(k));
        }
      case Layer(root) => InsertBinds(root, Keys.Shift(k), v, onlyIfAbsent, Keys.Shift(k'), v');
    }
  }

  lemma NewLayerMisses(suffix: Key, w: Value, k: Key)
    requires k != suffix
    ensures TreeOk(NewLayer(suffix, w)) && Get(NewLayer(suffix, w), k).None?
  {
    NewLayerOk(suffix, w);
    var t := NewLayer(suffix, w);
    if Get(t, k).Some? {
      SearchCorrect(t, k, Get(t, k).value);
      NewLayerBinds(suffix, w, k, Get(t, k).value);
    }
  }

  /** insert and insert_if_absent: afterwards the key has the new value, unless it was
      present and should not be overwritten, and every other key has what it had. */
  lemma {:induction false} InsertBinds(t: Tree, k: Key, v: Value, onlyIfAbsent: bool, k': Key, v': Value)
    requires TreeOk(t)
    ensures TreeOk(Insert(t, k, v, onlyIfAbsent))
    ensures
      Binds(Insert(t, k, v, onlyIfAbsent), k', v') <==>
      if k' == k && Stores(t, k, onlyIfAbsent) then v' == v else Binds(t, k', v')
    decreases |k|, 1
  {
    var e := PutSlot(t, k, v, onlyIfAbsent);
    InsertKeepsTree(t, k, v, onlyIfAbsent);
    SlotPutBinds(t, Insert(t, k, v, onlyIfAbsent), e, k', v');
    if For(e, k') {
      PutSlotGives(t, k, v, onlyIfAbsent, k', v');
    }
  }

  // ------------------------------------------------------------------ remove

  lemma {:induction false} DeleteKeepsTree(t: Tree, k: Key)
    requires TreeOk(t)
    ensures TreeOk(Delete(t, k))
    decreases |k|
  {
    LookupIs(t, k);
    Keys.SliceBelow(k);
    if Lookup(t, k).Some? {
      match Lookup(t, k).value.payload
      case Val(_, suffix) => RemoveOneSlot(t, k);
      case Layer(root) =>
        DeleteKeepsTree(root, Keys.Shift(k));
        assert Stored(NewSlot(k, Layer(Delete(root, Keys.Shift(k)))), k);
        PutOneSlot(t, NewSlot(k, Layer(Delete(root, Keys.Shift(k)))));
    }
  }

  lemma RemoveOneSlot(t: Tree, k: Key)
    requires TreeOk(t)
    ensures Paired(t) && TreeOk(RemoveRoot(t, Keys.Slice(k), Keys.Len(k)))
    ensures forall x :: In(x, RemoveRoot(t, Keys.Slice(k), Keys.Len(k))) <==> In(x, t) && !For(x, k)
  {
    Keys.SliceBelow(k);
    RemoveRootCorrect(t, Keys.Slice(k), Keys.Len(k));
    var t' := RemoveRoot(t, Keys.Slice(k), Keys.Len(k));
    forall x | In(x, t')
      ensures SlotOk(x)
    {
      SlotOfTree(t, x);
    }
    TreeOfSlots(t');
  }

  lemma RemoveOneBinds(t: Tree, k: Key, k': Key, v': Value)
    requires TreeOk(t) && Lookup(t, k).Some? && Lookup(t, k).value.payload.Val?
    requires Lookup(t, k).value.payload.suffix == Keys.Shift(k)
    ensures Paired(t)
    ensures Binds(RemoveRoot(t, Keys.Slice(k), Keys.Len(k)), k', v') <==> k' != k && Binds(t, k', v')
  {
    RemoveOneSlot(t, k);
    LookupIs(t, k);
    BindsAt(t, k', v');
    var t' := RemoveRoot(t, Keys.Slice(k), Keys.Len(k));
    if Binds(t', k', v') {
      var x :| In(x, t') && For(x, k') && Gives(x, k', v');
      assert In(x, t);
    }
    if k' != k && Binds(t, k', v') {
      var x :| In(x, t) && For(x, k') && Gives(x, k', v');
      if For(x, k) {
        assert Lookup(t, k) == Some(x);
        Keys.KeyUnique(k, k');
      }
      assert In(x, t');
    }
  }

  /** remove: afterwards the key is unbound and every other key has what it had. */
  lemma {:induction false} RemoveBinds(t: Tree, k: Key, k': Key, v': Value)
    requires TreeOk(t)
    ensures TreeOk(Delete(t, k))
    ensures Binds(Delete(t, k), k', v') <==> k' != k && Binds(t, k', v')
    decreases |k|
  {
    DeleteKeepsTree(t, k);
    LookupIs(t, k);
    Keys.SliceBelow(k);
    BindsAt(t, k, v');
    if Lookup(t, k).Some? {
      match Lookup(t, k).value.payload
      case Val(_, suffix) =>
        if !(|k| > 8 && suffix != Keys.Shift(k)) {
          RemoveOneBinds(t, k, k', v');
        }
      case Layer(root) => RemoveInLayer(t, k, root, k', v');
    }
  }

  lemma {:induction false} RemoveInLayer(t: Tree, k: Key, root: Tree, k': Key, v': Value)
    requires TreeOk(t) && Lookup(t, k).Some? && Lookup(t, k).value.payload == Layer(root) && |k| > 8 && TreeOk(root)
    ensures Binds(Delete(t, k), k', v') <==> k' != k && Binds(t, k', v')
    decreases |k|, 0
  {
    var e := NewSlot(k, Layer(Delete(root, Keys.Shift(k))));
    LookupIs(t, k);
    Keys.SliceBelow(k);
    DeleteKeepsTree(root, Keys.Shift(k));
    assert Stored(e, k);
    PutOneSlot(t, e);
    SlotPutBinds(t, Delete(t, k), e, k', v');
    if For(e, k') {
      BindsAt(t, k', v');
      RemoveBinds(root, Keys.Shift(k), Keys.Shift(k'), v');
      if Keys.Shift(k') == Keys.Shift(k) {
        Keys.KeyUnique(k, k');
      }
    }
  }

  // ------------------------------------------------------------------ return values

  /** The status insert returns: whether the key was new.  Only an exact match is not. */
  ghost function Inserted(t: Tree, k: Key): bool
    requires TreeOk(t)
    decreases |k|
  {
    LookupIs(t, k);
    match Lookup(t, k)
    case None => true
    case Some(e) =>
      match e.payload
      case Val(w, suffix) =>
        if |k| <= 8 || suffix == Keys.Shift(k) then false
        else
          NewLayerOk(suffix, w);
          Inserted(NewLayer(suffix, w), Keys.Shift(k))
      case Layer(root) => Inserted(root, Keys.Shift(k))
  }

  /** The status remove returns: whether it removed anything. */
  ghost function Removed(t: Tree, k: Key): bool
    requires TreeOk(t)
    decreases |k|
  {
    LookupIs(t, k);
    match Lookup(t, k)
    case None => false
    case Some(e) =>
      match e.payload
      case Val(_, suffix) => |k| <= 8 || suffix == Keys.Shift(k)
      case Layer(root) => Removed(root, Keys.Shift(k))
  }

  /** insert returns true, and remove returns false, exactly when the key is absent; and
      inserting into a layer just made for a clash always finds the key new. */
  lemma {:induction false} StatusIsPresence(t: Tree, k: Key)
    requires TreeOk(t)
    ensures Inserted(t, k) <==> Get(t, k).None?
    ensures Removed(t, k) <==> Get(t, k).Some?
    decreases |k|
  {
    LookupIs(t, k);
    if Lookup(t, k).Some? {
      match Lookup(t, k).value.payload
      case Val(w, suffix) =>
        if |k| > 8 && suffix != Keys.Shift(k) {
          NewLayerMisses(suffix, w, Keys.Shift(k));
          StatusIsPresence(NewLayer(suffix, w), Keys.Shift(k));
        }
      case Layer(root) => StatusIsPresence(root, Keys.Shift(k));
    }
  }

  // ------------------------------------------------------------------ whole runs

  datatype Op = DoInsert(k: Key, v: Value) | DoInsertIfAbsent(k: Key, v: Value) | DoRemove(k: Key)

  /** The reference: a plain map. */
  function MapAfter(ops: seq<Op>): map<Key, Value> {
    if ops == [] then map[]
    else
      var m := MapAfter(ops[..|ops| - 1]);
      match ops[|ops| - 1]
      case DoInsert(k, v) => m[k := v]
      case DoInsertIfAbsent(k, v) => if k in m then m else m[k := v]
      case DoRemove(k) => m - {k}
  }

  ghost function Step(t: Tree, op: Op): Tree
    requires TreeOk(t)
  {
    match op
    case DoInsert(k, v) => Insert(t, k, v, false)
    case DoInsertIfAbsent(k, v) => Insert(t, k, v, true)
    case DoRemove(k) => Delete(t, k)
  }

  /** A new tree is one empty leaf. */
  ghost function TreeAfter(ops: seq<Op>): (t: Tree)
    ensures TreeOk(t)
  {
    if ops == [] then Leaf(0, [])
    else
      var t := TreeAfter(ops[..|ops| - 1]);
      StepKeeps(t, ops[|ops| - 1]);
      Step(t, ops[|ops| - 1])
  }

  lemma StepKeeps(t: Tree, op: Op)
    requires TreeOk(t)
    ensures TreeOk(Step(t, op))
  {
    match op
    case DoInsert(k, v) => InsertKeepsTree(t, k, v, false);
    case DoInsertIfAbsent(k, v) => InsertKeepsTree(t, k, v, true);
    case DoRemove(k) => DeleteKeepsTree(t, k);
  }

  /** The tree and the map agree on a key. */
  ghost predicate Agree(t: Tree, m: map<Key, Value>, k: Key) {
    forall v :: Binds(t, k, v) <==> k in m && m[k] == v
  }

  /** After any sequence of operations the tree is well formed and search answers for every
      key what a map would: splits, layers, steals, merges and collapses do not show. */
  lemma {:induction false} RunRefinesMap(ops: seq<Op>, k: Key)
    ensures Get(TreeAfter(ops), k) == if k in MapAfter(ops) then Some(MapAfter(ops)[k]) else None
    ensures Agree(TreeAfter(ops), MapAfter(ops), k)
  {
    var t, m := TreeAfter(ops), MapAfter(ops);
    if ops != [] {
      var before, op := TreeAfter(ops[..|ops| - 1]), ops[|ops| - 1];
      RunRefinesMap(ops[..|ops| - 1], k);
      RunRefinesMap(ops[..|ops| - 1], op.k);
      forall v
        ensures Binds(t, k, v) <==> k in m && m[k] == v
      {
        match op
        case DoInsert(k0, v0) => InsertBinds(before, k0, v0, false, k, v);
        case DoInsertIfAbsent(k0, v0) => InsertBinds(before, k0, v0, true, k, v);
        case DoRemove(k0) => RemoveBinds(before, k0, k, v);
      }
    }
    GetIsBinding(t, m, k);
  }

  lemma GetIsBinding(t: Tree, m: map<Key, Value>, k: Key)
    requires TreeOk(t) && Agree(t, m, k)
    ensures Get(t, k) == if k in m then Some(m[k]) else None
  {
    if k in m {
      SearchCorrect(t, k, m[k]);
    } else if Get(t, k).Some? {
      SearchCorrect(t, k, Get(t, k).value);
    }
  }
}
