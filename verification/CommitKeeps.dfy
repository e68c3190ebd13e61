/** Every step keeps the lock-point order and the serial database it defines. */
module CommitKeeps {
  import opened Common
  import opened CommitModel
  import opened CommitInvariant
  import opened CommitLocal
  import opened CommitOwn
  import opened CommitOrder

  // ------------------------------------------------------------------ the order itself

  lemma OrderKept(s: State, s': State, t: TxnId)
    requires OrderOk(s) && Moves(s, s', t)
    ensures OrderOk(s')
  {
    if BeforeLockPoint(s.txns[t].phase) {
      assert t !in s.order;
    }
  }

  /** A transaction in the order keeps its place and advances. */
  lemma PlaceKept(s: State, s': State, t: TxnId, i: nat)
    requires OrderOk(s) && Moves(s, s', t) && i < |s.order|
    ensures && i < |s'.order| && s'.order[i] == s.order[i] && s.order[i] in s'.txns
            && Advances(s.txns[s.order[i]], s'.txns[s.order[i]])
  {}

  /** A transaction at its lock point owns the index entry of every key it writes, so
      no earlier transaction still has that key to apply. */
  lemma NewWriter(s: State, t: TxnId, x: Txn, y: Txn, t': TxnId, k: Key)
    requires LocalOk(s) && t in s.txns && s.txns[t] == x && t' in s.txns && s.txns[t'] == y && t != t'
    requires x.phase.Locking? && x.phase.todo == [] && HasWrite(x.writes, k)
    requires !BeforeLockPoint(y.phase) && HasWrite(y.writes, k)
    ensures Over(y, k)
  {
    var m := s.mem;
    assert TxnOk(m, t, x) && TxnOk(m, t', y);
    var p :| 0 <= p < |x.writes| && x.writes[p].key == k;
    assert Owns(m, t, x.writes[p].tuple) && WriteOk(m, x.writes[p]);
    assert OwnedOk(m, x, x.writes[p].tuple);
    if !Over(y, k) {
      var q :| Rest(y) <= q < |y.writes| && y.writes[q].key == k;
      assert PendingOk(m, y, y.writes[q]) && Owns(m, t', y.writes[q].tuple);
      InsertIsLatest(m, t, x, x.writes[p].tuple);
      assert false;
    }
  }

  /** Before its lock point a transaction holds only tuples that are the latest. */
  lemma InsertIsLatest(m: Mem, t: TxnId, x: Txn, u: TupleId)
    requires TxnOk(m, t, x) && x.phase.Locking? && Owns(m, t, u)
    ensures m.tuples[u].latest
  {
    assert OwnedOk(m, x, u);
    if Tentative(m.tuples[u]) {
      var p :| 0 <= p < |x.writes| && x.writes[p].tuple == u && x.writes[p].insert;
      assert InsertOk(m, t, x, p);
    }
  }

  lemma WritersKept(s: State, s': State, t: TxnId)
    requires LocalOk(s) && OrderOk(s) && WritersOk(s) && Moves(s, s', t) && OrderOk(s')
    ensures WritersOk(s')
  {
    forall i, j, k | 0 <= i < j < |s'.order|
      && HasWrite(s'.txns[s'.order[i]].writes, k) && HasWrite(s'.txns[s'.order[j]].writes, k)
      ensures Over(s'.txns[s'.order[i]], k)
    {
      PlaceKept(s, s', t, i);
      if j < |s.order| {
        PlaceKept(s, s', t, j);
        assert Over(s.txns[s.order[i]], k);
      } else {
        NewWriter(s, t, s.txns[t], s.txns[s.order[i]], s.order[i], k);
      }
    }
  }

  // ------------------------------------------------------------------ contents

  /** A tuple outside the reach of an action, as far as readers of its value can tell. */
  predicate SameContent(m: Mem, m': Mem, u: TupleId) {
    u in m.tuples ==> u in m'.tuples && m'.tuples[u].version == m.tuples[u].version && m'.tuples[u].value == m.tuples[u].value
  }

  lemma TupleOfOthers(m: Mem, t: TxnId, x: Txn, a: Action, u: TupleId)
    requires Guard(m, t, x, a) && u in m.tuples
    requires a.InstallInsert? || a.InstallInPlace? ==> u != x.writes[x.phase.pos].tuple
    ensures SameContent(m, MemAfter(m, t, x, a), u)
  {}

  lemma IndexOfOthers(m: Mem, t: TxnId, x: Txn, a: Action, k: Key)
    requires Guard(m, t, x, a) && !a.Insert? && !a.Cleanup? && (a.Publish? ==> k != x.writes[x.phase.pos].key)
    ensures var m' := MemAfter(m, t, x, a);
            (k in m'.index <==> k in m.index) && (k in m.index ==> m'.index[k] == m.index[k])
  {}

  lemma ContentOfOthers(m: Mem, t: TxnId, x: Txn, a: Action, k: Key)
    requires MemOk(m) && WritesOk(m, x) && InsertsOk(m, t, x) && Guard(m, t, x, a)
    requires Applying(a) ==> k != x.writes[x.phase.pos].key
    ensures Content(MemAfter(m, t, x, a), k) == Content(m, k)
  {
    if a.Cleanup? {
      assert InsertOk(m, t, x, x.phase.pos);
    } else if !a.Insert? {
      IndexOfOthers(m, t, x, a, k);
      if k in m.index {
        TupleOfOthers(m, t, x, a, m.index[k]);
      }
    }
  }

  lemma ContentApplied(m: Mem, t: TxnId, x: Txn, a: Action)
    requires MemOk(m) && WritesOk(m, x) && LocksOk(m, t, x) && Guard(m, t, x, a)
    requires Applying(a) && Done(TxnAfter(m, t, x, a), x.writes[x.phase.pos].key)
    ensures Content(MemAfter(m, t, x, a), x.writes[x.phase.pos].key) == x.writes[x.phase.pos].value
  {
    var p := x.phase.pos;
    assert PendingOk(m, x, x.writes[p]);
    if a.InstallInsert? {
      assert InsertOk(m, t, x, p);
    } else if a.SkipWrite? {
      SkippedIsNotDone(m, t, x, p);
      assert false;
    }
  }

  /** A transaction with `k` still to apply is the last writer of `k` in the order. */
  lemma PendingIsLast(s: State, i: nat, k: Key)
    requires OrderOk(s) && WritersOk(s) && i < |s.order|
    requires HasWrite(s.txns[s.order[i]].writes, k) && !Over(s.txns[s.order[i]], k)
    ensures forall j :: i < j < |s.order| ==> !HasWrite(s.txns[s.order[j]].writes, k)
  {}

  /** An action that completes the transaction's write of `k` applies its last record
      of `k`. */
  lemma AppliedIsLast(m: Mem, t: TxnId, x: Txn, a: Action, p: nat)
    requires Guard(m, t, x, a) && Applying(a) && p == x.phase.pos
    requires Done(TxnAfter(m, t, x, a), x.writes[p].key)
    ensures !Over(x, x.writes[p].key) && forall q :: p < q < |x.writes| ==> x.writes[q].key != x.writes[p].key
  {}

  lemma ApplierIsDecided(m: Mem, t: TxnId, x: Txn, a: Action)
    requires Guard(m, t, x, a) && Applying(a)
    ensures Decided(TxnAfter(m, t, x, a).phase) && TxnAfter(m, t, x, a).writes == x.writes
    ensures HasWrite(x.writes, x.writes[x.phase.pos].key)
  {}

  lemma AppliedSerial(s: State, s': State, t: TxnId, k: Key, p: nat)
    requires OrderOk(s) && WritersOk(s) && Moves(s, s', t) && OrderOk(s')
    requires var x := s.txns[t];
             && !Over(x, k) && Decided(s'.txns[t].phase) && p < |x.writes| && x.writes[p].key == k
             && forall q :: p < q < |x.writes| ==> x.writes[q].key != k
    ensures Serial(s'.txns, s'.order, |s'.order|, k) == s.txns[t].writes[p].value
  {
    FinalValueAt(s.txns[t].writes, p, k);
    var i :| 0 <= i < |s.order| && s.order[i] == t;
    PendingIsLast(s, i, k);
    SerialSkip(s'.txns, s'.order, i + 1, |s'.order|, k);
  }

  /** The key that an action applies gets the value the serial database gives it. */
  lemma AppliedContent(s: State, t: TxnId, a: Action, k: Key)
    requires LocalOk(s) && OrderOk(s) && WritersOk(s) && Enabled(s, Act(t, a))
    requires Applying(a) && k == s.txns[t].writes[s.txns[t].phase.pos].key
    requires OrderOk(Apply(s, Act(t, a))) && Quiet(Apply(s, Act(t, a)).txns, k)
    ensures var s' := Apply(s, Act(t, a)); Content(s'.mem, k) == Serial(s'.txns, s'.order, |s'.order|, k)
  {
    var x := s.txns[t];
    ApplierIsDecided(s.mem, t, x, a);
    assert Done(Apply(s, Act(t, a)).txns[t], k);
    assert TxnOk(s.mem, t, x);
    ContentApplied(s.mem, t, x, a);
    ActionMoves(s, t, a);
    AppliedIsLast(s.mem, t, x, a, x.phase.pos);
    AppliedSerial(s, Apply(s, Act(t, a)), t, k, x.phase.pos);
  }

  /** A step leaves the serial value of a key it does not apply, and whether the key is
      quiet, as they were. */
  lemma OtherSerial(s: State, s': State, t: TxnId, k: Key)
    requires OrderOk(s) && Moves(s, s', t) && OrderOk(s') && KeepsDone(s.txns[t], s'.txns[t], k)
    ensures Serial(s'.txns, s'.order, |s'.order|, k) == Serial(s.txns, s.order, |s.order|, k)
    ensures Quiet(s'.txns, k) ==> Quiet(s.txns, k)
  {
    forall i | 0 <= i < |s.order|
      ensures s'.order[i] == s.order[i] && s'.txns[s.order[i]].writes == s.txns[s.order[i]].writes
    {
      PlaceKept(s, s', t, i);
    }
    SerialSame(s.txns, s'.txns, s.order, s'.order, |s.order|, k);
    SerialSkip(s'.txns, s'.order, |s.order|, |s'.order|, k);
  }

  lemma OtherContent(s: State, t: TxnId, a: Action, k: Key)
    requires LocalOk(s) && OrderOk(s) && ContentOk(s) && Enabled(s, Act(t, a))
    requires Applying(a) ==> k != s.txns[t].writes[s.txns[t].phase.pos].key
    requires OrderOk(Apply(s, Act(t, a))) && Quiet(Apply(s, Act(t, a)).txns, k)
    ensures var s' := Apply(s, Act(t, a)); Content(s'.mem, k) == Serial(s'.txns, s'.order, |s'.order|, k)
  {
    if a.Decide? && HasWrite(s.txns[t].writes, k) {
      DecidedIsNotDone(s.mem, t, s.txns[t], k);
      assert false;
    } else {
      ContentOfOthers(s.mem, t, s.txns[t], a, k);
      ActionMoves(s, t, a);
      ActionKeepsDone(s.mem, t, s.txns[t], a, k);
      OtherSerial(s, Apply(s, Act(t, a)), t, k);
    }
  }

  /** A transaction that has just passed validation has applied nothing yet. */
  lemma DecidedIsNotDone(m: Mem, t: TxnId, x: Txn, k: Key)
    requires Guard(m, t, x, Decide) && HasWrite(x.writes, k)
    ensures !Done(TxnAfter(m, t, x, Decide), k)
  {
    var p :| 0 <= p < |x.writes| && x.writes[p].key == k;
  }

  lemma QuietContentKept(s: State, t: TxnId, a: Action, k: Key)
    requires LocalOk(s) && OrderOk(s) && WritersOk(s) && ContentOk(s) && Enabled(s, Act(t, a))
    requires OrderOk(Apply(s, Act(t, a))) && Quiet(Apply(s, Act(t, a)).txns, k)
    ensures var s' := Apply(s, Act(t, a)); Content(s'.mem, k) == Serial(s'.txns, s'.order, |s'.order|, k)
  {
    if Applying(a) && k == s.txns[t].writes[s.txns[t].phase.pos].key {
      AppliedContent(s, t, a, k);
    } else {
      OtherContent(s, t, a, k);
    }
  }

  lemma ContentKept(s: State, t: TxnId, a: Action)
    requires LocalOk(s) && OrderOk(s) && WritersOk(s) && ContentOk(s) && Enabled(s, Act(t, a))
    requires OrderOk(Apply(s, Act(t, a)))
    ensures ContentOk(Apply(s, Act(t, a)))
  {
    var s' := Apply(s, Act(t, a));
    forall k | Quiet(s'.txns, k)
      ensures Content(s'.mem, k) == Serial(s'.txns, s'.order, |s'.order|, k)
    {
      QuietContentKept(s, t, a, k);
    }
  }

  // ------------------------------------------------------------------ validation

  /** Once settled, a serial value stays what it was. */
  lemma SawKept(s: State, s': State, t: TxnId, j: nat, k: Key, v: Option<Value>)
    requires OrderOk(s) && Moves(s, s', t) && OrderOk(s')
    requires j <= |s.order| && SawSerial(s.txns, s.order, j, k, v)
    ensures j <= |s'.order| && SawSerial(s'.txns, s'.order, j, k, v)
  {
    forall i | 0 <= i < j
      ensures s'.order[i] == s.order[i] && Advances(s.txns[s.order[i]], s'.txns[s.order[i]])
    {
      PlaceKept(s, s', t, i);
    }
    SerialSame(s.txns, s'.txns, s.order, s'.order, j, k);
  }

  /** Nobody but `t` is between its lock point and the end of its write of `k`. */
  ghost predicate Calm(s: State, t: TxnId, k: Key) {
    forall t' :: t' in s.txns && t' != t && HasWrite(s.txns[t'].writes, k) && Holding(s.txns[t'].phase) ==>
      Done(s.txns[t'], k)
  }

  lemma UnlockedIsCalm(s: State, t: TxnId, k: Key)
    requires LocalOk(s) && k in s.mem.index
    requires s.mem.tuples[s.mem.index[k]].owner == None || s.mem.tuples[s.mem.index[k]].owner == Some(t)
    ensures Calm(s, t, k)
  {
    forall t' | t' in s.txns && t' != t && HasWrite(s.txns[t'].writes, k) && Holding(s.txns[t'].phase)
      ensures Done(s.txns[t'], k)
    {
      if !Done(s.txns[t'], k) {
        PendingIsOwned(s, t', k);
        assert false;
      }
    }
  }

  /** A transaction that holds its locks and has `k` still to apply owns its index entry. */
  lemma PendingIsOwned(s: State, t: TxnId, k: Key)
    requires LocalOk(s) && t in s.txns && HasWrite(s.txns[t].writes, k) && Holding(s.txns[t].phase) && !Done(s.txns[t], k)
    ensures k in s.mem.index && Owns(s.mem, t, s.mem.index[k])
  {
    var y := s.txns[t];
    assert TxnOk(s.mem, t, y);
    var q :| Rest(y) <= q < |y.writes| && y.writes[q].key == k;
    assert PendingOk(s.mem, y, y.writes[q]) && Owns(s.mem, t, y.writes[q].tuple);
  }

  /** If `k` is calm and no later transaction has applied it, its content is the serial
      value at the place of the validating transaction `t`. */
  lemma CalmIsSerial(s: State, t: TxnId, j: nat, k: Key)
    requires OrderOk(s) && ContentOk(s) && t in s.txns && s.txns[t].phase.Validating?
    requires j < |s.order| && s.order[j] == t && Calm(s, t, k)
    requires forall l :: j < l < |s.order| ==> !Done(s.txns[s.order[l]], k)
    ensures SawSerial(s.txns, s.order, j, k, Content(s.mem, k))
  {
    assert Quiet(s.txns, k);
    SerialSkip(s.txns, s.order, j, |s.order|, k);
  }

  /** A read that passes validation saw the serial value at its transaction's place. */
  lemma ReadSawSerial(s: State, t: TxnId, j: nat, r: Read)
    requires LocalOk(s) && OrderOk(s) && ContentOk(s) && OverwritesOk(s)
    requires t in s.txns && s.txns[t].phase.Validating? && j < |s.order| && s.order[j] == t
    requires r in s.txns[t].readSet && ReadStillValid(s.mem, s.txns[t], r)
    ensures SawSerial(s.txns, s.order, j, s.mem.tuples[r.tuple].key, r.value)
  {
    var m, x := s.mem, s.txns[t];
    assert TxnOk(m, t, x) && ReadOk(m, r);
    var k := m.tuples[r.tuple].key;
    assert m.index[k] == r.tuple;
    UnlockedIsCalm(s, t, k);
    forall l | j < l < |s.order|
      ensures !Done(s.txns[s.order[l]], k)
    {
      assert Overwrites(m, x, s.txns[s.order[l]]);
    }
    CalmIsSerial(s, t, j, k);
  }

  /** A key found absent in a node that passes validation is absent from the serial
      database at the transaction's place. */
  lemma MissSawSerial(s: State, t: TxnId, j: nat, k: Key)
    requires LocalOk(s) && OrderOk(s) && ContentOk(s)
    requires t in s.txns && s.txns[t].phase.Validating? && j < |s.order| && s.order[j] == t
    requires k in s.txns[t].misses && s.mem.nodeOf(k) in s.txns[t].absent
    requires NodeVersion(s.mem, s.mem.nodeOf(k)) == s.txns[t].absent[s.mem.nodeOf(k)]
    ensures SawSerial(s.txns, s.order, j, k, None)
  {
    var m, x := s.mem, s.txns[t];
    assert TxnOk(m, t, x) && MissOk(m, t, x, k);
    forall t' | t' in s.txns
      ensures !Done(s.txns[t'], k)
    {
      assert TxnOk(m, t', s.txns[t']);
    }
    if k in m.index {
      UnlockedIsCalm(s, t, k);
    } else {
      AbsentIsCalm(s, t, k);
    }
    CalmIsSerial(s, t, j, k);
  }

  /** A transaction that holds its locks has every key it writes in the index. */
  lemma HeldIsIndexed(s: State, t: TxnId, k: Key)
    requires LocalOk(s) && t in s.txns && HasWrite(s.txns[t].writes, k) && Holding(s.txns[t].phase)
    ensures k in s.mem.index
  {
    assert TxnOk(s.mem, t, s.txns[t]);
    if !Done(s.txns[t], k) {
      PendingIsOwned(s, t, k);
    }
  }

  lemma AbsentIsCalm(s: State, t: TxnId, k: Key)
    requires LocalOk(s) && k !in s.mem.index
    ensures Calm(s, t, k)
  {
    forall t' | t' in s.txns
      ensures !(HasWrite(s.txns[t'].writes, k) && Holding(s.txns[t'].phase))
    {
      if HasWrite(s.txns[t'].writes, k) && Holding(s.txns[t'].phase) {
        HeldIsIndexed(s, t', k);
        assert false;
      }
    }
  }

  /** At its lock point a transaction has validated nothing yet. */
  lemma NothingValidated(s: State, t: TxnId, a: Action)
    requires LocalOk(s) && Known(s.txns, s.order) && Enabled(s, Act(t, a)) && a.AllLocked?
    ensures ValidOk(s, |s.order|, TxnAfter(s.mem, t, s.txns[t], a))
  {
    var m, x := s.mem, s.txns[t];
    assert TxnOk(m, t, x);
    forall k | k in x.misses
      ensures m.nodeOf(k) in x.absent
    {
      assert MissOk(m, t, x, k);
    }
  }

  lemma NewlyValidatedRead(s: State, t: TxnId, a: Action, j: nat, i: nat)
    requires Inv(s) && t in s.txns && Guard(s.mem, t, s.txns[t], a) && j < |s.order| && s.order[j] == t
    requires i < Validated(TxnAfter(s.mem, t, s.txns[t], a)) && i < |s.txns[t].readSet|
    ensures var r := s.txns[t].readSet[i];
            r.tuple in s.mem.tuples && SawSerial(s.txns, s.order, j, s.mem.tuples[r.tuple].key, r.value)
  {
    var x := s.txns[t];
    assert TxnOk(s.mem, t, x);
    assert ReadOk(s.mem, x.readSet[i]) && ValidOk(s, j, x);
    if i >= Validated(x) {
      ValidatedGrows(s.mem, t, x, a, i);
      ReadSawSerial(s, t, j, x.readSet[i]);
    }
  }

  lemma NewlyValidatedMiss(s: State, t: TxnId, a: Action, j: nat, k: Key)
    requires Inv(s) && t in s.txns && Guard(s.mem, t, s.txns[t], a) && j < |s.order| && s.order[j] == t
    requires k in s.txns[t].misses && NodeValidated(TxnAfter(s.mem, t, s.txns[t], a), s.mem.nodeOf(k))
    ensures SawSerial(s.txns, s.order, j, k, None)
  {
    assert ValidOk(s, j, s.txns[t]);
    if !NodeValidated(s.txns[t], s.mem.nodeOf(k)) {
      NodesGrow(s.mem, t, s.txns[t], a, s.mem.nodeOf(k));
      MissSawSerial(s, t, j, k);
    }
  }

  /** What the action itself validates is true before the action. */
  lemma NewlyValidated(s: State, t: TxnId, a: Action, j: nat)
    requires Inv(s) && Enabled(s, Act(t, a)) && j < |s.order| && s.order[j] == t
    ensures ValidOk(s, j, TxnAfter(s.mem, t, s.txns[t], a))
  {
    var m, x, x' := s.mem, s.txns[t], TxnAfter(s.mem, t, s.txns[t], a);
    ActionAdvances(m, t, x, a);
    forall i | 0 <= i < Validated(x')
      ensures && x'.readSet[i].tuple in m.tuples
              && SawSerial(s.txns, s.order, j, m.tuples[x'.readSet[i].tuple].key, x'.readSet[i].value)
    {
      NewlyValidatedRead(s, t, a, j, i);
    }
    forall k | k in x'.misses && NodeValidated(x', m.nodeOf(k))
      ensures SawSerial(s.txns, s.order, j, k, None)
    {
      NewlyValidatedMiss(s, t, a, j, k);
    }
  }

  lemma ValidOkKept(s: State, s': State, t: TxnId, j: nat, x: Txn)
    requires OrderOk(s) && Moves(s, s', t) && OrderOk(s') && MemStep(s.mem, s'.mem, t)
    requires j <= |s.order| && ValidOk(s, j, x)
    ensures j <= |s'.order| && ValidOk(s', j, x)
  {
    var m, m' := s.mem, s'.mem;
    forall i | 0 <= i < Validated(x)
      ensures && x.readSet[i].tuple in m'.tuples
              && SawSerial(s'.txns, s'.order, j, m'.tuples[x.readSet[i].tuple].key, x.readSet[i].value)
    {
      assert TupleStep(m.tuples[x.readSet[i].tuple], m'.tuples[x.readSet[i].tuple], t);
      SawKept(s, s', t, j, m.tuples[x.readSet[i].tuple].key, x.readSet[i].value);
    }
    forall k | k in x.misses && NodeValidated(x, m'.nodeOf(k))
      ensures SawSerial(s'.txns, s'.order, j, k, None)
    {
      SawKept(s, s', t, j, k, None);
    }
  }

  lemma ValidatedKept(s: State, t: TxnId, a: Action)
    requires Inv(s) && Enabled(s, Act(t, a)) && OrderOk(Apply(s, Act(t, a)))
    requires MemStep(s.mem, Apply(s, Act(t, a)).mem, t)
    ensures ValidatedOk(Apply(s, Act(t, a)))
  {
    var s' := Apply(s, Act(t, a));
    ActionMoves(s, t, a);
    forall j | 0 <= j < |s'.order|
      ensures ValidOk(s', j, s'.txns[s'.order[j]])
    {
      if s'.order[j] == t {
        if j == |s.order| {
          NothingValidated(s, t, a);
        } else {
          NewlyValidated(s, t, a, j);
        }
        ValidOkKept(s, s', t, j, s'.txns[t]);
      } else {
        ValidOkKept(s, s', t, j, s.txns[s.order[j]]);
      }
    }
  }

  // ------------------------------------------------------------------ overwritten reads

  /** A read that cannot validate now cannot validate later. */
  lemma OverwrittenKept(m: Mem, m': Mem, t: TxnId, r: Read)
    requires MemOk(m) && MemStep(m, m', t) && ReadOk(m, r) && Overwritten(m, r)
    ensures Overwritten(m', r)
  {
    assert TupleStep(m.tuples[r.tuple], m'.tuples[r.tuple], t);
  }

  /** Applying a write of the key the read is about overwrites the read. */
  lemma ApplyOverwrites(m: Mem, t: TxnId, x: Txn, a: Action, r: Read)
    requires MemOk(m) && WritesOk(m, x) && LocksOk(m, t, x) && Guard(m, t, x, a) && ReadOk(m, r)
    requires Applying(a) && m.tuples[r.tuple].key == x.writes[x.phase.pos].key
    requires Done(TxnAfter(m, t, x, a), x.writes[x.phase.pos].key)
    ensures Overwritten(MemAfter(m, t, x, a), r)
  {
    var p := x.phase.pos;
    assert PendingOk(m, x, x.writes[p]);
    if a.SkipWrite? {
      SkippedIsNotDone(m, t, x, p);
      assert false;
    }
  }

  /** If a step completes the write of the key of a read, it overwrites the read. */
  lemma ActorOverwrites(m: Mem, t: TxnId, y: Txn, a: Action, r: Read)
    requires MemOk(m) && WritesOk(m, y) && LocksOk(m, t, y) && Guard(m, t, y, a) && ReadOk(m, r)
    requires !Done(y, m.tuples[r.tuple].key) && Done(TxnAfter(m, t, y, a), m.tuples[r.tuple].key)
    ensures Overwritten(MemAfter(m, t, y, a), r)
  {
    if Applying(a) && m.tuples[r.tuple].key == y.writes[y.phase.pos].key {
      ApplyOverwrites(m, t, y, a, r);
    } else {
      ActionKeepsDone(m, t, y, a, m.tuples[r.tuple].key);
      assert false;
    }
  }

  /** Every read that `y'` has done more to than `y` is overwritten in `m'`. */
  ghost predicate FreshlyOverwritten(m: Mem, m': Mem, y: Txn, y': Txn) {
    forall r: Read {:trigger Overwritten(m', r)} ::
      ReadOk(m, r) && !Done(y, m.tuples[r.tuple].key) && Done(y', m.tuples[r.tuple].key) ==> Overwritten(m', r)
  }

  lemma OverwritesPair(m: Mem, m': Mem, t: TxnId, x: Txn, y: Txn, y': Txn)
    requires MemOk(m) && MemStep(m, m', t) && ReadsOk(m, x) && Overwrites(m, x, y)
    requires FreshlyOverwritten(m, m', y, y')
    ensures Overwrites(m', x, y')
  {
    forall i | 0 <= i < |x.readSet| && x.readSet[i].tuple in m'.tuples && Done(y', m'.tuples[x.readSet[i].tuple].key)
      ensures Overwritten(m', x.readSet[i])
    {
      var r := x.readSet[i];
      assert ReadOk(m, r);
      assert TupleStep(m.tuples[r.tuple], m'.tuples[r.tuple], t);
      if Done(y, m.tuples[r.tuple].key) {
        OverwrittenKept(m, m', t, r);
      }
    }
  }

  lemma OverwritesCarryOver(s: State, s': State, t: TxnId)
    requires MemOk(s.mem) && forall t :: t in s.txns ==> ReadsOk(s.mem, s.txns[t])
    requires OrderOk(s) && OverwritesOk(s) && Moves(s, s', t) && OrderOk(s') && MemStep(s.mem, s'.mem, t)
    requires FreshlyOverwritten(s.mem, s'.mem, s.txns[t], s'.txns[t])
    ensures OverwritesOk(s')
  {
    forall j, l | 0 <= j < l < |s'.order| && s'.txns[s'.order[j]].phase.Validating?
      ensures Overwrites(s'.mem, s'.txns[s'.order[j]], s'.txns[s'.order[l]])
    {
      PlaceKept(s, s', t, j);
      if l < |s.order| {
        PlaceKept(s, s', t, l);
        var x, y := s.txns[s.order[j]], s.txns[s.order[l]];
        assert Overwrites(s.mem, x, y);
        OverwritesPair(s.mem, s'.mem, t, x, y, s'.txns[s.order[l]]);
      }
    }
  }

  lemma OverwritesKept(s: State, t: TxnId, a: Action)
    requires LocalOk(s) && OrderOk(s) && OverwritesOk(s)
    requires Enabled(s, Act(t, a)) && OrderOk(Apply(s, Act(t, a)))
    requires MemStep(s.mem, Apply(s, Act(t, a)).mem, t)
    ensures OverwritesOk(Apply(s, Act(t, a)))
  {
    var m, m', y, y' := s.mem, Apply(s, Act(t, a)).mem, s.txns[t], Apply(s, Act(t, a)).txns[t];
    assert TxnOk(m, t, y);
    forall r: Read | ReadOk(m, r) && !Done(y, m.tuples[r.tuple].key) && Done(y', m.tuples[r.tuple].key)
      ensures Overwritten(m', r)
    {
      ActorOverwrites(m, t, y, a, r);
    }
    forall t' | t' in s.txns
      ensures ReadsOk(m, s.txns[t'])
    {
      assert TxnOk(m, t', s.txns[t']);
    }
    ActionMoves(s, t, a);
    OverwritesCarryOver(s, Apply(s, Act(t, a)), t);
  }

  // ------------------------------------------------------------------ every run

  lemma BeginKeepsSerial(s: State, t: TxnId)
    requires OrderOk(s) && Enabled(s, Begin(t))
    ensures OrderOk(Apply(s, Begin(t)))
    ensures forall j, k | 0 <= j <= |s.order| ::
              Serial(Apply(s, Begin(t)).txns, s.order, j, k) == Serial(s.txns, s.order, j, k)
  {
    forall j, k | 0 <= j <= |s.order|
      ensures Serial(Apply(s, Begin(t)).txns, s.order, j, k) == Serial(s.txns, s.order, j, k)
    {
      SerialSame(s.txns, Apply(s, Begin(t)).txns, s.order, s.order, j, k);
    }
  }

  lemma BeginKeepsContent(s: State, t: TxnId)
    requires OrderOk(s) && ContentOk(s) && Enabled(s, Begin(t))
    ensures OrderOk(Apply(s, Begin(t))) && ContentOk(Apply(s, Begin(t)))
  {
    BeginKeepsSerial(s, t);
    forall k | Quiet(Apply(s, Begin(t)).txns, k)
      ensures Content(s.mem, k) == Serial(Apply(s, Begin(t)).txns, s.order, |s.order|, k)
    {
      assert Quiet(s.txns, k);
    }
  }

  lemma BeginKeepsValidated(s: State, t: TxnId)
    requires OrderOk(s) && ValidatedOk(s) && Enabled(s, Begin(t))
    ensures OrderOk(Apply(s, Begin(t))) && ValidatedOk(Apply(s, Begin(t)))
  {
    BeginKeepsSerial(s, t);
    forall j | 0 <= j < |s.order|
      ensures ValidOk(Apply(s, Begin(t)), j, s.txns[s.order[j]])
    {
      assert ValidOk(s, j, s.txns[s.order[j]]);
    }
  }

  lemma BeginKeepsOrders(s: State, t: TxnId)
    requires OrderOk(s) && WritersOk(s) && OverwritesOk(s) && Enabled(s, Begin(t))
    ensures OrderOk(Apply(s, Begin(t))) && WritersOk(Apply(s, Begin(t))) && OverwritesOk(Apply(s, Begin(t)))
  {}

  lemma BeginKeepsInv(s: State, t: TxnId)
    requires Inv(s) && Enabled(s, Begin(t))
    ensures Inv(Apply(s, Begin(t)))
  {
    BeginKeepsLocal(s, t);
    BeginKeepsOrders(s, t);
    BeginKeepsContent(s, t);
    BeginKeepsValidated(s, t);
  }

  lemma ActKeepsInv(s: State, t: TxnId, a: Action)
    requires Inv(s) && Enabled(s, Act(t, a))
    ensures Inv(Apply(s, Act(t, a)))
  {
    var s' := Apply(s, Act(t, a));
    Guarantee(s.mem, t, s.txns[t], a);
    ActKeepsLocal(s, t, a);
    ActionMoves(s, t, a);
    OrderKept(s, s', t);
    WritersKept(s, s', t);
    ContentKept(s, t, a);
    ValidatedKept(s, t, a);
    OverwritesKept(s, t, a);
  }

  lemma {:induction false} RunKeepsInv(nodeOf: Key -> nat, steps: seq<Step>)
    requires Run(Init(nodeOf), steps).Some?
    ensures Inv(Run(Init(nodeOf), steps).value)
  {
    if steps != [] {
      var n := |steps| - 1;
      RunKeepsInv(nodeOf, steps[..n]);
      var s := Run(Init(nodeOf), steps[..n]).value;
      match steps[n]
      case Begin(t) => BeginKeepsInv(s, t);
      case Act(t, a) => ActKeepsInv(s, t, a);
    }
  }
}
