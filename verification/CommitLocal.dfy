/** Preservation of the memory and per-transaction parts of the commit invariant, by a
    rely-guarantee argument: every action of a transaction is a MemStep, and a MemStep
    of one transaction leaves every other transaction's invariant intact. */
module CommitLocal {
  import opened Common
  import opened CommitModel
  import opened CommitInvariant

  // ------------------------------------------------------------------ rely

  lemma RelyWrites(m: Mem, m': Mem, t: TxnId, x: Txn)
    requires MemStep(m, m', t) && WritesOk(m, x)
    ensures WritesOk(m', x)
  {}

  lemma RelyInserts(m: Mem, m': Mem, t: TxnId, t': TxnId, x: Txn)
    requires MemStep(m, m', t) && t != t' && InsertsOk(m, t', x)
    ensures InsertsOk(m', t', x)
  {
    forall p | 0 <= p < |x.writes| && x.writes[p].insert
      ensures InsertOk(m', t', x, p)
    {
      assert InsertOk(m, t', x, p) && KeyStep(m, m', t, x.writes[p].key);
    }
  }

  lemma RelyOwns(m: Mem, m': Mem, t: TxnId, t': TxnId, x: Txn)
    requires MemStep(m, m', t) && t != t' && OwnsOk(m, t', x)
    ensures OwnsOk(m', t', x)
  {}

  lemma RelyLock(m: Mem, m': Mem, t: TxnId, t': TxnId, x: Txn)
    requires MemStep(m, m', t) && t != t' && LockOk(m, t', x)
    ensures LockOk(m', t', x)
  {}

  lemma RelyHold(m: Mem, m': Mem, t: TxnId, t': TxnId, x: Txn)
    requires MemStep(m, m', t) && t != t' && HoldOk(m, t', x)
    ensures HoldOk(m', t', x)
  {
    if Holding(x.phase) {
      forall p | Rest(x) <= p < |x.writes|
        ensures PendingOk(m', x, x.writes[p])
      {
        assert PendingOk(m, x, x.writes[p]) && Owns(m, t', x.writes[p].tuple);
        assert KeyStep(m, m', t, x.writes[p].key);
      }
    }
  }

  lemma RelyHead(m: Mem, m': Mem, t: TxnId, t': TxnId, x: Txn)
    requires MemStep(m, m', t) && t != t' && HeadOk(m, t', x) && HoldOk(m, t', x)
    ensures HeadOk(m', t', x)
  {}

  lemma RelyInstalled(m: Mem, m': Mem, t: TxnId, x: Txn)
    requires MemStep(m, m', t) && InstalledOk(m, x)
    ensures InstalledOk(m', x)
  {
    forall k | Done(x, k)
      ensures k in m'.index && m'.index[k] in m'.tuples && !Tentative(m'.tuples[m'.index[k]])
    {
      assert KeyStep(m, m', t, k);
    }
  }

  lemma RelyReads(m: Mem, m': Mem, t: TxnId, x: Txn)
    requires MemOk(m) && MemStep(m, m', t) && ReadsOk(m, x)
    ensures ReadsOk(m', x)
  {}

  lemma RelyAbsent(m: Mem, m': Mem, t: TxnId, t': TxnId, x: Txn)
    requires MemStep(m, m', t) && t != t' && AbsentOk(m, t', x)
    ensures AbsentOk(m', t', x)
  {
    if BeforeLockPoint(x.phase) || x.phase.Validating? {
      forall k | k in x.misses
        ensures MissOk(m', t', x, k)
      {
        assert MissOk(m, t', x, k) && KeyStep(m, m', t, k);
      }
    }
  }

  lemma RelyFlags(m: Mem, m': Mem, t: TxnId, t': TxnId, x: Txn)
    requires MemStep(m, m', t) && t != t'
    ensures FlagsOk(m, t', x) ==> FlagsOk(m', t', x)
    ensures WalkOk(m, t', x) ==> WalkOk(m', t', x)
  {
    forall u
      ensures Owns(m', t', u) <==> Owns(m, t', u)
    {
      assert u in m.tuples ==> TupleStep(m.tuples[u], m'.tuples[u], t);
    }
  }

  /** Steps of other transactions leave a transaction's invariant intact. */
  lemma Rely(m: Mem, m': Mem, t: TxnId, t': TxnId, x: Txn)
    requires MemOk(m) && MemStep(m, m', t) && t != t' && TxnOk(m, t', x)
    ensures TxnOk(m', t', x)
  {
    RelyWrites(m, m', t, x);
    RelyInserts(m, m', t, t', x);
    RelyOwns(m, m', t, t', x);
    RelyLock(m, m', t, t', x);
    RelyHold(m, m', t, t', x);
    RelyHead(m, m', t, t', x);
    RelyFlags(m, m', t, t', x);
    RelyInstalled(m, m', t, x);
    RelyReads(m, m', t, x);
    RelyAbsent(m, m', t, t', x);
  }

  // ------------------------------------------------------------------ guarantee: each
  // action that touches memory keeps MemOk and is a MemStep

  /** Changing one tuple, as its holder may, and nothing else. */
  lemma OneTuple(m: Mem, t: TxnId, u: TupleId, y: Tuple)
    requires MemOk(m) && u in m.tuples && TupleStep(m.tuples[u], y, t) && TupleOk(y) && y.published == m.tuples[u].published
    ensures
      var m' := m.(tuples := m.tuples[u := y]);
      MemOk(m') && MemStep(m, m', t)
  {}

  lemma LockStep(m: Mem, t: TxnId, x: Txn, readable: bool)
    requires MemOk(m) && LockOk(m, t, x) && Guard(m, t, x, Lock(readable))
    ensures MemOk(MemAfter(m, t, x, Lock(readable))) && MemStep(m, MemAfter(m, t, x, Lock(readable)), t)
  {
    OneTuple(m, t, x.phase.todo[0], m.tuples[x.phase.todo[0]].(owner := Some(t)));
  }

  lemma InstallInsertStep(m: Mem, t: TxnId, x: Txn)
    requires MemOk(m) && InsertsOk(m, t, x) && HoldOk(m, t, x) && Guard(m, t, x, Action.InstallInsert)
    ensures MemOk(MemAfter(m, t, x, Action.InstallInsert)) && MemStep(m, MemAfter(m, t, x, Action.InstallInsert), t)
  {
    OneTuple(m, t, x.writes[x.phase.pos].tuple, m.tuples[x.writes[x.phase.pos].tuple].(version := x.tid));
  }

  lemma InstallInPlaceStep(m: Mem, t: TxnId, x: Txn)
    requires MemOk(m) && WritesOk(m, x) && InsertsOk(m, t, x) && OwnsOk(m, t, x) && HoldOk(m, t, x) && Guard(m, t, x, Action.InstallInPlace)
    ensures MemOk(MemAfter(m, t, x, Action.InstallInPlace)) && MemStep(m, MemAfter(m, t, x, Action.InstallInPlace), t)
  {
    OneTuple(m, t, x.writes[x.phase.pos].tuple, m.tuples[x.writes[x.phase.pos].tuple].(version := x.tid, value := x.writes[x.phase.pos].value));
  }

  lemma ReleaseHeadStep(m: Mem, t: TxnId, x: Txn)
    requires MemOk(m) && HeadOk(m, t, x) && Guard(m, t, x, Action.ReleaseHead)
    ensures MemOk(MemAfter(m, t, x, Action.ReleaseHead)) && MemStep(m, MemAfter(m, t, x, Action.ReleaseHead), t)
  {
    OneTuple(m, t, x.phase.head, m.tuples[x.phase.head].(owner := None));
  }

  lemma UnlockStep(m: Mem, t: TxnId, x: Txn)
    requires MemOk(m) && WritesOk(m, x) && InsertsOk(m, t, x) && OwnsOk(m, t, x) && ReleaseOk(m, t, x) && Guard(m, t, x, Action.Unlock)
    ensures MemOk(MemAfter(m, t, x, Action.Unlock)) && MemStep(m, MemAfter(m, t, x, Action.Unlock), t)
  {
    if Carries(x, x.phase.pos) {
      OneTuple(m, t, x.writes[x.phase.pos].tuple, m.tuples[x.writes[x.phase.pos].tuple].(owner := None, born := true));
    }
  }

  lemma AbortUnlockStep(m: Mem, t: TxnId, x: Txn)
    requires MemOk(m) && WritesOk(m, x) && InsertsOk(m, t, x) && OwnsOk(m, t, x) && ReleaseOk(m, t, x) && Guard(m, t, x, Action.AbortUnlock)
    ensures MemOk(MemAfter(m, t, x, Action.AbortUnlock)) && MemStep(m, MemAfter(m, t, x, Action.AbortUnlock), t)
  {
    if Carries(x, x.phase.pos) {
      OneTuple(m, t, x.writes[x.phase.pos].tuple, m.tuples[x.writes[x.phase.pos].tuple].(owner := None));
    }
  }

  lemma InsertMemOk(m: Mem, t: TxnId, x: Txn, k: Key, v: Option<Value>, u: TupleId)
    requires MemOk(m) && Guard(m, t, x, Insert(k, v, u))
    ensures MemOk(MemAfter(m, t, x, Insert(k, v, u)))
  {}

  lemma InsertTuples(m: Mem, t: TxnId, x: Txn, k: Key, v: Option<Value>, u: TupleId)
    requires MemOk(m) && Guard(m, t, x, Insert(k, v, u))
    ensures TuplesStep(m, MemAfter(m, t, x, Insert(k, v, u)), t)
  {}

  lemma InsertKeys(m: Mem, t: TxnId, x: Txn, k: Key, v: Option<Value>, u: TupleId)
    requires MemOk(m) && Guard(m, t, x, Insert(k, v, u))
    ensures KeysStep(m, MemAfter(m, t, x, Insert(k, v, u)), t)
  {}

  lemma InsertStep(m: Mem, t: TxnId, x: Txn, k: Key, v: Option<Value>, u: TupleId)
    requires MemOk(m) && Guard(m, t, x, Insert(k, v, u))
    ensures MemOk(MemAfter(m, t, x, Insert(k, v, u))) && MemStep(m, MemAfter(m, t, x, Insert(k, v, u)), t)
  {
    InsertMemOk(m, t, x, k, v, u);
    InsertTuples(m, t, x, k, v, u);
    InsertKeys(m, t, x, k, v, u);
  }

  lemma InstallReplaceMemOk(m: Mem, t: TxnId, x: Txn, u: TupleId)
    requires MemOk(m) && WritesOk(m, x) && LocksOk(m, t, x) && Guard(m, t, x, InstallReplace(u))
    ensures MemOk(MemAfter(m, t, x, InstallReplace(u)))
  {}

  lemma InstallReplaceTuples(m: Mem, t: TxnId, x: Txn, u: TupleId)
    requires MemOk(m) && WritesOk(m, x) && LocksOk(m, t, x) && Guard(m, t, x, InstallReplace(u))
    ensures TuplesStep(m, MemAfter(m, t, x, InstallReplace(u)), t)
  {}

  lemma InstallReplaceKeys(m: Mem, t: TxnId, x: Txn, u: TupleId)
    requires MemOk(m) && WritesOk(m, x) && LocksOk(m, t, x) && Guard(m, t, x, InstallReplace(u))
    ensures KeysStep(m, MemAfter(m, t, x, InstallReplace(u)), t)
  {}

  lemma InstallReplaceStep(m: Mem, t: TxnId, x: Txn, u: TupleId)
    requires MemOk(m) && WritesOk(m, x) && LocksOk(m, t, x) && Guard(m, t, x, InstallReplace(u))
    ensures MemOk(MemAfter(m, t, x, InstallReplace(u))) && MemStep(m, MemAfter(m, t, x, InstallReplace(u)), t)
  {
    InstallReplaceMemOk(m, t, x, u);
    InstallReplaceTuples(m, t, x, u);
    InstallReplaceKeys(m, t, x, u);
  }

  lemma PublishMemOk(m: Mem, t: TxnId, x: Txn)
    requires MemOk(m) && HoldOk(m, t, x) && HeadOk(m, t, x) && Guard(m, t, x, Action.Publish)
    ensures MemOk(MemAfter(m, t, x, Action.Publish))
  {}

  lemma PublishTuples(m: Mem, t: TxnId, x: Txn)
    requires MemOk(m) && HoldOk(m, t, x) && HeadOk(m, t, x) && Guard(m, t, x, Action.Publish)
    ensures TuplesStep(m, MemAfter(m, t, x, Action.Publish), t)
  {}

  lemma PublishKeys(m: Mem, t: TxnId, x: Txn)
    requires MemOk(m) && HoldOk(m, t, x) && HeadOk(m, t, x) && Guard(m, t, x, Action.Publish)
    ensures KeysStep(m, MemAfter(m, t, x, Action.Publish), t)
  {}

  lemma PublishStep(m: Mem, t: TxnId, x: Txn)
    requires MemOk(m) && HoldOk(m, t, x) && HeadOk(m, t, x) && Guard(m, t, x, Action.Publish)
    ensures MemOk(MemAfter(m, t, x, Action.Publish)) && MemStep(m, MemAfter(m, t, x, Action.Publish), t)
  {
    PublishMemOk(m, t, x);
    PublishTuples(m, t, x);
    PublishKeys(m, t, x);
  }

  lemma CleanupMemOk(m: Mem, t: TxnId, x: Txn)
    requires MemOk(m) && WritesOk(m, x) && InsertsOk(m, t, x) && ReleaseOk(m, t, x) && Guard(m, t, x, Action.Cleanup)
    ensures MemOk(MemAfter(m, t, x, Action.Cleanup))
  {}

  lemma CleanupTuples(m: Mem, t: TxnId, x: Txn)
    requires MemOk(m) && WritesOk(m, x) && InsertsOk(m, t, x) && ReleaseOk(m, t, x) && Guard(m, t, x, Action.Cleanup)
    ensures TuplesStep(m, MemAfter(m, t, x, Action.Cleanup), t)
  {}

  lemma CleanupKeys(m: Mem, t: TxnId, x: Txn)
    requires MemOk(m) && WritesOk(m, x) && InsertsOk(m, t, x) && ReleaseOk(m, t, x) && Guard(m, t, x, Action.Cleanup)
    ensures KeysStep(m, MemAfter(m, t, x, Action.Cleanup), t)
  {}

  lemma CleanupStep(m: Mem, t: TxnId, x: Txn)
    requires MemOk(m) && WritesOk(m, x) && InsertsOk(m, t, x) && ReleaseOk(m, t, x) && Guard(m, t, x, Action.Cleanup)
    ensures MemOk(MemAfter(m, t, x, Action.Cleanup)) && MemStep(m, MemAfter(m, t, x, Action.Cleanup), t)
  {
    CleanupMemOk(m, t, x);
    CleanupTuples(m, t, x);
    CleanupKeys(m, t, x);
  }

  /** Actions that do not touch memory. */
  predicate Silent(a: Action) {
    || a.Search? || a.ReadTuple? || a.Observe? || a.Put? || a.GiveUp? || a.StartCommit? || a.CheckTentative? || a.AllLocked?
    || a.ValidateRead? || a.ValidateNode? || a.Decide? || a.SkipWrite? || a.InstallDone? || a.FinishCommit? || a.FinishAbort?
  }

  predicate Installs(a: Action) {
    a.InstallInsert? || a.InstallInPlace? || a.InstallReplace? || a.Publish?
  }

  predicate Releases(a: Action) {
    a.ReleaseHead? || a.Unlock? || a.Cleanup? || a.AbortUnlock?
  }

  lemma InstallGuarantee(m: Mem, t: TxnId, x: Txn, a: Action)
    requires MemOk(m) && WritesOk(m, x) && LocksOk(m, t, x) && Guard(m, t, x, a) && Installs(a)
    ensures MemOk(MemAfter(m, t, x, a)) && MemStep(m, MemAfter(m, t, x, a), t)
  {
    match a {
      case InstallInsert => InstallInsertStep(m, t, x);
      case InstallInPlace => InstallInPlaceStep(m, t, x);
      case InstallReplace(u) => InstallReplaceStep(m, t, x, u);
      case Publish => PublishStep(m, t, x);
    }
  }

  lemma ReleaseGuarantee(m: Mem, t: TxnId, x: Txn, a: Action)
    requires MemOk(m) && WritesOk(m, x) && LocksOk(m, t, x) && ReleaseOk(m, t, x) && Guard(m, t, x, a) && Releases(a)
    ensures MemOk(MemAfter(m, t, x, a)) && MemStep(m, MemAfter(m, t, x, a), t)
  {
    match a {
      case ReleaseHead => ReleaseHeadStep(m, t, x);
      case Unlock => UnlockStep(m, t, x);
      case Cleanup => CleanupStep(m, t, x);
      case AbortUnlock => AbortUnlockStep(m, t, x);
    }
  }

  lemma Guarantee(m: Mem, t: TxnId, x: Txn, a: Action)
    requires MemOk(m) && WritesOk(m, x) && LocksOk(m, t, x) && ReleaseOk(m, t, x) && Guard(m, t, x, a)
    ensures MemOk(MemAfter(m, t, x, a)) && MemStep(m, MemAfter(m, t, x, a), t)
  {
    if Silent(a) {
      assert MemAfter(m, t, x, a) == m;
    } else if Installs(a) {
      InstallGuarantee(m, t, x, a);
    } else if Releases(a) {
      ReleaseGuarantee(m, t, x, a);
    } else if a.Insert? {
      InsertStep(m, t, x, a.k, a.v, a.u);
    } else {
      LockStep(m, t, x, a.readable);
    }
  }
}
