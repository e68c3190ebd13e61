/** Each action keeps the invariant of the transaction that takes it. */
module CommitOwn {
  import opened Common
  import opened CommitModel
  import opened CommitInvariant
  import opened CommitLocal
  import opened CommitOrder

  lemma AppendKeeps(ws: seq<Write>, w: Write)
    ensures forall u :: InWriteSet(ws, u) ==> InWriteSet(ws + [w], u)
    ensures forall u :: InsertedBy(ws, u) ==> InsertedBy(ws + [w], u)
    ensures InWriteSet(ws + [w], w.tuple) && (w.insert ==> InsertedBy(ws + [w], w.tuple))
  {
    forall u | InWriteSet(ws, u)
      ensures InWriteSet(ws + [w], u)
    {
      var p :| 0 <= p < |ws| && ws[p].tuple == u;
      assert (ws + [w])[p] == ws[p];
    }
    forall u | InsertedBy(ws, u)
      ensures InsertedBy(ws + [w], u)
    {
      var p :| 0 <= p < |ws| && ws[p].tuple == u && ws[p].insert;
      assert (ws + [w])[p] == ws[p];
    }
    assert (ws + [w])[|ws|] == w;
  }

  lemma OwnWrites(m: Mem, t: TxnId, x: Txn, a: Action)
    requires MemOk(m) && WritesOk(m, x) && Guard(m, t, x, a) && MemStep(m, MemAfter(m, t, x, a), t)
    ensures WritesOk(MemAfter(m, t, x, a), TxnAfter(m, t, x, a))
  {
    RelyWrites(m, MemAfter(m, t, x, a), t, x);
    if a.Insert? || a.Put? {
      MoreWrites(m, t, x, a);
    } else {
      assert TxnAfter(m, t, x, a).writes == x.writes;
    }
  }

  lemma MoreWrites(m: Mem, t: TxnId, x: Txn, a: Action)
    requires MemOk(m) && WritesOk(m, x) && Guard(m, t, x, a) && (a.Insert? || a.Put?)
    requires WritesOk(MemAfter(m, t, x, a), x)
    ensures WritesOk(MemAfter(m, t, x, a), TxnAfter(m, t, x, a))
  {}

  lemma SameReads(m: Mem, t: TxnId, x: Txn, a: Action)
    requires Guard(m, t, x, a) && !a.ReadTuple? && !a.Search?
    ensures TxnAfter(m, t, x, a).readSet == x.readSet && !TxnAfter(m, t, x, a).phase.Reading?
  {}

  lemma ReadsCarryOver(m: Mem, x: Txn, x': Txn)
    requires ReadsOk(m, x) && x'.readSet == x.readSet && !x'.phase.Reading?
    ensures ReadsOk(m, x')
  {}

  lemma OwnReads(m: Mem, t: TxnId, x: Txn, a: Action)
    requires MemOk(m) && ReadsOk(m, x) && Guard(m, t, x, a) && MemStep(m, MemAfter(m, t, x, a), t)
    ensures ReadsOk(MemAfter(m, t, x, a), TxnAfter(m, t, x, a))
  {
    if !a.ReadTuple? && !a.Search? {
      RelyReads(m, MemAfter(m, t, x, a), t, x);
      SameReads(m, t, x, a);
      ReadsCarryOver(MemAfter(m, t, x, a), x, TxnAfter(m, t, x, a));
    }
  }

  /** The key whose write an action completes is in the index afterwards. */
  lemma NewlyDone(m: Mem, t: TxnId, x: Txn, a: Action, k: Key)
    requires MemOk(m) && WritesOk(m, x) && LocksOk(m, t, x) && Guard(m, t, x, a)
    requires !Done(x, k) && Done(TxnAfter(m, t, x, a), k)
    ensures var m' := MemAfter(m, t, x, a); k in m'.index && m'.index[k] in m'.tuples && !Tentative(m'.tuples[m'.index[k]])
  {
    if Applying(a) && k == x.writes[x.phase.pos].key {
      AppliedIsIndexed(m, t, x, a);
    } else {
      ActionKeepsDone(m, t, x, a, k);
      assert false;
    }
  }

  lemma OwnInstalled(m: Mem, t: TxnId, x: Txn, a: Action)
    requires MemOk(m) && TxnOk(m, t, x) && Guard(m, t, x, a) && MemStep(m, MemAfter(m, t, x, a), t)
    ensures InstalledOk(MemAfter(m, t, x, a), TxnAfter(m, t, x, a))
  {
    var m', x' := MemAfter(m, t, x, a), TxnAfter(m, t, x, a);
    RelyInstalled(m, m', t, x);
    forall k | Done(x', k)
      ensures k in m'.index && m'.index[k] in m'.tuples && !Tentative(m'.tuples[m'.index[k]])
    {
      if !Done(x, k) {
        NewlyDone(m, t, x, a, k);
      }
    }
  }

  lemma AppliedIsIndexed(m: Mem, t: TxnId, x: Txn, a: Action)
    requires MemOk(m) && WritesOk(m, x) && HoldOk(m, t, x) && HeadOk(m, t, x)
    requires Guard(m, t, x, a) && Applying(a) && Done(TxnAfter(m, t, x, a), x.writes[x.phase.pos].key)
    ensures var m', k := MemAfter(m, t, x, a), x.writes[x.phase.pos].key;
            k in m'.index && m'.index[k] in m'.tuples && !Tentative(m'.tuples[m'.index[k]])
  {
    var p := x.phase.pos;
    assert PendingOk(m, x, x.writes[p]);
    if a.SkipWrite? {
      SkippedIsNotDone(m, t, x, p);
      assert false;
    }
  }

  /** A record that is skipped has a later record for the same tuple, hence key. */
  lemma SkippedIsNotDone(m: Mem, t: TxnId, x: Txn, p: nat)
    requires WritesOk(m, x) && Guard(m, t, x, SkipWrite) && p == x.phase.pos
    ensures !Done(TxnAfter(m, t, x, SkipWrite), x.writes[p].key)
  {
    var q :| p < q < |x.writes| && x.writes[q].tuple == x.writes[p].tuple;
    assert WriteOk(m, x.writes[p]) && WriteOk(m, x.writes[q]);
  }

  lemma SearchOwn(m: Mem, t: TxnId, x: Txn, k: Key)
    requires MemOk(m) && WritesOk(m, x) && LocksOk(m, t, x) && Guard(m, t, x, Search(k))
    ensures LocksOk(MemAfter(m, t, x, Search(k)), t, TxnAfter(m, t, x, Search(k)))
  {}

  lemma ReadTupleOwn(m: Mem, t: TxnId, x: Txn)
    requires MemOk(m) && WritesOk(m, x) && LocksOk(m, t, x) && Guard(m, t, x, Action.ReadTuple)
    ensures LocksOk(MemAfter(m, t, x, Action.ReadTuple), t, TxnAfter(m, t, x, Action.ReadTuple))
  {}

  lemma ObserveOwn(m: Mem, t: TxnId, x: Txn, n: nat, ks: set<Key>)
    requires MemOk(m) && WritesOk(m, x) && LocksOk(m, t, x) && Guard(m, t, x, Observe(n, ks))
    ensures LocksOk(MemAfter(m, t, x, Observe(n, ks)), t, TxnAfter(m, t, x, Observe(n, ks)))
  {}

  lemma PutOwn(m: Mem, t: TxnId, x: Txn, k: Key, v: Option<Value>)
    requires MemOk(m) && WritesOk(m, x) && LocksOk(m, t, x) && Guard(m, t, x, Put(k, v))
    ensures LocksOk(MemAfter(m, t, x, Put(k, v)), t, TxnAfter(m, t, x, Put(k, v)))
  {
    AppendKeeps(x.writes, Write(m.index[k], k, v, false));
  }

  lemma GiveUpOwn(m: Mem, t: TxnId, x: Txn)
    requires MemOk(m) && WritesOk(m, x) && LocksOk(m, t, x) && Guard(m, t, x, Action.GiveUp)
    ensures LocksOk(MemAfter(m, t, x, Action.GiveUp), t, TxnAfter(m, t, x, Action.GiveUp))
  {}

  lemma StartCommitOwn(m: Mem, t: TxnId, x: Txn, todo: seq<TupleId>)
    requires MemOk(m) && WritesOk(m, x) && LocksOk(m, t, x) && Guard(m, t, x, StartCommit(todo))
    ensures LocksOk(MemAfter(m, t, x, StartCommit(todo)), t, TxnAfter(m, t, x, StartCommit(todo)))
  {}

  lemma CheckTentativeOwn(m: Mem, t: TxnId, x: Txn)
    requires MemOk(m) && WritesOk(m, x) && LocksOk(m, t, x) && Guard(m, t, x, Action.CheckTentative)
    ensures LocksOk(MemAfter(m, t, x, Action.CheckTentative), t, TxnAfter(m, t, x, Action.CheckTentative))
  {}

  lemma AllLockedOwn(m: Mem, t: TxnId, x: Txn, tid: nat)
    requires MemOk(m) && WritesOk(m, x) && LocksOk(m, t, x) && Guard(m, t, x, AllLocked(tid))
    ensures LocksOk(MemAfter(m, t, x, AllLocked(tid)), t, TxnAfter(m, t, x, AllLocked(tid)))
  {}

  lemma ValidateReadOwn(m: Mem, t: TxnId, x: Txn, patient: bool)
    requires MemOk(m) && WritesOk(m, x) && LocksOk(m, t, x) && Guard(m, t, x, ValidateRead(patient))
    ensures LocksOk(MemAfter(m, t, x, ValidateRead(patient)), t, TxnAfter(m, t, x, ValidateRead(patient)))
  {}

  lemma ValidateNodeOwn(m: Mem, t: TxnId, x: Txn, n: nat)
    requires MemOk(m) && WritesOk(m, x) && LocksOk(m, t, x) && Guard(m, t, x, ValidateNode(n))
    ensures LocksOk(MemAfter(m, t, x, ValidateNode(n)), t, TxnAfter(m, t, x, ValidateNode(n)))
  {}

  lemma DecideOwn(m: Mem, t: TxnId, x: Txn)
    requires MemOk(m) && WritesOk(m, x) && LocksOk(m, t, x) && Guard(m, t, x, Action.Decide)
    ensures LocksOk(MemAfter(m, t, x, Action.Decide), t, TxnAfter(m, t, x, Action.Decide))
  {}

  lemma SkipWriteInserts(m: Mem, t: TxnId, x: Txn)
    requires WritesOk(m, x) && InsertsOk(m, t, x) && HoldOk(m, t, x) && HeadOk(m, t, x) && Guard(m, t, x, Action.SkipWrite)
    ensures InsertsOk(MemAfter(m, t, x, Action.SkipWrite), t, TxnAfter(m, t, x, Action.SkipWrite))
  {}

  lemma SkipWriteOwn(m: Mem, t: TxnId, x: Txn)
    requires MemOk(m) && WritesOk(m, x) && LocksOk(m, t, x) && Guard(m, t, x, Action.SkipWrite)
    ensures LocksOk(MemAfter(m, t, x, Action.SkipWrite), t, TxnAfter(m, t, x, Action.SkipWrite))
  {
    SkipWriteInserts(m, t, x);
  }

  lemma InstallDoneOwn(m: Mem, t: TxnId, x: Txn)
    requires MemOk(m) && WritesOk(m, x) && LocksOk(m, t, x) && Guard(m, t, x, Action.InstallDone)
    ensures LocksOk(MemAfter(m, t, x, Action.InstallDone), t, TxnAfter(m, t, x, Action.InstallDone))
  {}

  lemma FinishCommitOwn(m: Mem, t: TxnId, x: Txn)
    requires MemOk(m) && WritesOk(m, x) && LocksOk(m, t, x) && ReleaseOk(m, t, x) && Guard(m, t, x, Action.FinishCommit)
    ensures LocksOk(MemAfter(m, t, x, Action.FinishCommit), t, TxnAfter(m, t, x, Action.FinishCommit))
  {}

  lemma FinishAbortOwn(m: Mem, t: TxnId, x: Txn)
    requires MemOk(m) && WritesOk(m, x) && LocksOk(m, t, x) && ReleaseOk(m, t, x) && Guard(m, t, x, Action.FinishAbort)
    ensures LocksOk(MemAfter(m, t, x, Action.FinishAbort), t, TxnAfter(m, t, x, Action.FinishAbort))
  {}

  lemma InsertInserts(m: Mem, t: TxnId, x: Txn, k: Key, v: Option<Value>, u: TupleId)
    requires MemOk(m) && WritesOk(m, x) && InsertsOk(m, t, x) && HoldOk(m, t, x) && HeadOk(m, t, x) && Guard(m, t, x, Insert(k, v, u))
    ensures InsertsOk(MemAfter(m, t, x, Insert(k, v, u)), t, TxnAfter(m, t, x, Insert(k, v, u)))
  {}

  lemma InsertOwns(m: Mem, t: TxnId, x: Txn, k: Key, v: Option<Value>, u: TupleId)
    requires MemOk(m) && WritesOk(m, x) && LocksOk(m, t, x) && Guard(m, t, x, Insert(k, v, u))
    ensures OwnsOk(MemAfter(m, t, x, Insert(k, v, u)), t, TxnAfter(m, t, x, Insert(k, v, u)))
  {
    AppendKeeps(x.writes, Write(u, k, v, true));
  }

  lemma InsertHolds(m: Mem, t: TxnId, x: Txn, k: Key, v: Option<Value>, u: TupleId)
    requires MemOk(m) && WritesOk(m, x) && LocksOk(m, t, x) && Guard(m, t, x, Insert(k, v, u))
    ensures LockOk(MemAfter(m, t, x, Insert(k, v, u)), t, TxnAfter(m, t, x, Insert(k, v, u))) && HoldOk(MemAfter(m, t, x, Insert(k, v, u)), t, TxnAfter(m, t, x, Insert(k, v, u))) && HeadOk(MemAfter(m, t, x, Insert(k, v, u)), t, TxnAfter(m, t, x, Insert(k, v, u)))
  {}

  lemma InsertOwn(m: Mem, t: TxnId, x: Txn, k: Key, v: Option<Value>, u: TupleId)
    requires MemOk(m) && WritesOk(m, x) && LocksOk(m, t, x) && Guard(m, t, x, Insert(k, v, u))
    ensures LocksOk(MemAfter(m, t, x, Insert(k, v, u)), t, TxnAfter(m, t, x, Insert(k, v, u)))
  {
    InsertInserts(m, t, x, k, v, u);
    InsertOwns(m, t, x, k, v, u);
    InsertHolds(m, t, x, k, v, u);
  }

  lemma LockInserts(m: Mem, t: TxnId, x: Txn, readable: bool)
    requires MemOk(m) && WritesOk(m, x) && InsertsOk(m, t, x) && HoldOk(m, t, x) && HeadOk(m, t, x) && Guard(m, t, x, Lock(readable))
    ensures InsertsOk(MemAfter(m, t, x, Lock(readable)), t, TxnAfter(m, t, x, Lock(readable)))
  {}

  lemma LockOwns(m: Mem, t: TxnId, x: Txn, readable: bool)
    requires MemOk(m) && WritesOk(m, x) && LocksOk(m, t, x) && Guard(m, t, x, Lock(readable))
    ensures OwnsOk(MemAfter(m, t, x, Lock(readable)), t, TxnAfter(m, t, x, Lock(readable)))
  {}

  lemma LockHolds(m: Mem, t: TxnId, x: Txn, readable: bool)
    requires MemOk(m) && WritesOk(m, x) && LocksOk(m, t, x) && Guard(m, t, x, Lock(readable))
    ensures LockOk(MemAfter(m, t, x, Lock(readable)), t, TxnAfter(m, t, x, Lock(readable))) && HoldOk(MemAfter(m, t, x, Lock(readable)), t, TxnAfter(m, t, x, Lock(readable))) && HeadOk(MemAfter(m, t, x, Lock(readable)), t, TxnAfter(m, t, x, Lock(readable)))
  {}

  lemma LockOwn(m: Mem, t: TxnId, x: Txn, readable: bool)
    requires MemOk(m) && WritesOk(m, x) && LocksOk(m, t, x) && Guard(m, t, x, Lock(readable))
    ensures LocksOk(MemAfter(m, t, x, Lock(readable)), t, TxnAfter(m, t, x, Lock(readable)))
  {
    LockInserts(m, t, x, readable);
    LockOwns(m, t, x, readable);
    LockHolds(m, t, x, readable);
  }

  lemma InstallInsertInserts(m: Mem, t: TxnId, x: Txn)
    requires MemOk(m) && WritesOk(m, x) && InsertsOk(m, t, x) && HoldOk(m, t, x) && HeadOk(m, t, x) && Guard(m, t, x, Action.InstallInsert)
    ensures InsertsOk(MemAfter(m, t, x, Action.InstallInsert), t, TxnAfter(m, t, x, Action.InstallInsert))
  {}

  lemma InstallInsertOwns(m: Mem, t: TxnId, x: Txn)
    requires MemOk(m) && WritesOk(m, x) && LocksOk(m, t, x) && Guard(m, t, x, Action.InstallInsert)
    ensures OwnsOk(MemAfter(m, t, x, Action.InstallInsert), t, TxnAfter(m, t, x, Action.InstallInsert))
  {}

  lemma InstallInsertHolds(m: Mem, t: TxnId, x: Txn)
    requires MemOk(m) && WritesOk(m, x) && LocksOk(m, t, x) && Guard(m, t, x, Action.InstallInsert)
    ensures LockOk(MemAfter(m, t, x, Action.InstallInsert), t, TxnAfter(m, t, x, Action.InstallInsert)) && HoldOk(MemAfter(m, t, x, Action.InstallInsert), t, TxnAfter(m, t, x, Action.InstallInsert)) && HeadOk(MemAfter(m, t, x, Action.InstallInsert), t, TxnAfter(m, t, x, Action.InstallInsert))
  {}

  lemma InstallInsertOwn(m: Mem, t: TxnId, x: Txn)
    requires MemOk(m) && WritesOk(m, x) && LocksOk(m, t, x) && Guard(m, t, x, Action.InstallInsert)
    ensures LocksOk(MemAfter(m, t, x, Action.InstallInsert), t, TxnAfter(m, t, x, Action.InstallInsert))
  {
    InstallInsertInserts(m, t, x);
    InstallInsertOwns(m, t, x);
    InstallInsertHolds(m, t, x);
  }

  lemma InstallInPlaceInserts(m: Mem, t: TxnId, x: Txn)
    requires MemOk(m) && WritesOk(m, x) && InsertsOk(m, t, x) && HoldOk(m, t, x) && HeadOk(m, t, x) && Guard(m, t, x, Action.InstallInPlace)
    ensures InsertsOk(MemAfter(m, t, x, Action.InstallInPlace), t, TxnAfter(m, t, x, Action.InstallInPlace))
  {}

  lemma InstallInPlaceOwns(m: Mem, t: TxnId, x: Txn)
    requires MemOk(m) && WritesOk(m, x) && LocksOk(m, t, x) && Guard(m, t, x, Action.InstallInPlace)
    ensures OwnsOk(MemAfter(m, t, x, Action.InstallInPlace), t, TxnAfter(m, t, x, Action.InstallInPlace))
  {}

  lemma InstallInPlaceHolds(m: Mem, t: TxnId, x: Txn)
    requires MemOk(m) && WritesOk(m, x) && LocksOk(m, t, x) && Guard(m, t, x, Action.InstallInPlace)
    ensures LockOk(MemAfter(m, t, x, Action.InstallInPlace), t, TxnAfter(m, t, x, Action.InstallInPlace)) && HoldOk(MemAfter(m, t, x, Action.InstallInPlace), t, TxnAfter(m, t, x, Action.InstallInPlace)) && HeadOk(MemAfter(m, t, x, Action.InstallInPlace), t, TxnAfter(m, t, x, Action.InstallInPlace))
  {}

  lemma InstallInPlaceOwn(m: Mem, t: TxnId, x: Txn)
    requires MemOk(m) && WritesOk(m, x) && LocksOk(m, t, x) && Guard(m, t, x, Action.InstallInPlace)
    ensures LocksOk(MemAfter(m, t, x, Action.InstallInPlace), t, TxnAfter(m, t, x, Action.InstallInPlace))
  {
    InstallInPlaceInserts(m, t, x);
    InstallInPlaceOwns(m, t, x);
    InstallInPlaceHolds(m, t, x);
  }

  lemma InstallReplaceInserts(m: Mem, t: TxnId, x: Txn, u: TupleId)
    requires MemOk(m) && WritesOk(m, x) && InsertsOk(m, t, x) && HoldOk(m, t, x) && HeadOk(m, t, x) && Guard(m, t, x, InstallReplace(u))
    ensures InsertsOk(MemAfter(m, t, x, InstallReplace(u)), t, TxnAfter(m, t, x, InstallReplace(u)))
  {}

  lemma InstallReplaceOwns(m: Mem, t: TxnId, x: Txn, u: TupleId)
    requires MemOk(m) && WritesOk(m, x) && LocksOk(m, t, x) && Guard(m, t, x, InstallReplace(u))
    ensures OwnsOk(MemAfter(m, t, x, InstallReplace(u)), t, TxnAfter(m, t, x, InstallReplace(u)))
  {}

  lemma InstallReplaceHolds(m: Mem, t: TxnId, x: Txn, u: TupleId)
    requires MemOk(m) && WritesOk(m, x) && LocksOk(m, t, x) && Guard(m, t, x, InstallReplace(u))
    ensures LockOk(MemAfter(m, t, x, InstallReplace(u)), t, TxnAfter(m, t, x, InstallReplace(u))) && HoldOk(MemAfter(m, t, x, InstallReplace(u)), t, TxnAfter(m, t, x, InstallReplace(u))) && HeadOk(MemAfter(m, t, x, InstallReplace(u)), t, TxnAfter(m, t, x, InstallReplace(u)))
  {}

  lemma InstallReplaceOwn(m: Mem, t: TxnId, x: Txn, u: TupleId)
    requires MemOk(m) && WritesOk(m, x) && LocksOk(m, t, x) && Guard(m, t, x, InstallReplace(u))
    ensures LocksOk(MemAfter(m, t, x, InstallReplace(u)), t, TxnAfter(m, t, x, InstallReplace(u)))
  {
    InstallReplaceInserts(m, t, x, u);
    InstallReplaceOwns(m, t, x, u);
    InstallReplaceHolds(m, t, x, u);
  }

  lemma PublishInserts(m: Mem, t: TxnId, x: Txn)
    requires MemOk(m) && WritesOk(m, x) && InsertsOk(m, t, x) && HoldOk(m, t, x) && HeadOk(m, t, x) && Guard(m, t, x, Action.Publish)
    ensures InsertsOk(MemAfter(m, t, x, Action.Publish), t, TxnAfter(m, t, x, Action.Publish))
  {}

  lemma PublishOwns(m: Mem, t: TxnId, x: Txn)
    requires MemOk(m) && WritesOk(m, x) && LocksOk(m, t, x) && Guard(m, t, x, Action.Publish)
    ensures OwnsOk(MemAfter(m, t, x, Action.Publish), t, TxnAfter(m, t, x, Action.Publish))
  {}

  lemma PublishHolds(m: Mem, t: TxnId, x: Txn)
    requires MemOk(m) && WritesOk(m, x) && LocksOk(m, t, x) && Guard(m, t, x, Action.Publish)
    ensures LockOk(MemAfter(m, t, x, Action.Publish), t, TxnAfter(m, t, x, Action.Publish)) && HoldOk(MemAfter(m, t, x, Action.Publish), t, TxnAfter(m, t, x, Action.Publish)) && HeadOk(MemAfter(m, t, x, Action.Publish), t, TxnAfter(m, t, x, Action.Publish))
  {}

  lemma PublishOwn(m: Mem, t: TxnId, x: Txn)
    requires MemOk(m) && WritesOk(m, x) && LocksOk(m, t, x) && Guard(m, t, x, Action.Publish)
    ensures LocksOk(MemAfter(m, t, x, Action.Publish), t, TxnAfter(m, t, x, Action.Publish))
  {
    PublishInserts(m, t, x);
    PublishOwns(m, t, x);
    PublishHolds(m, t, x);
  }

  lemma ReleaseHeadInserts(m: Mem, t: TxnId, x: Txn)
    requires MemOk(m) && WritesOk(m, x) && InsertsOk(m, t, x) && HoldOk(m, t, x) && HeadOk(m, t, x) && Guard(m, t, x, Action.ReleaseHead)
    ensures InsertsOk(MemAfter(m, t, x, Action.ReleaseHead), t, TxnAfter(m, t, x, Action.ReleaseHead))
  {}

  lemma ReleaseHeadOwns(m: Mem, t: TxnId, x: Txn)
    requires MemOk(m) && WritesOk(m, x) && LocksOk(m, t, x) && Guard(m, t, x, Action.ReleaseHead)
    ensures OwnsOk(MemAfter(m, t, x, Action.ReleaseHead), t, TxnAfter(m, t, x, Action.ReleaseHead))
  {}

  lemma ReleaseHeadHolds(m: Mem, t: TxnId, x: Txn)
    requires MemOk(m) && WritesOk(m, x) && LocksOk(m, t, x) && Guard(m, t, x, Action.ReleaseHead)
    ensures LockOk(MemAfter(m, t, x, Action.ReleaseHead), t, TxnAfter(m, t, x, Action.ReleaseHead)) && HoldOk(MemAfter(m, t, x, Action.ReleaseHead), t, TxnAfter(m, t, x, Action.ReleaseHead)) && HeadOk(MemAfter(m, t, x, Action.ReleaseHead), t, TxnAfter(m, t, x, Action.ReleaseHead))
  {}

  lemma ReleaseHeadOwn(m: Mem, t: TxnId, x: Txn)
    requires MemOk(m) && WritesOk(m, x) && LocksOk(m, t, x) && Guard(m, t, x, Action.ReleaseHead)
    ensures LocksOk(MemAfter(m, t, x, Action.ReleaseHead), t, TxnAfter(m, t, x, Action.ReleaseHead))
  {
    ReleaseHeadInserts(m, t, x);
    ReleaseHeadOwns(m, t, x);
    ReleaseHeadHolds(m, t, x);
  }

  lemma UnlockInserts(m: Mem, t: TxnId, x: Txn)
    requires WritesOk(m, x) && InsertsOk(m, t, x) && ReleaseOk(m, t, x) && Guard(m, t, x, Action.Unlock)
    ensures InsertsOk(MemAfter(m, t, x, Action.Unlock), t, TxnAfter(m, t, x, Action.Unlock))
  {}

  lemma UnlockOwns(m: Mem, t: TxnId, x: Txn)
    requires OwnsOk(m, t, x) && Guard(m, t, x, Action.Unlock)
    ensures OwnsOk(MemAfter(m, t, x, Action.Unlock), t, TxnAfter(m, t, x, Action.Unlock))
  {}

  lemma UnlockOwn(m: Mem, t: TxnId, x: Txn)
    requires MemOk(m) && WritesOk(m, x) && LocksOk(m, t, x) && ReleaseOk(m, t, x) && Guard(m, t, x, Action.Unlock)
    ensures LocksOk(MemAfter(m, t, x, Action.Unlock), t, TxnAfter(m, t, x, Action.Unlock))
  {
    UnlockInserts(m, t, x);
    UnlockOwns(m, t, x);
  }

  lemma CleanupInserts(m: Mem, t: TxnId, x: Txn)
    requires WritesOk(m, x) && InsertsOk(m, t, x) && ReleaseOk(m, t, x) && Guard(m, t, x, Action.Cleanup)
    ensures InsertsOk(MemAfter(m, t, x, Action.Cleanup), t, TxnAfter(m, t, x, Action.Cleanup))
  {}

  lemma CleanupOwns(m: Mem, t: TxnId, x: Txn)
    requires OwnsOk(m, t, x) && Guard(m, t, x, Action.Cleanup)
    ensures OwnsOk(MemAfter(m, t, x, Action.Cleanup), t, TxnAfter(m, t, x, Action.Cleanup))
  {}

  lemma CleanupOwn(m: Mem, t: TxnId, x: Txn)
    requires MemOk(m) && WritesOk(m, x) && LocksOk(m, t, x) && ReleaseOk(m, t, x) && Guard(m, t, x, Action.Cleanup)
    ensures LocksOk(MemAfter(m, t, x, Action.Cleanup), t, TxnAfter(m, t, x, Action.Cleanup))
  {
    CleanupInserts(m, t, x);
    CleanupOwns(m, t, x);
  }

  lemma AbortUnlockInserts(m: Mem, t: TxnId, x: Txn)
    requires WritesOk(m, x) && InsertsOk(m, t, x) && ReleaseOk(m, t, x) && Guard(m, t, x, Action.AbortUnlock)
    ensures InsertsOk(MemAfter(m, t, x, Action.AbortUnlock), t, TxnAfter(m, t, x, Action.AbortUnlock))
  {}

  lemma AbortUnlockOwns(m: Mem, t: TxnId, x: Txn)
    requires OwnsOk(m, t, x) && Guard(m, t, x, Action.AbortUnlock)
    ensures OwnsOk(MemAfter(m, t, x, Action.AbortUnlock), t, TxnAfter(m, t, x, Action.AbortUnlock))
  {}

  lemma AbortUnlockOwn(m: Mem, t: TxnId, x: Txn)
    requires MemOk(m) && WritesOk(m, x) && LocksOk(m, t, x) && ReleaseOk(m, t, x) && Guard(m, t, x, Action.AbortUnlock)
    ensures LocksOk(MemAfter(m, t, x, Action.AbortUnlock), t, TxnAfter(m, t, x, Action.AbortUnlock))
  {
    AbortUnlockInserts(m, t, x);
    AbortUnlockOwns(m, t, x);
  }

  lemma ExecuteLocks(m: Mem, t: TxnId, x: Txn, a: Action)
    requires MemOk(m) && WritesOk(m, x) && LocksOk(m, t, x) && ReleaseOk(m, t, x) && Guard(m, t, x, a) && (a.Search? || a.ReadTuple? || a.Observe? || a.Put? || a.GiveUp? || a.StartCommit?)
    ensures LocksOk(MemAfter(m, t, x, a), t, TxnAfter(m, t, x, a))
  {
    match a {
      case Search(k) => SearchOwn(m, t, x, k);
      case ReadTuple => ReadTupleOwn(m, t, x);
      case Observe(n, ks) => ObserveOwn(m, t, x, n, ks);
      case Put(k, v) => PutOwn(m, t, x, k, v);
      case GiveUp => GiveUpOwn(m, t, x);
      case StartCommit(todo) => StartCommitOwn(m, t, x, todo);
    }
  }

  lemma DecideLocks(m: Mem, t: TxnId, x: Txn, a: Action)
    requires MemOk(m) && WritesOk(m, x) && LocksOk(m, t, x) && ReleaseOk(m, t, x) && Guard(m, t, x, a) && (a.CheckTentative? || a.AllLocked? || a.ValidateRead? || a.ValidateNode? || a.Decide?)
    ensures LocksOk(MemAfter(m, t, x, a), t, TxnAfter(m, t, x, a))
  {
    match a {
      case CheckTentative => CheckTentativeOwn(m, t, x);
      case AllLocked(tid) => AllLockedOwn(m, t, x, tid);
      case ValidateRead(patient) => ValidateReadOwn(m, t, x, patient);
      case ValidateNode(n) => ValidateNodeOwn(m, t, x, n);
      case Decide => DecideOwn(m, t, x);
    }
  }

  lemma FinishLocks(m: Mem, t: TxnId, x: Txn, a: Action)
    requires MemOk(m) && WritesOk(m, x) && LocksOk(m, t, x) && ReleaseOk(m, t, x) && Guard(m, t, x, a) && (a.SkipWrite? || a.InstallDone? || a.FinishCommit? || a.FinishAbort?)
    ensures LocksOk(MemAfter(m, t, x, a), t, TxnAfter(m, t, x, a))
  {
    match a {
      case SkipWrite => SkipWriteOwn(m, t, x);
      case InstallDone => InstallDoneOwn(m, t, x);
      case FinishCommit => FinishCommitOwn(m, t, x);
      case FinishAbort => FinishAbortOwn(m, t, x);
    }
  }

  lemma SilentLocks(m: Mem, t: TxnId, x: Txn, a: Action)
    requires MemOk(m) && WritesOk(m, x) && LocksOk(m, t, x) && ReleaseOk(m, t, x) && Guard(m, t, x, a) && Silent(a)
    ensures LocksOk(MemAfter(m, t, x, a), t, TxnAfter(m, t, x, a))
  {
    if a.SkipWrite? || a.InstallDone? || a.FinishCommit? || a.FinishAbort? {
      FinishLocks(m, t, x, a);
    } else if a.CheckTentative? || a.AllLocked? || a.ValidateRead? || a.ValidateNode? || a.Decide? {
      DecideLocks(m, t, x, a);
    } else {
      ExecuteLocks(m, t, x, a);
    }
  }

  lemma InstallLocks(m: Mem, t: TxnId, x: Txn, a: Action)
    requires MemOk(m) && WritesOk(m, x) && LocksOk(m, t, x) && Guard(m, t, x, a) && Installs(a)
    ensures LocksOk(MemAfter(m, t, x, a), t, TxnAfter(m, t, x, a))
  {
    match a {
      case InstallInsert => InstallInsertOwn(m, t, x);
      case InstallInPlace => InstallInPlaceOwn(m, t, x);
      case InstallReplace(u) => InstallReplaceOwn(m, t, x, u);
      case Publish => PublishOwn(m, t, x);
    }
  }

  lemma ReleaseLocks(m: Mem, t: TxnId, x: Txn, a: Action)
    requires MemOk(m) && WritesOk(m, x) && LocksOk(m, t, x) && ReleaseOk(m, t, x) && Guard(m, t, x, a) && Releases(a)
    ensures LocksOk(MemAfter(m, t, x, a), t, TxnAfter(m, t, x, a))
  {
    match a {
      case ReleaseHead => ReleaseHeadOwn(m, t, x);
      case Unlock => UnlockOwn(m, t, x);
      case Cleanup => CleanupOwn(m, t, x);
      case AbortUnlock => AbortUnlockOwn(m, t, x);
    }
  }

  lemma OwnLocks(m: Mem, t: TxnId, x: Txn, a: Action)
    requires MemOk(m) && WritesOk(m, x) && LocksOk(m, t, x) && ReleaseOk(m, t, x) && Guard(m, t, x, a)
    ensures LocksOk(MemAfter(m, t, x, a), t, TxnAfter(m, t, x, a))
  {
    if Silent(a) {
      SilentLocks(m, t, x, a);
    } else if Installs(a) {
      InstallLocks(m, t, x, a);
    } else if Releases(a) {
      ReleaseLocks(m, t, x, a);
    } else if a.Insert? {
      InsertOwn(m, t, x, a.k, a.v, a.u);
    } else {
      LockOwn(m, t, x, a.readable);
    }
  }

  // ------------------------------------------------------------------ the lock flags

  /** Two records that carry a lock are of different tuples. */
  lemma OneCarrier(m: Mem, x: Txn, p: nat, q: nat)
    requires WritesOk(m, x) && FlagSetOk(x) && p < q < |x.writes| && Carries(x, p) && Carries(x, q)
    ensures x.writes[p].tuple != x.writes[q].tuple
  {
    assert x.writes[p].insert ==> InsertedBy(x.writes, x.writes[p].tuple);
  }

  lemma {:induction false} LastRecord(ws: seq<Write>, u: TupleId) returns (p: nat)
    requires InWriteSet(ws, u)
    ensures p < |ws| && ws[p].tuple == u && LastForTuple(ws, p)
  {
    var n := |ws| - 1;
    if ws[n].tuple == u {
      p := n;
    } else {
      var q :| 0 <= q < |ws| && ws[q].tuple == u;
      assert ws[..n][q].tuple == u;
      p := LastRecord(ws[..n], u);
      assert LastForTuple(ws, p) by {
        assert forall r :: p < r < n ==> ws[..n][r] == ws[r];
      }
    }
  }

  lemma CarriedAtStart(x: Txn, u: TupleId)
    requires InWriteSet(x.writes, u) && (InsertedBy(x.writes, u) || u in x.locked)
    ensures CarriedFrom(x, 0, u)
  {
    if InsertedBy(x.writes, u) {
      var p :| 0 <= p < |x.writes| && x.writes[p].tuple == u && x.writes[p].insert;
      assert Carries(x, p);
    } else {
      var p := LastRecord(x.writes, u);
      assert Carries(x, p);
    }
  }

  /** When the release loop starts, the records that carry a lock are those of the tuples held. */
  lemma WalkStarts(m: Mem, t: TxnId, x: Txn)
    requires Walking(x.phase) && x.phase.pos == 0 && FlagSetOk(x) && FlagsOk(m, t, x)
    requires forall u :: u in x.locked ==> Owns(m, t, u)
    requires forall p :: 0 <= p < |x.writes| && x.writes[p].insert ==> Owns(m, t, x.writes[p].tuple)
    ensures WalkOk(m, t, x)
  {
    forall u | Owns(m, t, u)
      ensures CarriedFrom(x, 0, u)
    {
      assert InsertedBy(x.writes, u) ==> InWriteSet(x.writes, u);
      CarriedAtStart(x, u);
    }
  }

  /** One record further: its lock, if it carries one, is gone and no other. */
  lemma WalkOn(m: Mem, m': Mem, t: TxnId, x: Txn, x': Txn)
    requires WritesOk(m, x) && FlagSetOk(x) && WalkOk(m, t, x) && Walking(x.phase) && x.phase.pos < |x.writes|
    requires Walking(x'.phase) && x'.phase.pos == x.phase.pos + 1 && x'.writes == x.writes && x'.locked == x.locked
    requires forall u :: Owns(m', t, u) <==> Owns(m, t, u) && !(Carries(x, x.phase.pos) && u == x.writes[x.phase.pos].tuple)
    ensures WalkOk(m', t, x')
  {
    var pos := x.phase.pos;
    assert forall p :: 0 <= p < |x.writes| ==> Carries(x', p) == Carries(x, p);
    forall p | pos < p < |x.writes| && Carries(x', p)
      ensures Owns(m', t, x.writes[p].tuple)
    {
      if Carries(x, pos) {
        OneCarrier(m, x, pos, p);
      }
    }
    forall u | Owns(m', t, u)
      ensures CarriedFrom(x', pos + 1, u)
    {
      assert CarriedFrom(x, pos, u);
      var p :| pos <= p < |x.writes| && x.writes[p].tuple == u && Carries(x, p);
      assert Carries(x', p);
    }
  }

  lemma ReleaseOne(m: Mem, t: TxnId, x: Txn, a: Action)
    requires Guard(m, t, x, a) && (a.Unlock? || a.AbortUnlock?)
    ensures
      var m', x' := MemAfter(m, t, x, a), TxnAfter(m, t, x, a);
      && x'.writes == x.writes && x'.locked == x.locked && Walking(x'.phase) && x'.phase.pos == x.phase.pos + 1
      && forall u :: Owns(m', t, u) <==> Owns(m, t, u) && !(Carries(x, x.phase.pos) && u == x.writes[x.phase.pos].tuple)
  {}

  lemma OwnFlagSet(m: Mem, t: TxnId, x: Txn, a: Action)
    requires FlagSetOk(x) && LockOk(m, t, x) && Guard(m, t, x, a)
    ensures FlagSetOk(TxnAfter(m, t, x, a))
  {
  }

  /** Actions that neither take nor give up a lock, nor write. */
  predicate KeepsLocks(a: Action) {
    (Silent(a) && !a.Put?) || a.InstallInsert? || a.InstallInPlace? || a.Publish? || a.Cleanup?
  }

  lemma SameFlags(m: Mem, t: TxnId, x: Txn, a: Action)
    requires Guard(m, t, x, a) && KeepsLocks(a)
    ensures
      var m', x' := MemAfter(m, t, x, a), TxnAfter(m, t, x, a);
      && x'.writes == x.writes && x'.locked == x.locked && (forall u :: Owns(m', t, u) <==> Owns(m, t, u))
      && (BeforeLockPoint(x'.phase) || Holding(x'.phase) ==> BeforeLockPoint(x.phase) || Holding(x.phase))
      && (forall u :: IsHead(x.phase, u) ==> IsHead(x'.phase, u))
  {}

  lemma FlagsCarryOver(m: Mem, m': Mem, t: TxnId, x: Txn, x': Txn)
    requires FlagsOk(m, t, x) && x'.writes == x.writes && x'.locked == x.locked && forall u :: Owns(m', t, u) <==> Owns(m, t, u)
    requires BeforeLockPoint(x'.phase) || Holding(x'.phase) ==> BeforeLockPoint(x.phase) || Holding(x.phase)
    requires forall u :: IsHead(x.phase, u) ==> IsHead(x'.phase, u)
    ensures FlagsOk(m', t, x')
  {}

  lemma TakenFlags(m: Mem, t: TxnId, x: Txn, a: Action)
    requires InsertsOk(m, t, x) && HeadOk(m, t, x) && FlagSetOk(x) && FlagsOk(m, t, x) && Guard(m, t, x, a)
    requires a.Lock? || a.InstallReplace?
    ensures FlagsOk(MemAfter(m, t, x, a), t, TxnAfter(m, t, x, a))
  {}

  lemma ReleasedFlags(m: Mem, t: TxnId, x: Txn, a: Action)
    requires HeadOk(m, t, x) && FlagSetOk(x) && FlagsOk(m, t, x) && Guard(m, t, x, a)
    requires a.ReleaseHead? || a.Unlock? || a.AbortUnlock?
    ensures FlagsOk(MemAfter(m, t, x, a), t, TxnAfter(m, t, x, a))
  {}

  lemma OwnFlagged(m: Mem, t: TxnId, x: Txn, a: Action)
    requires InsertsOk(m, t, x) && HeadOk(m, t, x) && FlagSetOk(x) && FlagsOk(m, t, x) && Guard(m, t, x, a)
    ensures FlagsOk(MemAfter(m, t, x, a), t, TxnAfter(m, t, x, a))
  {
    if KeepsLocks(a) {
      SameFlags(m, t, x, a);
      FlagsCarryOver(m, MemAfter(m, t, x, a), t, x, TxnAfter(m, t, x, a));
    } else if a.Insert? {
      AppendKeeps(x.writes, Write(a.u, a.k, a.v, true));
    } else if a.Put? {
      AppendKeeps(x.writes, Write(m.index[a.k], a.k, a.v, false));
    } else if a.Lock? || a.InstallReplace? {
      TakenFlags(m, t, x, a);
    } else {
      ReleasedFlags(m, t, x, a);
    }
  }

  /** The actions that start the release loop do so from holding what is flagged. */
  lemma InsertsHeldAtStart(m: Mem, t: TxnId, x: Txn, a: Action, p: nat)
    requires InsertsOk(m, t, x) && Guard(m, t, x, a)
    requires Walking(TxnAfter(m, t, x, a).phase) && !a.Unlock? && !a.AbortUnlock? && !a.Cleanup?
    requires p < |TxnAfter(m, t, x, a).writes| && TxnAfter(m, t, x, a).writes[p].insert
    ensures Owns(MemAfter(m, t, x, a), t, TxnAfter(m, t, x, a).writes[p].tuple)
  {
    if p < |x.writes| {
      assert InsertOk(m, t, x, p);
    }
  }

  lemma WalkBegins(m: Mem, t: TxnId, x: Txn, a: Action)
    requires FlagsOk(m, t, x) && Guard(m, t, x, a)
    requires Walking(TxnAfter(m, t, x, a).phase) && !a.Unlock? && !a.AbortUnlock? && !a.Cleanup?
    ensures var m', x' := MemAfter(m, t, x, a), TxnAfter(m, t, x, a);
            x'.phase.pos == 0 && forall u :: u in x'.locked ==> Owns(m', t, u)
  {}

  lemma OwnWalk(m: Mem, t: TxnId, x: Txn, a: Action)
    requires WritesOk(m, x) && LocksOk(m, t, x) && ReleaseOk(m, t, x) && Guard(m, t, x, a)
    requires FlagSetOk(TxnAfter(m, t, x, a)) && FlagsOk(MemAfter(m, t, x, a), t, TxnAfter(m, t, x, a))
    ensures WalkOk(MemAfter(m, t, x, a), t, TxnAfter(m, t, x, a))
  {
    var m', x' := MemAfter(m, t, x, a), TxnAfter(m, t, x, a);
    if a.Unlock? || a.AbortUnlock? {
      ReleaseOne(m, t, x, a);
      WalkOn(m, m', t, x, x');
    } else if a.Cleanup? {
      SameFlags(m, t, x, a);
      WalkCarriesOver(m, m', t, x, x');
    } else if Walking(x'.phase) {
      WalkBegins(m, t, x, a);
      forall p | 0 <= p < |x'.writes| && x'.writes[p].insert
        ensures Owns(m', t, x'.writes[p].tuple)
      {
        InsertsHeldAtStart(m, t, x, a, p);
      }
      WalkStarts(m', t, x');
    }
  }

  lemma WalkCarriesOver(m: Mem, m': Mem, t: TxnId, x: Txn, x': Txn)
    requires WalkOk(m, t, x) && Walking(x.phase) && Walking(x'.phase) && x'.phase.pos == x.phase.pos
    requires x'.writes == x.writes && x'.locked == x.locked && forall u :: Owns(m', t, u) <==> Owns(m, t, u)
    ensures WalkOk(m', t, x')
  {
    assert forall p :: 0 <= p < |x.writes| ==> Carries(x', p) == Carries(x, p);
    forall u | Owns(m', t, u)
      ensures CarriedFrom(x', x'.phase.pos, u)
    {
      assert CarriedFrom(x, x.phase.pos, u);
    }
  }

  /** The next tuple to lock lies above all that is locked and below all that is not. */
  lemma NextIsAbove(m: Mem, t: TxnId, x: Txn, v: TupleId)
    requires LockOk(m, t, x) && FlagsOk(m, t, x) && x.phase.Locking? && x.phase.todo != []
    requires v < x.phase.todo[0] && InWriteSet(x.writes, v) && !InsertedBy(x.writes, v)
    ensures v in x.locked
  {
    var p :| 0 <= p < |x.writes| && x.writes[p].tuple == v;
    assert v !in x.phase.todo;
    assert Owns(m, t, x.writes[p].tuple);
  }

  lemma OwnLockedBelow(m: Mem, t: TxnId, x: Txn, a: Action)
    requires FlagSetOk(x) && LockedBelow(x) && LockOk(m, t, x) && FlagsOk(m, t, x) && Guard(m, t, x, a)
    ensures LockedBelow(TxnAfter(m, t, x, a))
  {
    var x' := TxnAfter(m, t, x, a);
    if a.Lock? {
      forall u: TupleId, v: TupleId | u in x'.locked && v < u && InWriteSet(x.writes, v) && !InsertedBy(x.writes, v)
        ensures v in x'.locked
      {
        if u == x.phase.todo[0] {
          NextIsAbove(m, t, x, v);
        }
      }
    }
  }

  lemma OwnRelease(m: Mem, t: TxnId, x: Txn, a: Action)
    requires WritesOk(m, x) && LocksOk(m, t, x) && ReleaseOk(m, t, x) && Guard(m, t, x, a)
    ensures ReleaseOk(MemAfter(m, t, x, a), t, TxnAfter(m, t, x, a))
  {
    OwnFlagSet(m, t, x, a);
    OwnLockedBelow(m, t, x, a);
    OwnFlagged(m, t, x, a);
    OwnWalk(m, t, x, a);
  }

  lemma ObserveAbsent(m: Mem, t: TxnId, x: Txn, n: nat, ks: set<Key>)
    requires AbsentOk(m, t, x) && Guard(m, t, x, Observe(n, ks))
    ensures AbsentOk(m, t, TxnAfter(m, t, x, Observe(n, ks)))
  {}

  lemma InsertAbsent(m: Mem, t: TxnId, x: Txn, k: Key, v: Option<Value>, u: TupleId)
    requires MemOk(m) && AbsentOk(m, t, x) && Guard(m, t, x, Insert(k, v, u))
    ensures AbsentOk(InsertMem(m, t, k, v, u), t, TxnAfter(m, t, x, Insert(k, v, u)))
  {}

  /** Actions before validation that leave memory, or all but one lock, alone. */
  lemma SameNodes(m: Mem, t: TxnId, x: Txn, a: Action)
    requires AbsentOk(m, t, x) && Guard(m, t, x, a) && MemOk(m)
    requires (Silent(a) && !a.Observe?) || a.Lock?
    ensures AbsentOk(MemAfter(m, t, x, a), t, TxnAfter(m, t, x, a))
  {
    var m', x' := MemAfter(m, t, x, a), TxnAfter(m, t, x, a);
    if BeforeLockPoint(x'.phase) || x'.phase.Validating? {
      forall k | k in x'.misses
        ensures MissOk(m', t, x', k)
      {
        assert MissOk(m, t, x, k);
      }
      assert forall n :: NodeVersion(m', n) == NodeVersion(m, n);
    }
  }

  lemma OwnAbsent(m: Mem, t: TxnId, x: Txn, a: Action)
    requires MemOk(m) && AbsentOk(m, t, x) && Guard(m, t, x, a)
    ensures AbsentOk(MemAfter(m, t, x, a), t, TxnAfter(m, t, x, a))
  {
    if a.Observe? {
      ObserveAbsent(m, t, x, a.n, a.ks);
    } else if a.Insert? {
      InsertAbsent(m, t, x, a.k, a.v, a.u);
    } else if Silent(a) || a.Lock? {
      SameNodes(m, t, x, a);
    }
  }

  lemma BeginKeepsLocal(s: State, t: TxnId)
    requires LocalOk(s) && Enabled(s, Begin(t))
    ensures LocalOk(Apply(s, Begin(t)))
  {}

  lemma ActKeepsOwn(m: Mem, t: TxnId, x: Txn, a: Action)
    requires MemOk(m) && TxnOk(m, t, x) && Guard(m, t, x, a)
    ensures MemOk(MemAfter(m, t, x, a)) && MemStep(m, MemAfter(m, t, x, a), t)
    ensures TxnOk(MemAfter(m, t, x, a), t, TxnAfter(m, t, x, a))
  {
    Guarantee(m, t, x, a);
    OwnWrites(m, t, x, a);
    OwnLocks(m, t, x, a);
    OwnRelease(m, t, x, a);
    OwnInstalled(m, t, x, a);
    OwnReads(m, t, x, a);
    OwnAbsent(m, t, x, a);
  }

  lemma OwnersKept(s: State, m': Mem, t: TxnId)
    requires LocalOk(s) && MemStep(s.mem, m', t) && t in s.txns
    ensures forall u :: u in m'.tuples && m'.tuples[u].owner.Some? ==> m'.tuples[u].owner.value in s.txns
  {
    forall u | u in m'.tuples && m'.tuples[u].owner.Some?
      ensures m'.tuples[u].owner.value in s.txns
    {
      assert u in s.mem.tuples ==> TupleStep(s.mem.tuples[u], m'.tuples[u], t);
    }
  }

  lemma ActKeepsLocal(s: State, t: TxnId, a: Action)
    requires LocalOk(s) && Enabled(s, Act(t, a))
    ensures LocalOk(Apply(s, Act(t, a)))
  {
    var m, x := s.mem, s.txns[t];
    var m' := MemAfter(m, t, x, a);
    ActKeepsOwn(m, t, x, a);
    OwnersKept(s, m', t);
    forall t' | t' in s.txns && t' != t
      ensures TxnOk(m', t', s.txns[t'])
    {
      Rely(m, m', t, t', s.txns[t']);
    }
  }
}
