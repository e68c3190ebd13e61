/** Every run of the commit protocol is serializable, in the order in which
    transactions pass their lock points, and leaves no lock behind. */
module Serializability {
  import opened Common
  import opened CommitModel
  import opened CommitInvariant
  import opened CommitOrder
  import opened CommitKeeps
  import opened CommitOwn
  import WriteSet

  // ------------------------------------------------------------------ the reference: a
  // database that runs one transaction after another

  type Database = map<Key, Value>

  function Lookup(db: Database, k: Key): Option<Value> {
    if k in db then Some(db[k]) else None
  }

  function Store(db: Database, ws: seq<Write>): Database {
    if ws == [] then db
    else
      var before, w := Store(db, ws[..|ws| - 1]), ws[|ws| - 1];
      if w.value.Some? then before[w.key := w.value.value] else before - {w.key}
  }

  function RunSerially(xs: seq<Txn>): Database {
    if xs == [] then map[] else Store(RunSerially(xs[..|xs| - 1]), xs[|xs| - 1].writes)
  }

  /** The transaction, started on `db`, would have read what it did read. */
  ghost predicate ReadsAgree(m: Mem, db: Database, x: Txn) {
    && (forall i :: 0 <= i < |x.readSet| ==>
          && x.readSet[i].tuple in m.tuples
          && x.readSet[i].value == Lookup(db, m.tuples[x.readSet[i].tuple].key))
    && (forall k :: k in x.misses ==> Lookup(db, k) == None)
  }

  /** Run one after another, every transaction reads what it read in the real run. */
  ghost predicate SerialRun(m: Mem, xs: seq<Txn>) {
    forall j :: 0 <= j < |xs| ==> ReadsAgree(m, RunSerially(xs[..j]), xs[j])
  }

  // ------------------------------------------------------------------

  /** The transactions that have passed validation, in lock-point order. */
  ghost function Winners(txns: Txns, order: seq<TxnId>, j: nat): seq<Txn>
    requires j <= |order| && Known(txns, order)
  {
    if j == 0 then []
    else
      var x := txns[order[j - 1]];
      Winners(txns, order, j - 1) + (if Decided(x.phase) then [x] else [])
  }

  lemma {:induction false} StoreLookup(db: Database, ws: seq<Write>, k: Key)
    ensures Lookup(Store(db, ws), k) == if HasWrite(ws, k) then FinalValue(ws, k) else Lookup(db, k)
  {
    if ws != [] {
      var n := |ws| - 1;
      StoreLookup(db, ws[..n], k);
      if ws[n].key != k {
        assert HasWrite(ws[..n], k) <==> HasWrite(ws, k) by {
          if HasWrite(ws, k) {
            var p :| 0 <= p < |ws| && ws[p].key == k;
            assert ws[..n][p].key == k;
          }
        }
      }
    }
  }

  /** The serial value of a key is what the reference database holds. */
  lemma {:induction false} SerialIsReference(txns: Txns, order: seq<TxnId>, j: nat, k: Key)
    requires j <= |order| && Known(txns, order)
    ensures Lookup(RunSerially(Winners(txns, order, j)), k) == Serial(txns, order, j, k)
  {
    if j > 0 {
      SerialIsReference(txns, order, j - 1, k);
      var x, before := txns[order[j - 1]], Winners(txns, order, j - 1);
      if Decided(x.phase) {
        assert (before + [x])[..|before|] == before;
        StoreLookup(RunSerially(before), x.writes, k);
      } else {
        assert before + [] == before;
      }
    }
  }

  lemma {:induction false} WinnersAreSerial(s: State, j: nat)
    requires OrderOk(s) && ValidatedOk(s) && j <= |s.order|
    ensures SerialRun(s.mem, Winners(s.txns, s.order, j))
  {
    if j > 0 {
      WinnersAreSerial(s, j - 1);
      var x, before := s.txns[s.order[j - 1]], Winners(s.txns, s.order, j - 1);
      var xs := Winners(s.txns, s.order, j);
      forall i | 0 <= i < |xs|
        ensures ReadsAgree(s.mem, RunSerially(xs[..i]), xs[i])
      {
        if i < |before| {
          assert xs[..i] == before[..i] && xs[i] == before[i];
        } else {
          assert xs[..i] == before && xs[i] == x;
          WinnerReadsAgree(s, j - 1);
        }
      }
    }
  }

  lemma WinnerReadsAgree(s: State, j: nat)
    requires OrderOk(s) && ValidatedOk(s) && j < |s.order| && Decided(s.txns[s.order[j]].phase)
    ensures ReadsAgree(s.mem, RunSerially(Winners(s.txns, s.order, j)), s.txns[s.order[j]])
  {
    var x := s.txns[s.order[j]];
    assert ValidOk(s, j, x);
    forall i | 0 <= i < |x.readSet|
      ensures && x.readSet[i].tuple in s.mem.tuples
              && x.readSet[i].value ==
                 Lookup(RunSerially(Winners(s.txns, s.order, j)), s.mem.tuples[x.readSet[i].tuple].key)
    {
      SerialIsReference(s.txns, s.order, j, s.mem.tuples[x.readSet[i].tuple].key);
    }
    forall k | k in x.misses
      ensures Lookup(RunSerially(Winners(s.txns, s.order, j)), k) == None
    {
      SerialIsReference(s.txns, s.order, j, k);
    }
  }

  // ------------------------------------------------------------------ theorems

  /** Serializability.  After any run, the transactions that have passed validation,
      taken in lock-point order and run one after another, read exactly what they read
      in the run: the same value for every tuple they read, and nothing under any key
      they found absent. */
  lemma Serializable(nodeOf: Key -> nat, steps: seq<Step>)
    requires Run(Init(nodeOf), steps).Some?
    ensures var s := Run(Init(nodeOf), steps).value;
            && Known(s.txns, s.order)
            && SerialRun(s.mem, Winners(s.txns, s.order, |s.order|))
  {
    RunKeepsInv(nodeOf, steps);
    var s := Run(Init(nodeOf), steps).value;
    WinnersAreSerial(s, |s.order|);
  }

  /** A key found absent by a transaction that passed validation was written by no
      transaction before it in the order (or only deleted): no phantoms. */
  lemma NoPhantoms(nodeOf: Key -> nat, steps: seq<Step>, j: nat, k: Key)
    requires Run(Init(nodeOf), steps).Some?
    requires var s := Run(Init(nodeOf), steps).value;
             && j < |s.order| && s.order[j] in s.txns
             && Decided(s.txns[s.order[j]].phase) && k in s.txns[s.order[j]].misses
    ensures var s := Run(Init(nodeOf), steps).value;
            Known(s.txns, s.order) && Lookup(RunSerially(Winners(s.txns, s.order, j)), k) == None
  {
    RunKeepsInv(nodeOf, steps);
    WinnerReadsAgree(Run(Init(nodeOf), steps).value, j);
  }

  ghost predicate AllFinished(s: State) {
    forall t :: t in s.txns ==> Finished(s.txns[t].phase)
  }

  /** When no transaction is in flight, the tuples hold exactly the contents the
      reference database ends with. */
  lemma FinalContents(nodeOf: Key -> nat, steps: seq<Step>, k: Key)
    requires Run(Init(nodeOf), steps).Some? && AllFinished(Run(Init(nodeOf), steps).value)
    ensures var s := Run(Init(nodeOf), steps).value;
            && Known(s.txns, s.order)
            && Content(s.mem, k) == Lookup(RunSerially(Winners(s.txns, s.order, |s.order|)), k)
  {
    RunKeepsInv(nodeOf, steps);
    var s := Run(Init(nodeOf), steps).value;
    assert Quiet(s.txns, k);
    SerialIsReference(s.txns, s.order, |s.order|, k);
  }

  /** A transaction that has committed or aborted holds no lock. */
  lemma FinishedHoldsNothing(nodeOf: Key -> nat, steps: seq<Step>, t: TxnId)
    requires Run(Init(nodeOf), steps).Some?
    requires var s := Run(Init(nodeOf), steps).value; t in s.txns && Finished(s.txns[t].phase)
    ensures OwnsNothing(Run(Init(nodeOf), steps).value.mem, t)
  {
    RunKeepsInv(nodeOf, steps);
    var s := Run(Init(nodeOf), steps).value;
    assert TxnOk(s.mem, t, s.txns[t]);
    forall u | u in s.mem.tuples
      ensures s.mem.tuples[u].owner != Some(t)
    {
      assert OwnedOk(s.mem, s.txns[t], u) || s.mem.tuples[u].owner != Some(t);
    }
  }

  /** Throughout the release loop of a commit or an abort, a transaction holds exactly the
      tuples whose lock-carrying record is still ahead of the cursor, and each of these has
      one such record: every step releases the lock its record carries, which is the
      transaction's own, and no lock is missed or released twice. */
  lemma ReleaseIsExact(nodeOf: Key -> nat, steps: seq<Step>, t: TxnId)
    requires Run(Init(nodeOf), steps).Some?
    requires var s := Run(Init(nodeOf), steps).value; t in s.txns && Walking(s.txns[t].phase)
    ensures
      var s := Run(Init(nodeOf), steps).value;
      var x := s.txns[t];
      && (forall u :: Owns(s.mem, t, u) <==> CarriedFrom(x, x.phase.pos, u))
      && (forall p, q :: 0 <= p < q < |x.writes| && Carries(x, p) && Carries(x, q) ==> x.writes[p].tuple != x.writes[q].tuple)
  {
    RunKeepsInv(nodeOf, steps);
    var s := Run(Init(nodeOf), steps).value;
    var x := s.txns[t];
    assert TxnOk(s.mem, t, x);
    forall p, q | 0 <= p < q < |x.writes| && Carries(x, p) && Carries(x, q)
      ensures x.writes[p].tuple != x.writes[q].tuple
    {
      OneCarrier(s.mem, x, p, q);
    }
  }

  /** The flags the protocol walks over are those its locking loop leaves: for the sorted
      vector `v` of a transaction's write set there is a record at which the loop stopped
      such that a record of `v` is flagged exactly if it carries a lock in the protocol. */
  lemma FlagsAreTheLoops(nodeOf: Key -> nat, steps: seq<Step>, t: TxnId, v: seq<WriteSet.Info>) returns (h: nat)
    requires Run(Init(nodeOf), steps).Some? && t in Run(Init(nodeOf), steps).value.txns
    requires
      var ws := Run(Init(nodeOf), steps).value.txns[t].writes;
      WriteSet.Ascending(v) && WriteSet.FromRecords(ws, |ws|, v)
    ensures h <= |v|
    ensures
      var x := Run(Init(nodeOf), steps).value.txns[t];
      forall infos: seq<WriteSet.Info>, k | WriteSet.Flagged(x.writes, v, h, infos) && 0 <= k < |v| ::
        infos[k].locked <==> Carries(x, v[k].pos)
  {
    WriteSetReady(nodeOf, steps, t);
    RunKeepsInv(nodeOf, steps);
    var s := Run(Init(nodeOf), steps).value;
    var x := s.txns[t];
    assert TxnOk(s.mem, t, x);
    h := WriteSet.LockedIsPrefix(x.writes, v, x, 0);
    forall infos: seq<WriteSet.Info>, k | WriteSet.Flagged(x.writes, v, h, infos) && 0 <= k < |v|
      ensures infos[k].locked <==> Carries(x, v[k].pos)
    {
      WriteSet.FlagsAreCarried(x.writes, v, h, infos, x, k);
    }
  }

  /** No index entry leads to a tuple that an aborted transaction inserted. */
  lemma AbortedInsertsGone(nodeOf: Key -> nat, steps: seq<Step>, t: TxnId, p: nat, k: Key)
    requires Run(Init(nodeOf), steps).Some?
    requires
      var s := Run(Init(nodeOf), steps).value;
      t in s.txns && s.txns[t].phase.Aborted? && p < |s.txns[t].writes| && s.txns[t].writes[p].insert
    ensures
      var s := Run(Init(nodeOf), steps).value;
      k in s.mem.index ==> s.mem.index[k] != s.txns[t].writes[p].tuple
  {
    RunKeepsInv(nodeOf, steps);
    FinishedHoldsNothing(nodeOf, steps, t);
    var s := Run(Init(nodeOf), steps).value;
    assert TxnOk(s.mem, t, s.txns[t]) && InsertOk(s.mem, t, s.txns[t], p);
  }

  /** The write set of every transaction is what the locking loop of commit asks for: the
      insert of a tuple comes before every other write to it. */
  lemma WriteSetReady(nodeOf: Key -> nat, steps: seq<Step>, t: TxnId)
    requires Run(Init(nodeOf), steps).Some? && t in Run(Init(nodeOf), steps).value.txns
    ensures WriteSet.InsertsFirst(Run(Init(nodeOf), steps).value.txns[t].writes)
  {
    RunKeepsInv(nodeOf, steps);
    var s := Run(Init(nodeOf), steps).value;
    assert TxnOk(s.mem, t, s.txns[t]);
  }

  lemma {:induction false} OrderGrows(nodeOf: Key -> nat, steps: seq<Step>, n: nat)
    requires n <= |steps| && Run(Init(nodeOf), steps).Some?
    ensures Run(Init(nodeOf), steps[..n]).Some?
    ensures Run(Init(nodeOf), steps[..n]).value.order <= Run(Init(nodeOf), steps).value.order
  {
    if n == |steps| {
      assert steps[..n] == steps;
    } else {
      var before := steps[..|steps| - 1];
      OrderGrows(nodeOf, before, n);
      assert before[..n] == steps[..n];
    }
  }

  /** The serial order respects real time: a transaction past its lock point comes
      before every transaction that reaches its own lock point later. */
  lemma RealTimeOrder(nodeOf: Key -> nat, steps: seq<Step>, n: nat, i: nat, j: nat)
    requires n <= |steps| && Run(Init(nodeOf), steps).Some?
    requires var s := Run(Init(nodeOf), steps).value;
             && i < |s.order| && j < |s.order|
             && Run(Init(nodeOf), steps[..n]).Some?
             && s.order[i] in Run(Init(nodeOf), steps[..n]).value.order
             && s.order[j] !in Run(Init(nodeOf), steps[..n]).value.order
    ensures i < j
  {
    RunKeepsInv(nodeOf, steps);
    OrderGrows(nodeOf, steps, n);
    var before, after := Run(Init(nodeOf), steps[..n]).value.order, Run(Init(nodeOf), steps).value.order;
    var l :| 0 <= l < |before| && before[l] == after[i];
    assert after[l] == before[l];
  }
}
