/** What every reachable state of the commit protocol satisfies, stated in three
    parts: about memory alone, about memory and one transaction, and about the order
    in which transactions pass their lock points. */
module CommitInvariant {
  import opened Common
  import opened CommitModel

  /** Write records from this position on have not been applied yet. */
  function Rest(x: Txn): nat {
    match x.phase
    case Installing(p) => p
    case Replacing(p, _) => p
    case Releasing(p, _) => p
    case Unlocking(_) => |x.writes|
    case Committed => |x.writes|
    case _ => 0
  }

  /** Past the lock point and holding every lock of the write set. */
  predicate Holding(p: Phase) { p.Validating? || p.Installing? || p.Replacing? || p.Releasing? }

  predicate BeforeLockPoint(p: Phase) { Executing(p) || p.Locking? }

  predicate Gone(p: Phase) { p.Aborting? || p.Aborted? }

  /** The transaction's write of `k` is the current content of `k`, or was once. */
  predicate Done(x: Txn, k: Key) {
    && Decided(x.phase)
    && HasWrite(x.writes, k)
    && forall p :: Rest(x) <= p < |x.writes| ==> x.writes[p].key != k
  }

  // ------------------------------------------------------------------ memory

  predicate TupleOk(x: Tuple) {
    && MIN_TID < x.version <= MAX_TID
    && (!x.born ==> x.published && (Tentative(x) || x.owner.Some?))
    && (!x.published ==> x.owner.Some?)
  }

  ghost predicate MemOk(m: Mem) {
    && (forall u :: u in m.tuples ==> TupleOk(m.tuples[u]))
    && (forall k :: k in m.index ==>
          m.index[k] in m.tuples && m.tuples[m.index[k]].key == k && m.tuples[m.index[k]].published)
    && (forall u :: u in m.tuples && m.tuples[u].latest && m.tuples[u].published ==>
          m.tuples[u].key in m.index && m.index[m.tuples[u].key] == u)
  }

  // ------------------------------------------------------------------ one transaction

  predicate WriteOk(m: Mem, w: Write) {
    w.tuple in m.tuples && m.tuples[w.tuple].key == w.key && m.tuples[w.tuple].published
  }

  ghost predicate WritesOk(m: Mem, x: Txn) {
    && (forall p :: 0 <= p < |x.writes| ==> WriteOk(m, x.writes[p]))
    && (forall p, q :: 0 <= q < p < |x.writes| && x.writes[p].insert ==> x.writes[q].tuple != x.writes[p].tuple)
  }

  predicate Indexed(m: Mem, w: Write) { w.key in m.index && m.index[w.key] == w.tuple }

  /** A tuple that a transaction inserted stays tentative, latest and locked by it until
      the record is applied, and locked until the transaction ends.  If the transaction
      aborts, the tuple leaves the index for good. */
  predicate InsertOk(m: Mem, t: TxnId, x: Txn, p: nat)
    requires p < |x.writes|
  {
    var w := x.writes[p];
    && w.tuple in m.tuples
    && var y := m.tuples[w.tuple];
    && (BeforeLockPoint(x.phase) || Holding(x.phase) ==> y.owner == Some(t) && !y.born)
    && (BeforeLockPoint(x.phase) || (Holding(x.phase) && Rest(x) <= p) ==>
          Tentative(y) && y.latest && y.value == w.value)
    && (Decided(x.phase) && p < Rest(x) ==> !Tentative(y))
    && (Gone(x.phase) ==> Tentative(y) && (y.owner == Some(t) || (y.owner == None && !y.latest)) && (!y.latest ==> !Indexed(m, w)))
    && (x.phase.Aborting? && (x.phase.pos < p || (x.phase.pos == p && !x.phase.cleaned)) ==> y.latest)
    && (x.phase.Aborting? && x.phase.pos == p && x.phase.cleaned ==> !y.latest)
  }

  ghost predicate InsertsOk(m: Mem, t: TxnId, x: Txn) {
    forall p :: 0 <= p < |x.writes| && x.writes[p].insert ==> InsertOk(m, t, x, p)
  }

  /** What the transaction may hold in each phase. */
  predicate OwnedOk(m: Mem, x: Txn, u: TupleId)
    requires u in m.tuples
  {
    && !Finished(x.phase)
    && (Executing(x.phase) ==> Tentative(m.tuples[u]))
    && (x.phase.Locking? && !Tentative(m.tuples[u]) ==>
          m.tuples[u].latest && m.tuples[u].born && (x.phase.todo != [] ==> u < x.phase.todo[0]))
    && (InWriteSet(x.writes, u) || ((x.phase.Replacing? || x.phase.Releasing?) && u == x.phase.head))
    && (!m.tuples[u].born ==> InsertedBy(x.writes, u))
    && (Tentative(m.tuples[u]) ==> InsertedBy(x.writes, u))
  }

  ghost predicate OwnsOk(m: Mem, t: TxnId, x: Txn) {
    forall u :: u in m.tuples && m.tuples[u].owner == Some(t) ==> OwnedOk(m, x, u)
  }

  ghost predicate LockOk(m: Mem, t: TxnId, x: Txn) {
    x.phase.Locking? ==>
      && (forall a, b :: 0 <= a < b < |x.phase.todo| ==> x.phase.todo[a] < x.phase.todo[b])
      && (forall u :: u in x.phase.todo ==> InWriteSet(x.writes, u) && !InsertedBy(x.writes, u))
      && (x.phase.checked && x.phase.todo != [] ==>
            x.phase.todo[0] in m.tuples && !Tentative(m.tuples[x.phase.todo[0]]))
      && (forall p :: 0 <= p < |x.writes| && x.writes[p].tuple !in x.phase.todo ==> Owns(m, t, x.writes[p].tuple))
  }

  /** A write record that still has to be applied. */
  predicate PendingOk(m: Mem, x: Txn, w: Write) {
    && w.tuple in m.tuples
    && w.key in m.index && m.index[w.key] == w.tuple
    && (m.tuples[w.tuple].born ==> m.tuples[w.tuple].version < x.tid)
    && (m.tuples[w.tuple].latest ||
        (x.phase.Replacing? && x.phase.pos < |x.writes| && w.tuple == x.writes[x.phase.pos].tuple))
  }

  ghost predicate HoldOk(m: Mem, t: TxnId, x: Txn) {
    Holding(x.phase) ==>
      && Rest(x) <= |x.writes|
      && MIN_TID < x.tid < MAX_TID
      && (forall p :: 0 <= p < |x.writes| ==> Owns(m, t, x.writes[p].tuple))
      && (forall p :: Rest(x) <= p < |x.writes| ==> PendingOk(m, x, x.writes[p]))
  }

  predicate HeadOk(m: Mem, t: TxnId, x: Txn) {
    && (x.phase.Replacing? ==>
          && x.phase.pos < |x.writes| && LastForTuple(x.writes, x.phase.pos)
          && !x.writes[x.phase.pos].insert
          && x.writes[x.phase.pos].tuple in m.tuples && !m.tuples[x.writes[x.phase.pos].tuple].latest
          && Owns(m, t, x.phase.head)
          && var h := m.tuples[x.phase.head];
             && h.key == x.writes[x.phase.pos].key && h.latest && !h.published
             && h.born && h.version == x.tid && h.value == x.writes[x.phase.pos].value)
    && (x.phase.Releasing? ==>
          Owns(m, t, x.phase.head) && m.tuples[x.phase.head].published && m.tuples[x.phase.head].born
          && !InWriteSet(x.writes, x.phase.head))
  }

  /** An installed key is in the index for good. */
  ghost predicate InstalledOk(m: Mem, x: Txn) {
    forall k :: Done(x, k) ==> k in m.index && m.index[k] in m.tuples && !Tentative(m.tuples[m.index[k]])
  }

  predicate ReadOk(m: Mem, r: Read) {
    && r.tuple in m.tuples && m.tuples[r.tuple].published
    && r.tid <= m.tuples[r.tuple].version && r.tid < MAX_TID
    && (MIN_TID < r.tid ==> m.tuples[r.tuple].born)
    && (m.tuples[r.tuple].version == r.tid ==> m.tuples[r.tuple].value == r.value)
  }

  ghost predicate ReadsOk(m: Mem, x: Txn) {
    && (forall i :: 0 <= i < |x.readSet| ==> ReadOk(m, x.readSet[i]))
    && (x.phase.Reading? ==> x.phase.tuple in m.tuples && m.tuples[x.phase.tuple].published)
  }

  ghost predicate MissOk(m: Mem, t: TxnId, x: Txn, k: Key) {
    && m.nodeOf(k) in x.absent
    && (x.absent[m.nodeOf(k)] == NodeVersion(m, m.nodeOf(k)) ==>
          k !in m.index || (Owns(m, t, m.index[k]) && Tentative(m.tuples[m.index[k]])))
  }

  /** While a recorded node version is current, every key found absent there is still
      absent, or is the transaction's own tentative insert. */
  ghost predicate AbsentOk(m: Mem, t: TxnId, x: Txn) {
    BeforeLockPoint(x.phase) || x.phase.Validating? ==>
      && (forall n :: n in x.absent ==> x.absent[n] <= NodeVersion(m, n))
      && (forall k :: k in x.misses ==> MissOk(m, t, x, k))
      && (x.phase.Validating? ==> x.phase.nodes <= x.absent.Keys && x.phase.nreads <= |x.readSet|)
  }

  predicate Walking(p: Phase) { p.Unlocking? || p.Aborting? }

  /** A record that the release loop has yet to visit carries the lock of u. */
  predicate CarriedFrom(x: Txn, pos: nat, u: TupleId) {
    exists p :: pos <= p < |x.writes| && x.writes[p].tuple == u && Carries(x, p)
  }

  predicate IsHead(p: Phase, u: TupleId) { (p.Replacing? || p.Releasing?) && u == p.head }

  predicate FlagSetOk(x: Txn) {
    && (Executing(x.phase) ==> x.locked == {})
    && (forall u :: u in x.locked ==> InWriteSet(x.writes, u) && !InsertedBy(x.writes, u))
  }

  /** Commit locks in ascending order of address, so what it has locked is what lies below
      some point. */
  ghost predicate LockedBelow(x: Txn) {
    forall u: TupleId, v: TupleId :: u in x.locked && v < u && InWriteSet(x.writes, v) && !InsertedBy(x.writes, v) ==> v in x.locked
  }

  /** The lock flags before the release loop: what is flagged is held, and what is held is
      inserted or flagged. */
  ghost predicate FlagsOk(m: Mem, t: TxnId, x: Txn) {
    && (BeforeLockPoint(x.phase) || Holding(x.phase) ==> forall u :: u in x.locked ==> Owns(m, t, u))
    && (forall u :: Owns(m, t, u) && !IsHead(x.phase, u) ==> InsertedBy(x.writes, u) || u in x.locked)
  }

  /** During the release loop: the records ahead that carry a lock are those of the tuples
      still held. */
  ghost predicate WalkOk(m: Mem, t: TxnId, x: Txn) {
    Walking(x.phase) ==>
      && (forall p :: x.phase.pos <= p < |x.writes| && Carries(x, p) ==> Owns(m, t, x.writes[p].tuple))
      && (forall u :: Owns(m, t, u) ==> CarriedFrom(x, x.phase.pos, u))
  }

  /** The part of the transaction's invariant that is about the flags of its locks. */
  ghost predicate ReleaseOk(m: Mem, t: TxnId, x: Txn) {
    FlagSetOk(x) && LockedBelow(x) && FlagsOk(m, t, x) && WalkOk(m, t, x)
  }

  /** The part of the transaction's invariant that is about locks. */
  ghost predicate LocksOk(m: Mem, t: TxnId, x: Txn) {
    InsertsOk(m, t, x) && OwnsOk(m, t, x) && LockOk(m, t, x) && HoldOk(m, t, x) && HeadOk(m, t, x)
  }

  ghost predicate TxnOk(m: Mem, t: TxnId, x: Txn) {
    WritesOk(m, x) && LocksOk(m, t, x) && ReleaseOk(m, t, x) && InstalledOk(m, x) && ReadsOk(m, x) && AbsentOk(m, t, x)
  }

  ghost predicate LocalOk(s: State) {
    && MemOk(s.mem)
    && (forall t :: t in s.txns ==> TxnOk(s.mem, t, s.txns[t]))
    && (forall u :: u in s.mem.tuples && s.mem.tuples[u].owner.Some? ==> s.mem.tuples[u].owner.value in s.txns)
  }

  // ------------------------------------------------------------------ what a transaction
  // may do to memory while others run

  predicate TupleStep(a: Tuple, b: Tuple, t: TxnId) {
    && b.key == a.key
    && (a.published ==> b.published) && (a.born ==> b.born) && (b.latest ==> a.latest)
    && (!Tentative(a) ==> !Tentative(b))
    && MIN_TID < b.version
    && (a.owner == None ==> b == a || (b == a.(owner := Some(t)) && !Tentative(a)))
    && (a.owner.Some? && a.owner.value != t ==> b == a)
    && (a.owner == Some(t) ==>
          && (b.owner == Some(t) || b.owner == None)
          && (a.born ==> a.version <= b.version && (b.version == a.version ==> b.value == a.value)))
  }

  ghost predicate KeyStep(m: Mem, m': Mem, t: TxnId, k: Key) {
    && (k in m.index && m.index[k] in m.tuples && m.tuples[m.index[k]].owner != Some(t) ==>
          k in m'.index && m'.index[k] == m.index[k])
    && (k in m.index && m.index[k] in m.tuples && !Tentative(m.tuples[m.index[k]]) ==>
          k in m'.index && m'.index[k] in m'.tuples && !Tentative(m'.tuples[m'.index[k]]))
    && (k in m'.index && !(k in m.index && m.index[k] == m'.index[k]) ==> Owns(m', t, m'.index[k]))
    && (k !in m.index && k in m'.index ==> NodeVersion(m, m.nodeOf(k)) < NodeVersion(m', m.nodeOf(k)))
  }

  ghost predicate TuplesStep(m: Mem, m': Mem, t: TxnId) {
    && (forall u :: u in m.tuples ==> u in m'.tuples && TupleStep(m.tuples[u], m'.tuples[u], t))
    && (forall u :: u in m'.tuples && u !in m.tuples ==> m'.tuples[u].owner == Some(t))
  }

  ghost predicate KeysStep(m: Mem, m': Mem, t: TxnId) {
    && m'.nodeOf == m.nodeOf
    && (forall k :: KeyStep(m, m', t, k))
    && (forall n :: NodeVersion(m, n) <= NodeVersion(m', n))
  }

  ghost predicate MemStep(m: Mem, m': Mem, t: TxnId) { TuplesStep(m, m', t) && KeysStep(m, m', t) }
}
