/** The optimistic commit protocol of silo/txn_impl.h as a state machine.

    Any number of transactions take interleaved actions over shared tuples and a
    shared index.  An action is one access to shared memory, or a group of accesses
    that the holder of a tuple lock makes to a tuple nobody else can read.  That a
    tuple is read in one action is justified by module Seqlock.

    Every lock the protocol takes is taken with write intent, so "locked" and
    "write intent" are one field here: `owner`. */
module CommitModel {
  import opened Common

  type Key = string
  type Value = string
  type TupleId = nat     // the address of a dbtuple
  type TxnId = nat


  /** A dbtuple.  `value` is None when the deleting bit is set.  A tentative insert
      carries version MAX_TID.  Two bits exist only to state properties: `published`
      (some index entry has pointed here) and `born` (not an insert that is still
      locked by its inserter). */
  datatype Tuple = Tuple(key: Key, owner: Option<TxnId>, latest: bool, version: nat,
                         value: Option<Value>, published: bool, born: bool)

  /** `nodeOf` is the fixed partition of keys into index nodes. */
  datatype Mem = Mem(nodeOf: Key -> nat, tuples: map<TupleId, Tuple>, index: map<Key, TupleId>,
                     nodeVer: map<nat, nat>)

  datatype Read = Read(tuple: TupleId, tid: nat, value: Option<Value>)
  datatype Write = Write(tuple: TupleId, key: Key, value: Option<Value>, insert: bool)

  datatype Phase =
    | Running
    | Reading(tuple: TupleId)                    // found in the index, value not read yet
    | Locking(todo: seq<TupleId>, checked: bool) // addresses still to lock, in order
    | Validating(nreads: nat, nodes: set<nat>)   // reads validated, nodes still to validate
    | Installing(pos: nat)                       // write records before pos are in place
    | Replacing(pos: nat, head: TupleId)         // a new head exists, the index lags behind
    | Releasing(pos: nat, head: TupleId)         // the index has the new head, still locked
    | Unlocking(pos: nat)                        // locks of the records before pos released
    | Committed
    | Aborting(pos: nat, cleaned: bool)          // likewise; cleaned: the insert at pos is unlinked
    | Aborted

  /** `locked` are the tuples that commit has locked, the flags of its write infos besides
      those of inserts.  `misses` lists the keys the transaction found absent; it only serves
      to state what the absent set protects. */
  datatype Txn = Txn(phase: Phase, readSet: seq<Read>, writes: seq<Write>,
                     absent: map<nat, nat>, misses: set<Key>, tid: nat, locked: set<TupleId>)

  /** `order` lists transactions by the moment each held all its write locks. */
  datatype State = State(mem: Mem, txns: map<TxnId, Txn>, order: seq<TxnId>)

  datatype Action =
    | Search(k: Key)                                // do_search, key found
    | ReadTuple                                     // do_tuple_read
    | Observe(n: nat, ks: set<Key>)                 // do_node_read of a node lacking ks
    | Insert(k: Key, v: Option<Value>, u: TupleId)  // try_insert_new_tuple
    | Put(k: Key, v: Option<Value>)                 // do_tree_put, key found
    | GiveUp                                        // abort_impl
    | StartCommit(todo: seq<TupleId>)
    | CheckTentative                                // handle_last_tuple_in_group: version test
    | Lock(readable: bool)                          //   then lock, latest and can_read_tid
    | AllLocked(tid: nat)                           // gen_commit_tid: the lock point
    | ValidateRead(patient: bool)
    | ValidateNode(n: nat)
    | Decide
    | SkipWrite                                     // a record without do_write
    | InstallInsert
    | InstallInPlace                                // write_record_at kept the tuple
    | InstallReplace(u: TupleId)                    // write_record_at returned a new head
    | Publish
    | ReleaseHead
    | InstallDone
    | Unlock                                        // the release loop, one record
    | FinishCommit
    | Cleanup                                       // cleanup_inserted_tuple_marker
    | AbortUnlock                                   // the release loop of an abort, one record
    | FinishAbort

  function NodeVersion(m: Mem, n: nat): nat {
    if n in m.nodeVer then m.nodeVer[n] else 0
  }

  predicate HasWrite(ws: seq<Write>, k: Key) {
    exists p :: 0 <= p < |ws| && ws[p].key == k
  }

  predicate InWriteSet(ws: seq<Write>, u: TupleId) {
    exists p :: 0 <= p < |ws| && ws[p].tuple == u
  }

  predicate InsertedBy(ws: seq<Write>, u: TupleId) {
    exists p :: 0 <= p < |ws| && ws[p].tuple == u && ws[p].insert
  }

  /** The value the transaction leaves under `k`: that of its last write of `k`. */
  function FinalValue(ws: seq<Write>, k: Key): Option<Value>
    requires HasWrite(ws, k)
  {
    if ws[|ws| - 1].key == k then ws[|ws| - 1].value else FinalValue(ws[..|ws| - 1], k)
  }

  /** Commit locks each tuple of the write set once, in address order, except the ones
      the transaction inserted, which it already holds.  Module WriteSet proves that the
      sorting and grouping loops of `commit` produce exactly such a list. */
  ghost predicate LockOrder(ws: seq<Write>, todo: seq<TupleId>) {
    && (forall a, b :: 0 <= a < b < |todo| ==> todo[a] < todo[b])
    && (forall u :: u in todo <==> InWriteSet(ws, u) && !InsertedBy(ws, u))
  }

  /** The record at `p` is applied only if it is the insert itself or the last record
      for its tuple. */
  predicate LastForTuple(ws: seq<Write>, p: nat)
    requires p < |ws|
  {
    forall q :: p < q < |ws| ==> ws[q].tuple != ws[p].tuple
  }

  predicate Executing(p: Phase) { p.Running? || p.Reading? }

  predicate Finished(p: Phase) { p.Committed? || p.Aborted? }

  /** The transaction has passed validation: it will commit. */
  predicate Decided(p: Phase) {
    p.Installing? || p.Replacing? || p.Releasing? || p.Unlocking? || p.Committed?
  }

  predicate Tentative(x: Tuple) { x.version == MAX_TID }

  predicate Owns(m: Mem, t: TxnId, u: TupleId) {
    u in m.tuples && m.tuples[u].owner == Some(t)
  }

  predicate OwnsNothing(m: Mem, t: TxnId) {
    forall u :: u in m.tuples ==> m.tuples[u].owner != Some(t)
  }

  /** `is_latest_version` for a tuple of the write set, `stable_is_latest_version`
      otherwise; the latter gives up on a tuple that stays locked. */
  predicate ReadStillValid(m: Mem, x: Txn, r: Read) {
    && r.tuple in m.tuples
    && m.tuples[r.tuple].latest
    && m.tuples[r.tuple].version <= r.tid
    && (InWriteSet(x.writes, r.tuple) || m.tuples[r.tuple].owner == None)
  }

  /** gen_commit_tid promises a tid above the version of every existing tuple the
      transaction locked, strictly between MIN_TID and MAX_TID. */
  predicate GoodTid(m: Mem, ws: seq<Write>, tid: nat) {
    && MIN_TID < tid < MAX_TID
    && forall p :: 0 <= p < |ws| && ws[p].tuple in m.tuples && !Tentative(m.tuples[ws[p].tuple]) ==>
                     m.tuples[ws[p].tuple].version < tid
  }

  predicate AtRecord(m: Mem, x: Txn) {
    x.phase.Installing? && x.phase.pos < |x.writes| && x.writes[x.phase.pos].tuple in m.tuples
  }

  /** The record under the cursor is a plain write that must be applied. */
  predicate AtLastWrite(m: Mem, x: Txn) {
    AtRecord(m, x) && !x.writes[x.phase.pos].insert && LastForTuple(x.writes, x.phase.pos)
  }

  /** The record at `p` carries the lock of its tuple: it is the insert, or the last record
      of a tuple that commit has locked.  The flags of the sorted write infos mark these
      records (module WriteSet). */
  predicate Carries(x: Txn, p: nat)
    requires p < |x.writes|
  {
    x.writes[p].insert || (LastForTuple(x.writes, p) && x.writes[p].tuple in x.locked)
  }

  /** The release loop is at a record. */
  predicate AtRelease(m: Mem, x: Txn)
    requires x.phase.Unlocking? || x.phase.Aborting?
  {
    x.phase.pos < |x.writes| && x.writes[x.phase.pos].tuple in m.tuples
  }

  ghost predicate Guard(m: Mem, t: TxnId, x: Txn, a: Action) {
    match a
    case Search(k) => x.phase.Running? && k in m.index
    case ReadTuple =>
      && x.phase.Reading? && x.phase.tuple in m.tuples
      && (Tentative(m.tuples[x.phase.tuple]) || m.tuples[x.phase.tuple].owner == None)
    case Observe(n, ks) => x.phase.Running? && forall k :: k in ks ==> m.nodeOf(k) == n && k !in m.index
    case Insert(k, v, u) => x.phase.Running? && k !in m.index && u !in m.tuples
    case Put(k, v) => x.phase.Running? && k in m.index
    case GiveUp => x.phase.Running?
    case StartCommit(todo) => x.phase.Running? && LockOrder(x.writes, todo)
    case CheckTentative =>
      x.phase.Locking? && x.phase.todo != [] && !x.phase.checked && x.phase.todo[0] in m.tuples
    case Lock(readable) =>
      && x.phase.Locking? && x.phase.todo != [] && x.phase.checked
      && x.phase.todo[0] in m.tuples && m.tuples[x.phase.todo[0]].owner == None
    case AllLocked(tid) => x.phase.Locking? && x.phase.todo == [] && GoodTid(m, x.writes, tid)
    case ValidateRead(patient) => x.phase.Validating? && x.phase.nreads < |x.readSet|
    case ValidateNode(n) =>
      && x.phase.Validating? && x.phase.nreads == |x.readSet|
      && n in x.phase.nodes && n in x.absent
    case Decide => x.phase.Validating? && x.phase.nreads == |x.readSet| && x.phase.nodes == {}
    case SkipWrite =>
      AtRecord(m, x) && !x.writes[x.phase.pos].insert && !LastForTuple(x.writes, x.phase.pos)
    case InstallInsert => AtRecord(m, x) && x.writes[x.phase.pos].insert
    case InstallInPlace => AtLastWrite(m, x)
    case InstallReplace(u) => AtLastWrite(m, x) && u !in m.tuples
    case Publish => x.phase.Replacing? && x.phase.pos < |x.writes| && x.phase.head in m.tuples
    case ReleaseHead => x.phase.Releasing? && x.phase.head in m.tuples
    case InstallDone => x.phase.Installing? && x.phase.pos == |x.writes|
    case Unlock => x.phase.Unlocking? && AtRelease(m, x)
    case FinishCommit => x.phase.Unlocking? && x.phase.pos == |x.writes|
    case Cleanup => x.phase.Aborting? && AtRelease(m, x) && x.writes[x.phase.pos].insert && !x.phase.cleaned
    case AbortUnlock => x.phase.Aborting? && AtRelease(m, x) && (x.writes[x.phase.pos].insert ==> x.phase.cleaned)
    case FinishAbort => x.phase.Aborting? && x.phase.pos == |x.writes|
  }

  function SetOwner(m: Mem, u: TupleId, o: Option<TxnId>): Mem
    requires u in m.tuples
  {
    m.(tuples := m.tuples[u := m.tuples[u].(owner := o)])
  }

  function InsertMem(m: Mem, t: TxnId, k: Key, v: Option<Value>, u: TupleId): Mem {
    var n := m.nodeOf(k);
    m.(tuples := m.tuples[u := Tuple(k, Some(t), true, MAX_TID, v, true, false)],
       index := m.index[k := u],
       nodeVer := m.nodeVer[n := NodeVersion(m, n) + 1])
  }

  function CleanupMem(m: Mem, u: TupleId): Mem
    requires u in m.tuples
  {
    var n := m.nodeOf(m.tuples[u].key);
    m.(tuples := m.tuples[u := m.tuples[u].(latest := false)],
       index := m.index - {m.tuples[u].key},
       nodeVer := m.nodeVer[n := NodeVersion(m, n) + 1])
  }

  function InstallInsertMem(m: Mem, u: TupleId, tid: nat): Mem
    requires u in m.tuples
  {
    m.(tuples := m.tuples[u := m.tuples[u].(version := tid)])
  }

  function InstallInPlaceMem(m: Mem, w: Write, tid: nat): Mem
    requires w.tuple in m.tuples
  {
    m.(tuples := m.tuples[w.tuple := m.tuples[w.tuple].(version := tid, value := w.value)])
  }

  /** The new head is locked before anyone can reach it. */
  function InstallReplaceMem(m: Mem, t: TxnId, w: Write, tid: nat, u: TupleId): Mem
    requires w.tuple in m.tuples
  {
    m.(tuples := m.tuples[w.tuple := m.tuples[w.tuple].(latest := false)]
                         [u := Tuple(w.key, Some(t), true, tid, w.value, false, true)])
  }

  function PublishMem(m: Mem, k: Key, u: TupleId): Mem
    requires u in m.tuples
  {
    m.(tuples := m.tuples[u := m.tuples[u].(published := true)], index := m.index[k := u])
  }

  function UnlockMem(m: Mem, u: TupleId): Mem
    requires u in m.tuples
  {
    m.(tuples := m.tuples[u := m.tuples[u].(owner := None, born := true)])
  }

  /** What an action does to memory. */
  ghost function MemAfter(m: Mem, t: TxnId, x: Txn, a: Action): Mem
    requires Guard(m, t, x, a)
  {
    match a
    case Insert(k, v, u) => InsertMem(m, t, k, v, u)
    case Lock(readable) => SetOwner(m, x.phase.todo[0], Some(t))
    case InstallInsert => InstallInsertMem(m, x.writes[x.phase.pos].tuple, x.tid)
    case InstallInPlace => InstallInPlaceMem(m, x.writes[x.phase.pos], x.tid)
    case InstallReplace(u) => InstallReplaceMem(m, t, x.writes[x.phase.pos], x.tid, u)
    case Publish => PublishMem(m, x.writes[x.phase.pos].key, x.phase.head)
    case ReleaseHead => SetOwner(m, x.phase.head, None)
    case Unlock => if Carries(x, x.phase.pos) then UnlockMem(m, x.writes[x.phase.pos].tuple) else m
    case Cleanup => CleanupMem(m, x.writes[x.phase.pos].tuple)
    case AbortUnlock => if Carries(x, x.phase.pos) then SetOwner(m, x.writes[x.phase.pos].tuple, None) else m
    case _ => m
  }

  /** do_node_read */
  function RecordNode(x: Txn, n: nat, ver: nat, ks: set<Key>): Txn {
    if n !in x.absent then x.(absent := x.absent[n := ver], misses := x.misses + ks)
    else if x.absent[n] != ver then x.(phase := Aborting(0, false))
    else x.(misses := x.misses + ks)
  }

  /** The part of try_insert_new_tuple that keeps the absent set aware of the
      transaction's own insert. */
  function BumpNode(x: Txn, n: nat, oldVersion: nat): Txn {
    if n !in x.absent then x
    else if x.absent[n] != oldVersion then x.(phase := Aborting(0, false))
    else x.(absent := x.absent[n := oldVersion + 1])
  }

  function TupleRead(m: Mem, u: TupleId): Read
    requires u in m.tuples
  {
    if Tentative(m.tuples[u]) then Read(u, MIN_TID, None) else Read(u, m.tuples[u].version, m.tuples[u].value)
  }

  /** What an action does to the transaction that takes it. */
  ghost function TxnAfter(m: Mem, t: TxnId, x: Txn, a: Action): Txn
    requires Guard(m, t, x, a)
  {
    match a
    case Search(k) => x.(phase := Reading(m.index[k]))
    case ReadTuple => x.(phase := Running, readSet := x.readSet + [TupleRead(m, x.phase.tuple)])
    case Observe(n, ks) => RecordNode(x, n, NodeVersion(m, n), ks)
    case Insert(k, v, u) =>
      BumpNode(x.(writes := x.writes + [Write(u, k, v, true)]), m.nodeOf(k), NodeVersion(m, m.nodeOf(k)))
    case Put(k, v) => x.(writes := x.writes + [Write(m.index[k], k, v, false)])
    case GiveUp => x.(phase := Aborting(0, false))
    case StartCommit(todo) => x.(phase := Locking(todo, false))
    case CheckTentative =>
      x.(phase := if Tentative(m.tuples[x.phase.todo[0]]) then Aborting(0, false) else Locking(x.phase.todo, true))
    case Lock(readable) =>
      x.(phase := if m.tuples[x.phase.todo[0]].latest && readable then Locking(x.phase.todo[1..], false)
                  else Aborting(0, false),
         locked := x.locked + {x.phase.todo[0]})
    case AllLocked(tid) => x.(phase := Validating(0, x.absent.Keys), tid := tid)
    case ValidateRead(patient) =>
      x.(phase := if ReadStillValid(m, x, x.readSet[x.phase.nreads]) && patient
                  then Validating(x.phase.nreads + 1, x.phase.nodes) else Aborting(0, false))
    case ValidateNode(n) =>
      x.(phase := if NodeVersion(m, n) == x.absent[n]
                  then Validating(x.phase.nreads, x.phase.nodes - {n}) else Aborting(0, false))
    case Decide => x.(phase := Installing(0))
    case SkipWrite => x.(phase := Installing(x.phase.pos + 1))
    case InstallInsert => x.(phase := Installing(x.phase.pos + 1))
    case InstallInPlace => x.(phase := Installing(x.phase.pos + 1))
    case InstallReplace(u) => x.(phase := Replacing(x.phase.pos, u))
    case Publish => x.(phase := Releasing(x.phase.pos + 1, x.phase.head))
    case ReleaseHead => x.(phase := Installing(x.phase.pos))
    case InstallDone => x.(phase := Unlocking(0))
    case Unlock => x.(phase := Unlocking(x.phase.pos + 1))
    case FinishCommit => x.(phase := Committed)
    case Cleanup => x.(phase := Aborting(x.phase.pos, true))
    case AbortUnlock => x.(phase := Aborting(x.phase.pos + 1, false))
    case FinishAbort => x.(phase := Aborted)
  }

  /** A step starts a transaction or lets one take an action. */
  datatype Step = Begin(t: TxnId) | Act(t: TxnId, a: Action)

  ghost predicate Enabled(s: State, step: Step) {
    match step
    case Begin(t) => t !in s.txns
    case Act(t, a) => t in s.txns && Guard(s.mem, t, s.txns[t], a)
  }

  ghost function Apply(s: State, step: Step): State
    requires Enabled(s, step)
  {
    match step
    case Begin(t) => s.(txns := s.txns[t := Txn(Running, [], [], map[], {}, 0, {})])
    case Act(t, a) =>
      State(MemAfter(s.mem, t, s.txns[t], a),
            s.txns[t := TxnAfter(s.mem, t, s.txns[t], a)],
            if a.AllLocked? then s.order + [t] else s.order)
  }

  function Init(nodeOf: Key -> nat): State {
    State(Mem(nodeOf, map[], map[], map[]), map[], [])
  }

  /** The state after a run, or None if some step was not possible when it was taken. */
  ghost function Run(s: State, steps: seq<Step>): Option<State> {
    if steps == [] then Some(s)
    else
      var r := Run(s, steps[..|steps| - 1]);
      if r.Some? && Enabled(r.value, steps[|steps| - 1]) then Some(Apply(r.value, steps[|steps| - 1])) else None
  }
}
