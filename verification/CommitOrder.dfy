/** The order in which transactions pass their lock points, and the serial database
    that this order defines. */
module CommitOrder {
  import opened Common
  import opened CommitModel
  import opened CommitInvariant

  type Txns = map<TxnId, Txn>

  ghost predicate Known(txns: Txns, order: seq<TxnId>) {
    forall i :: 0 <= i < |order| ==> order[i] in txns
  }

  /** What the transactions decided to commit among the first `j` of the order leave
      under `k`. */
  ghost function Serial(txns: Txns, order: seq<TxnId>, j: nat, k: Key): Option<Value>
    requires j <= |order| && Known(txns, order)
  {
    if j == 0 then None
    else
      var x := txns[order[j - 1]];
      if Decided(x.phase) && HasWrite(x.writes, k) then FinalValue(x.writes, k) else Serial(txns, order, j - 1, k)
  }

  /** What a reader that finds no lock would see under `k`. */
  function Content(m: Mem, k: Key): Option<Value> {
    if k in m.index && m.index[k] in m.tuples && !Tentative(m.tuples[m.index[k]])
    then m.tuples[m.index[k]].value else None
  }

  ghost predicate OrderOk(s: State) {
    && Known(s.txns, s.order)
    && (forall i :: 0 <= i < |s.order| ==> !BeforeLockPoint(s.txns[s.order[i]].phase))
    && (forall i, j :: 0 <= i < j < |s.order| ==> s.order[i] != s.order[j])
    && (forall t :: t in s.txns && (Holding(s.txns[t].phase) || Decided(s.txns[t].phase)) ==> t in s.order)
  }

  ghost predicate Over(x: Txn, k: Key) { Done(x, k) || Gone(x.phase) }

  /** A later writer of a key passes its lock point only after the earlier one is done
      with the key. */
  ghost predicate WritersOk(s: State)
    requires Known(s.txns, s.order)
  {
    forall i, j, k | 0 <= i < j < |s.order| ::
      HasWrite(s.txns[s.order[i]].writes, k) && HasWrite(s.txns[s.order[j]].writes, k) ==>
        Over(s.txns[s.order[i]], k)
  }

  /** No decided transaction still has a write of `k` to apply. */
  ghost predicate Quiet(txns: Txns, k: Key) {
    forall t :: t in txns && Decided(txns[t].phase) && HasWrite(txns[t].writes, k) ==> Done(txns[t], k)
  }

  ghost predicate ContentOk(s: State)
    requires Known(s.txns, s.order)
  {
    forall k :: Quiet(s.txns, k) ==> Content(s.mem, k) == Serial(s.txns, s.order, |s.order|, k)
  }

  /** Every transaction before position `j` that writes `k` has been decided or has
      given up, so the serial value of `k` at `j` is final. */
  ghost predicate Settled(txns: Txns, order: seq<TxnId>, j: nat, k: Key)
    requires j <= |order| && Known(txns, order)
  {
    forall i :: 0 <= i < j && HasWrite(txns[order[i]].writes, k) ==> !txns[order[i]].phase.Validating?
  }

  ghost predicate SawSerial(txns: Txns, order: seq<TxnId>, j: nat, k: Key, v: Option<Value>)
    requires j <= |order| && Known(txns, order)
  {
    Settled(txns, order, j, k) && Serial(txns, order, j, k) == v
  }

  function Validated(x: Txn): nat {
    if Decided(x.phase) then |x.readSet|
    else if x.phase.Validating? && x.phase.nreads <= |x.readSet| then x.phase.nreads else 0
  }

  predicate NodeValidated(x: Txn, n: nat) {
    Decided(x.phase) || (x.phase.Validating? && n !in x.phase.nodes)
  }

  /** What a validated read saw, and what a validated miss implies, is the serial value
      at the transaction's place in the order. */
  ghost predicate ValidOk(s: State, j: nat, x: Txn)
    requires Known(s.txns, s.order) && j <= |s.order|
  {
    && (forall i :: 0 <= i < Validated(x) ==>
          && x.readSet[i].tuple in s.mem.tuples
          && SawSerial(s.txns, s.order, j, s.mem.tuples[x.readSet[i].tuple].key, x.readSet[i].value))
    && (forall k :: k in x.misses && NodeValidated(x, s.mem.nodeOf(k)) ==> SawSerial(s.txns, s.order, j, k, None))
  }

  ghost predicate ValidatedOk(s: State)
    requires Known(s.txns, s.order)
  {
    forall j :: 0 <= j < |s.order| ==> ValidOk(s, j, s.txns[s.order[j]])
  }

  predicate Overwritten(m: Mem, r: Read) {
    r.tuple in m.tuples ==> !m.tuples[r.tuple].latest || r.tid < m.tuples[r.tuple].version
  }

  /** A write of the key applied by `y` makes every such read fail validation. */
  ghost predicate Overwrites(m: Mem, x: Txn, y: Txn) {
    forall i :: 0 <= i < |x.readSet| && x.readSet[i].tuple in m.tuples && Done(y, m.tuples[x.readSet[i].tuple].key)
      ==> Overwritten(m, x.readSet[i])
  }

  ghost predicate OverwritesOk(s: State)
    requires Known(s.txns, s.order)
  {
    forall j, l | 0 <= j < l < |s.order| :: s.txns[s.order[j]].phase.Validating? ==>
      Overwrites(s.mem, s.txns[s.order[j]], s.txns[s.order[l]])
  }

  ghost predicate Inv(s: State) {
    LocalOk(s) && OrderOk(s) && WritersOk(s) && ContentOk(s) && ValidatedOk(s) && OverwritesOk(s)
  }

  // ------------------------------------------------------------------ facts about Serial

  lemma {:induction false} SerialSame(txns: Txns, txns': Txns, order: seq<TxnId>, order': seq<TxnId>, j: nat, k: Key)
    requires j <= |order| && j <= |order'| && Known(txns, order) && Known(txns', order')
    requires forall i :: 0 <= i < j ==> order'[i] == order[i] && txns'[order[i]].writes == txns[order[i]].writes
    requires forall i :: 0 <= i < j && HasWrite(txns[order[i]].writes, k) ==>
                           (Decided(txns'[order[i]].phase) <==> Decided(txns[order[i]].phase))
    ensures Serial(txns', order', j, k) == Serial(txns, order, j, k)
  {
    if j > 0 { SerialSame(txns, txns', order, order', j - 1, k); }
  }

  /** Positions from `i` on that hold no decided writer of `k` do not change its value. */
  lemma {:induction false} SerialSkip(txns: Txns, order: seq<TxnId>, i: nat, j: nat, k: Key)
    requires i <= j <= |order| && Known(txns, order)
    requires forall l :: i <= l < j && HasWrite(txns[order[l]].writes, k) ==> !Decided(txns[order[l]].phase)
    ensures Serial(txns, order, j, k) == Serial(txns, order, i, k)
  {
    if i < j { SerialSkip(txns, order, i, j - 1, k); }
  }

  lemma {:induction false} FinalValueAt(ws: seq<Write>, p: nat, k: Key)
    requires p < |ws| && ws[p].key == k && forall q :: p < q < |ws| ==> ws[q].key != k
    ensures HasWrite(ws, k) && FinalValue(ws, k) == ws[p].value
  {
    if p < |ws| - 1 {
      FinalValueAt(ws[..|ws| - 1], p, k);
    }
  }

  // ------------------------------------------------------------------ how an action moves
  // a transaction that has passed its lock point

  ghost predicate Advances(x: Txn, x': Txn) {
    && x'.writes == x.writes && x'.readSet == x.readSet && x'.misses == x.misses
    && !BeforeLockPoint(x'.phase)
    && (Decided(x.phase) ==> Decided(x'.phase))
    && (Gone(x.phase) ==> Gone(x'.phase))
    && (x'.phase.Validating? ==> x.phase.Validating?)
    && (Decided(x'.phase) ==> Decided(x.phase) || x.phase.Validating?)
    && (Holding(x'.phase) ==> Holding(x.phase))
    && (forall k :: Done(x, k) ==> Done(x', k))
  }

  lemma ActionAdvances(m: Mem, t: TxnId, x: Txn, a: Action)
    requires Guard(m, t, x, a) && !BeforeLockPoint(x.phase)
    ensures Advances(x, TxnAfter(m, t, x, a)) && !a.AllLocked?
  {}

  /** What a step of `t` does to the transactions and to the order. */
  ghost predicate Moves(s: State, s': State, t: TxnId) {
    && t in s.txns && t in s'.txns && s'.txns == s.txns[t := s'.txns[t]]
    && Turn(s.order, s'.order, t, s.txns[t], s'.txns[t])
  }

  /** A transaction enters the order at its lock point, and only advances after it. */
  ghost predicate Turn(order: seq<TxnId>, order': seq<TxnId>, t: TxnId, x: Txn, x': Txn) {
    if !BeforeLockPoint(x.phase) then order' == order && Advances(x, x')
    else if x'.phase.Validating? then
      order' == order + [t] && x.phase.Locking? && x.phase.todo == [] && x'.writes == x.writes
    else order' == order && (BeforeLockPoint(x'.phase) || Gone(x'.phase))
  }

  lemma ActionMoves(s: State, t: TxnId, a: Action)
    requires Enabled(s, Act(t, a))
    ensures Moves(s, Apply(s, Act(t, a)), t)
  {
    if !BeforeLockPoint(s.txns[t].phase) {
      ActionAdvances(s.mem, t, s.txns[t], a);
    }
  }

  /** The actions that apply the record under the cursor. */
  predicate Applying(a: Action) { a.SkipWrite? || a.InstallInsert? || a.InstallInPlace? || a.Publish? }

  /** The action leaves what the transaction has done, and will do, to `k` as it was. */
  ghost predicate KeepsDone(x: Txn, x': Txn, k: Key) {
    && (Done(x', k) <==> Done(x, k))
    && (Decided(x'.phase) && HasWrite(x'.writes, k) <==> Decided(x.phase) && HasWrite(x.writes, k))
  }

  lemma ActionKeepsDone(m: Mem, t: TxnId, x: Txn, a: Action, k: Key)
    requires Guard(m, t, x, a)
    requires Applying(a) ==> k != x.writes[x.phase.pos].key
    requires a.Decide? ==> !HasWrite(x.writes, k)
    ensures KeepsDone(x, TxnAfter(m, t, x, a), k)
  {}

  lemma ValidatedGrows(m: Mem, t: TxnId, x: Txn, a: Action, i: nat)
    requires Guard(m, t, x, a) && !BeforeLockPoint(x.phase)
    requires Validated(x) <= i < Validated(TxnAfter(m, t, x, a))
    requires x.phase.Validating? ==> x.phase.nreads <= |x.readSet|
    ensures x.phase.Validating? && i < |x.readSet| && ReadStillValid(m, x, x.readSet[i])
  {}

  lemma NodesGrow(m: Mem, t: TxnId, x: Txn, a: Action, n: nat)
    requires Guard(m, t, x, a) && !BeforeLockPoint(x.phase)
    requires !NodeValidated(x, n) && NodeValidated(TxnAfter(m, t, x, a), n)
    ensures x.phase.Validating? && n in x.absent && NodeVersion(m, n) == x.absent[n]
  {}
}
