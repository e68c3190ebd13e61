/** Transactions never wait for each other in a cycle. */
module Deadlock {
  import opened Common
  import opened CommitModel
  import opened CommitInvariant
  import opened CommitOrder
  import opened CommitKeeps

  /** `t` spins until `t'` releases a tuple: at commit, on the next tuple in address
      order once it has been seen not to be a tentative insert; while executing, on the
      write intent of a tuple that is not a tentative insert. */
  predicate WaitsFor(s: State, t: TxnId, t': TxnId) {
    && t in s.txns
    && var x := s.txns[t];
       || (x.phase.Locking? && x.phase.todo != [] && x.phase.checked && Owns(s.mem, t', x.phase.todo[0]))
       || (x.phase.Reading? && Owns(s.mem, t', x.phase.tuple) && !Tentative(s.mem.tuples[x.phase.tuple]))
  }

  /** Executing transactions rank below committing ones, which rank by the address they
      wait for. */
  function Rank(s: State, t: TxnId): nat {
    if t in s.txns && s.txns[t].phase.Locking? && s.txns[t].phase.todo != [] then 1 + s.txns[t].phase.todo[0] else 0
  }

  lemma WaitingClimbs(s: State, t: TxnId, t': TxnId, t'': TxnId)
    requires Inv(s) && WaitsFor(s, t, t') && WaitsFor(s, t', t'')
    ensures Rank(s, t) < Rank(s, t')
  {
    var x, y := s.txns[t], s.txns[t'];
    assert TxnOk(s.mem, t, x) && TxnOk(s.mem, t', y);
    var u := if x.phase.Locking? then x.phase.todo[0] else x.phase.tuple;
    assert OwnedOk(s.mem, y, u);
  }

  ghost predicate Climbing(s: State) {
    forall t, t', t'' :: WaitsFor(s, t, t') && WaitsFor(s, t', t'') ==> Rank(s, t) < Rank(s, t')
  }

  /** Each transaction of the list waits for the next one. */
  ghost predicate WaitChain(s: State, c: seq<TxnId>) {
    |c| >= 2 ==> WaitsFor(s, c[|c| - 2], c[|c| - 1]) && WaitChain(s, c[..|c| - 1])
  }

  lemma {:induction false} ChainClimbs(s: State, c: seq<TxnId>, t: TxnId)
    requires Climbing(s) && |c| >= 2 && WaitChain(s, c) && WaitsFor(s, c[|c| - 1], t)
    ensures Rank(s, c[0]) < Rank(s, c[|c| - 1])
  {
    if |c| > 2 { ChainClimbs(s, c[..|c| - 1], c[|c| - 1]); }
  }

  lemma {:induction false} FirstWaits(s: State, c: seq<TxnId>)
    requires |c| >= 2 && WaitChain(s, c)
    ensures WaitsFor(s, c[0], c[1])
  {
    if |c| > 2 { FirstWaits(s, c[..|c| - 1]); }
  }

  /** Deadlock freedom: in no reachable state does a chain of waiting transactions come
      back to where it started. */
  lemma NoWaitCycle(nodeOf: Key -> nat, steps: seq<Step>, c: seq<TxnId>)
    requires Run(Init(nodeOf), steps).Some?
    requires |c| >= 2 && WaitChain(Run(Init(nodeOf), steps).value, c)
    ensures c[0] != c[|c| - 1]
  {
    RunKeepsInv(nodeOf, steps);
    var s := Run(Init(nodeOf), steps).value;
    forall t, t', t'' | WaitsFor(s, t, t') && WaitsFor(s, t', t'')
      ensures Rank(s, t) < Rank(s, t')
    {
      WaitingClimbs(s, t, t', t'');
    }
    if c[0] == c[|c| - 1] {
      FirstWaits(s, c);
      ChainClimbs(s, c, c[1]);
    }
  }

  lemma {:induction false} TopOfSet(s: State, ts: set<TxnId>) returns (t: TxnId)
    requires ts != {}
    ensures t in ts && forall t' :: t' in ts ==> Rank(s, t') <= Rank(s, t)
  {
    var a :| a in ts;
    if ts == {a} {
      t := a;
    } else {
      var b := TopOfSet(s, ts - {a});
      assert forall t' :: t' in ts ==> t' == a || t' in ts - {a};
      t := if Rank(s, a) <= Rank(s, b) then b else a;
    }
  }

  /** Whenever some transaction has not finished, one of the unfinished ones waits for
      nobody. */
  lemma SomeoneCanMove(nodeOf: Key -> nat, steps: seq<Step>, t0: TxnId) returns (t: TxnId)
    requires Run(Init(nodeOf), steps).Some?
    requires var s := Run(Init(nodeOf), steps).value; t0 in s.txns && !Finished(s.txns[t0].phase)
    ensures var s := Run(Init(nodeOf), steps).value;
            && t in s.txns && !Finished(s.txns[t].phase)
            && forall t' :: !WaitsFor(s, t, t')
  {
    RunKeepsInv(nodeOf, steps);
    var s := Run(Init(nodeOf), steps).value;
    var live := set t' | t' in s.txns && !Finished(s.txns[t'].phase);
    assert t0 in live;
    t := TopOfSet(s, live);
    if exists t' :: WaitsFor(s, t, t') {
      var t1 :| WaitsFor(s, t, t1);
      OwnerIsLive(s, t, t1);
      if exists t' :: WaitsFor(s, t1, t') {
        var t2 :| WaitsFor(s, t1, t2);
        WaitingClimbs(s, t, t1, t2);
        assert false;
      }
      t := t1;
    }
  }

  lemma OwnerIsLive(s: State, t: TxnId, t': TxnId)
    requires Inv(s) && WaitsFor(s, t, t')
    ensures t' in s.txns && !Finished(s.txns[t'].phase)
  {
    var x := s.txns[t];
    var u := if x.phase.Locking? then x.phase.todo[0] else x.phase.tuple;
    assert t' in s.txns && TxnOk(s.mem, t', s.txns[t']);
    assert OwnedOk(s.mem, s.txns[t'], u);
  }
}
