/** The write set during commit: sorting it, locking each distinct tuple once, marking the
    records to apply, and releasing the locks on every exit (silo/txn_impl.h, silo/txn.h). */
module WriteSet {
  import opened Common
  import opened CommitModel
  import opened CommitInvariant

  /** dbtuple_write_info: a write record's tuple, position and flags. */
  datatype Info = Info(tuple: TupleId, pos: nat, insert: bool, locked: bool)

  /** What a transaction meets when it comes to lock a tuple. */
  datatype Outcome = IsTentative | IsRefused | IsGranted

  /** operator<: by address, inserts first, then program order. */
  predicate Less(a: Info, b: Info) {
    || a.tuple < b.tuple
    || (a.tuple == b.tuple && a.insert && !b.insert)
    || (a.tuple == b.tuple && a.insert == b.insert && a.pos < b.pos)
  }

  predicate Ascending(s: seq<Info>) {
    forall i, j {:trigger Less(s[i], s[j])} :: 0 <= i < j < |s| ==> Less(s[i], s[j])
  }

  /** An insert's tuple is created by the insert, so it precedes every other write to it. */
  predicate InsertsFirst(ws: seq<Write>) {
    forall p, q :: 0 <= p < q < |ws| && ws[p].tuple == ws[q].tuple ==> !ws[q].insert
  }

  function InfoOf(ws: seq<Write>, p: nat): Info
    requires p < |ws|
  {
    Info(ws[p].tuple, p, ws[p].insert, ws[p].insert)
  }

  predicate Faithful(ws: seq<Write>, n: nat, s: seq<Info>)
    requires n <= |ws|
  {
    |s| == n && forall k {:trigger s[k].pos} :: 0 <= k < |s| ==> s[k].pos < n && s[k] == InfoOf(ws, s[k].pos)
  }

  predicate FromRecords(ws: seq<Write>, n: nat, s: seq<Info>)
    requires n <= |ws|
  {
    Faithful(ws, n, s) && forall p :: 0 <= p < n ==> InfoOf(ws, p) in s
  }

  /** Where x goes in a sorted vector. */
  function Rank(s: seq<Info>, x: Info): (k: nat)
    ensures k <= |s|
    ensures forall i :: 0 <= i < k ==> Less(s[i], x)
    ensures k < |s| ==> !Less(s[k], x)
  {
    if s == [] || !Less(s[0], x) then 0 else 1 + Rank(s[1..], x)
  }

  /** The vector of write infos, copied from the write set and sorted. */
  function Sorted(ws: seq<Write>, n: nat): (s: seq<Info>)
    requires n <= |ws|
    ensures Ascending(s) && FromRecords(ws, n, s)
  {
    if n == 0 then []
    else
      var s, x := Sorted(ws, n - 1), InfoOf(ws, n - 1);
      var k := Rank(s, x);
      var r := s[..k] + [x] + s[k..];
      InsertKeeps(ws, n, s, k);
      r
  }

  lemma InsertKeeps(ws: seq<Write>, n: nat, s: seq<Info>, k: nat)
    requires 0 < n <= |ws| && Ascending(s) && FromRecords(ws, n - 1, s)
    requires k == Rank(s, InfoOf(ws, n - 1))
    ensures
      var r := s[..k] + [InfoOf(ws, n - 1)] + s[k..];
      Ascending(r) && FromRecords(ws, n, r)
  {
    var x := InfoOf(ws, n - 1);
    var r := s[..k] + [x] + s[k..];
    InsertAscending(s, x, k);
    InsertRecords(ws, n, s, k);
  }

  lemma InsertRecords(ws: seq<Write>, n: nat, s: seq<Info>, k: nat)
    requires 0 < n <= |ws| && FromRecords(ws, n - 1, s) && k <= |s|
    ensures FromRecords(ws, n, s[..k] + [InfoOf(ws, n - 1)] + s[k..])
  {
    var x := InfoOf(ws, n - 1);
    var r := s[..k] + [x] + s[k..];
    forall p | 0 <= p < n
      ensures InfoOf(ws, p) in r
    {
      if p == n - 1 {
        assert r[k] == x;
      } else {
        var j :| 0 <= j < |s| && s[j] == InfoOf(ws, p);
        assert r[if j < k then j else j + 1] == s[j];
      }
    }
  }

  lemma InsertAscending(s: seq<Info>, x: Info, k: nat)
    requires Ascending(s) && k == Rank(s, x)
    requires forall i :: 0 <= i < |s| ==> s[i].pos != x.pos
    ensures Ascending(s[..k] + [x] + s[k..])
  {
    forall i | k <= i < |s|
      ensures Less(x, s[i])
    {
      assert k < i ==> Less(s[k], s[i]);
    }
  }

  /** The last record of a run of equal tuples. */
  predicate GroupEnd(s: seq<Info>, k: nat)
    requires k < |s|
  {
    k + 1 == |s| || s[k + 1].tuple != s[k].tuple
  }

  /** In the sorted vector, a run ends at the last record, in program order, for its tuple. */
  lemma EndIsLast(ws: seq<Write>, s: seq<Info>, k: nat)
    requires InsertsFirst(ws) && Ascending(s) && FromRecords(ws, |ws|, s) && k < |s|
    ensures GroupEnd(s, k) <==> LastForTuple(ws, s[k].pos)
  {
    if GroupEnd(s, k) {
      forall q | s[k].pos < q < |ws|
        ensures ws[q].tuple != ws[s[k].pos].tuple
      {
        var j :| 0 <= j < |s| && s[j] == InfoOf(ws, q);
        assert j < k ==> Less(s[j], s[k]);
        assert k < j ==> Less(s[k], s[j]);
        assert k + 1 < j ==> Less(s[k], s[k + 1]) && Less(s[k + 1], s[j]);
      }
    } else {
      assert Less(s[k], s[k + 1]);
      assert s[k + 1] == InfoOf(ws, s[k + 1].pos) && s[k] == InfoOf(ws, s[k].pos);
    }
  }

  /** Records before the start of a run, or after its end, are of other tuples. */
  lemma EarlierTuple(s: seq<Info>, j: nat, k: nat)
    requires Ascending(s) && j < k < |s| && s[k - 1].tuple != s[k].tuple
    ensures s[j].tuple < s[k].tuple
  {
    assert Less(s[k - 1], s[k]);
    assert j < k - 1 ==> Less(s[j], s[k - 1]);
  }

  lemma LaterTuple(s: seq<Info>, i: nat, j: nat)
    requires Ascending(s) && i < j < |s| && GroupEnd(s, i)
    ensures s[i].tuple < s[j].tuple
  {
    assert Less(s[i], s[i + 1]);
    assert i + 1 < j ==> Less(s[i + 1], s[j]);
  }

  lemma NotLater(s: seq<Info>, i: nat, j: nat)
    requires Ascending(s) && i < |s| && j < |s| && GroupEnd(s, i) && s[j].tuple <= s[i].tuple
    ensures j <= i
  {
    if i < j {
      LaterTuple(s, i, j);
      assert false;
    }
  }

  /** The first record of a run tells whether the transaction inserted its tuple. */
  lemma FirstTells(ws: seq<Write>, s: seq<Info>, k: nat)
    requires InsertsFirst(ws) && Ascending(s) && FromRecords(ws, |ws|, s) && k < |s|
    requires k > 0 ==> s[k - 1].tuple != s[k].tuple
    ensures InsertedBy(ws, s[k].tuple) <==> s[k].insert
  {
    if InsertedBy(ws, s[k].tuple) {
      var p :| 0 <= p < |ws| && ws[p].tuple == s[k].tuple && ws[p].insert;
      var j :| 0 <= j < |s| && s[j] == InfoOf(ws, p);
      if j < k {
        EarlierTuple(s, j, k);
        assert false;
      }
      assert k < j ==> Less(s[k], s[j]);
    } else {
      assert s[k] == InfoOf(ws, s[k].pos);
    }
  }

  predicate RunStart(s: seq<Info>, k: nat)
    requires k < |s|
  {
    k == 0 || s[k - 1].tuple != s[k].tuple
  }

  predicate StartsTell(ws: seq<Write>, s: seq<Info>) {
    forall k {:trigger RunStart(s, k)} :: 0 <= k < |s| && RunStart(s, k) ==> (InsertedBy(ws, s[k].tuple) <==> s[k].insert)
  }

  lemma AllStartsTell(ws: seq<Write>, s: seq<Info>)
    requires InsertsFirst(ws) && Ascending(s) && FromRecords(ws, |ws|, s)
    ensures StartsTell(ws, s)
  {
    forall k | 0 <= k < |s| && RunStart(s, k)
      ensures InsertedBy(ws, s[k].tuple) <==> s[k].insert
    {
      FirstTells(ws, s, k);
    }
  }

  // ------------------------------------------------------------------ locking

  /** Runs whose tuple the transaction did not insert are locked, at their last record. */
  predicate Locks(ws: seq<Write>, s: seq<Info>, k: nat)
    requires k < |s|
  {
    GroupEnd(s, k) && !InsertedBy(ws, s[k].tuple)
  }

  /** The tuples locked for the records before k. */
  function LockList(ws: seq<Write>, s: seq<Info>, k: nat): seq<TupleId>
    requires k <= |s|
  {
    if k == 0 then [] else LockList(ws, s, k - 1) + if Locks(ws, s, k - 1) then [s[k - 1].tuple] else []
  }

  lemma LockListNext(ws: seq<Write>, s: seq<Info>, k: nat)
    requires k < |s|
    ensures Locks(ws, s, k) ==> LockList(ws, s, k + 1) == LockList(ws, s, k) + [s[k].tuple]
    ensures !Locks(ws, s, k) ==> LockList(ws, s, k + 1) == LockList(ws, s, k)
    ensures LockList(ws, s, k) + [] == LockList(ws, s, k)
  {
  }

  ghost predicate LocksTuple(ws: seq<Write>, s: seq<Info>, k: nat, u: TupleId)
    requires k <= |s|
  {
    exists i :: 0 <= i < k && Locks(ws, s, i) && s[i].tuple == u
  }

  lemma {:induction false} LockListIs(ws: seq<Write>, s: seq<Info>, k: nat)
    requires Ascending(s) && k <= |s|
    ensures
      var l := LockList(ws, s, k);
      && (forall u :: u in l <==> LocksTuple(ws, s, k, u))
      && (forall a, b :: 0 <= a < b < |l| ==> l[a] < l[b])
  {
    if k > 0 {
      var before, l := LockList(ws, s, k - 1), LockList(ws, s, k);
      LockListIs(ws, s, k - 1);
      forall u
        ensures u in l <==> LocksTuple(ws, s, k, u)
      {
        if LocksTuple(ws, s, k, u) {
          var i :| 0 <= i < k && Locks(ws, s, i) && s[i].tuple == u;
          assert i < k - 1 ==> LocksTuple(ws, s, k - 1, u);
        }
        if u in before {
          assert LocksTuple(ws, s, k - 1, u);
          var i :| 0 <= i < k - 1 && Locks(ws, s, i) && s[i].tuple == u;
          assert 0 <= i < k && Locks(ws, s, i);
        }
      }
      forall a | 0 <= a < |before| && Locks(ws, s, k - 1)
        ensures before[a] < s[k - 1].tuple
      {
        assert LocksTuple(ws, s, k - 1, before[a]);
        var i :| 0 <= i < k - 1 && Locks(ws, s, i) && s[i].tuple == before[a];
        assert Less(s[i], s[i + 1]) && (i + 1 < k - 1 ==> Less(s[i + 1], s[k - 1]));
      }
    }
  }

  /** Every run has an end. */
  lemma {:induction false} EndOf(s: seq<Info>, k: nat) returns (e: nat)
    requires k < |s|
    ensures k <= e < |s| && s[e].tuple == s[k].tuple && GroupEnd(s, e)
    decreases |s| - k
  {
    e := k;
    if !GroupEnd(s, k) {
      e := EndOf(s, k + 1);
    }
  }

  /** Locking every run gives exactly the list the commit protocol locks. */
  lemma AllLocksAreLockOrder(ws: seq<Write>, s: seq<Info>)
    requires InsertsFirst(ws) && Ascending(s) && FromRecords(ws, |ws|, s)
    ensures LockOrder(ws, LockList(ws, s, |s|))
  {
    LockListIs(ws, s, |s|);
    forall u | InWriteSet(ws, u) && !InsertedBy(ws, u)
      ensures u in LockList(ws, s, |s|)
    {
      var p :| 0 <= p < |ws| && ws[p].tuple == u;
      var j :| 0 <= j < |s| && s[j] == InfoOf(ws, p);
      var e := EndOf(s, j);
      assert Locks(ws, s, e) && s[e].tuple == u;
      assert LocksTuple(ws, s, |s|, u);
    }
    forall u | u in LockList(ws, s, |s|)
      ensures InWriteSet(ws, u) && !InsertedBy(ws, u)
    {
      assert LocksTuple(ws, s, |s|, u);
      var i :| 0 <= i < |s| && Locks(ws, s, i) && s[i].tuple == u;
      assert s[i] == InfoOf(ws, s[i].pos) && ws[s[i].pos].tuple == u;
    }
  }

  /** The lock flags when the runs ending before record h have been handled. */
  predicate Flagged(ws: seq<Write>, s: seq<Info>, h: nat, infos: seq<Info>) {
    |infos| == |s| && forall k {:trigger infos[k]} :: 0 <= k < |s| ==> infos[k] == s[k].(locked := s[k].insert || (k < h && Locks(ws, s, k)))
  }

  /** The do-write marks when, besides, the inserts before record i have been seen. */
  predicate Marked(ws: seq<Write>, s: seq<Info>, h: nat, i: nat, marks: seq<bool>)
    requires Faithful(ws, |ws|, s)
  {
    && |marks| == |ws|
    && forall k {:trigger marks[s[k].pos]} :: 0 <= k < |s| ==> marks[s[k].pos] == ((k < i && s[k].insert) || (k < h && GroupEnd(s, k)))
  }

  lemma PosDistinct(ws: seq<Write>, s: seq<Info>, i: nat, j: nat)
    requires Ascending(s) && Faithful(ws, |ws|, s) && i < |s| && j < |s|
    ensures s[i].pos == s[j].pos ==> i == j
  {
    assert s[i] == InfoOf(ws, s[i].pos) && s[j] == InfoOf(ws, s[j].pos);
    if i < j {
      assert Less(s[i], s[j]);
    } else if j < i {
      assert Less(s[j], s[i]);
    }
  }

  lemma MarkEnd(ws: seq<Write>, s: seq<Info>, k: nat, i: nat, marks: seq<bool>)
    requires Ascending(s) && Faithful(ws, |ws|, s) && k < |s| && Marked(ws, s, k, i, marks) && GroupEnd(s, k)
    ensures Marked(ws, s, k + 1, i, marks[s[k].pos := true])
  {
    forall j | 0 <= j < |s| && j != k
      ensures s[j].pos != s[k].pos
    {
      if s[j].pos == s[k].pos {
        PosDistinct(ws, s, j, k);
      }
    }
  }

  lemma MarkInsert(ws: seq<Write>, s: seq<Info>, h: nat, i: nat, marks: seq<bool>)
    requires Ascending(s) && Faithful(ws, |ws|, s) && i < |s| && Marked(ws, s, h, i, marks) && s[i].insert
    ensures Marked(ws, s, h, i + 1, marks[s[i].pos := true])
  {
    forall j | 0 <= j < |s| && j != i
      ensures s[j].pos != s[i].pos
    {
      if s[j].pos == s[i].pos {
        PosDistinct(ws, s, j, i);
      }
    }
  }

  predicate Granted(ws: seq<Write>, s: seq<Info>, h: nat, env: TupleId -> Outcome) {
    forall k {:trigger Locks(ws, s, k)} :: 0 <= k < h && k < |s| && Locks(ws, s, k) ==> env(s[k].tuple).IsGranted?
  }

  /** The loop's state when the runs ending before record h have been handled. */
  predicate Scanned(ws: seq<Write>, s: seq<Info>, env: TupleId -> Outcome, h: nat, i: nat,
                    infos: seq<Info>, marks: seq<bool>, locked: seq<TupleId>)
    requires Faithful(ws, |ws|, s) && h <= |s|
  {
    Flagged(ws, s, h, infos) && Marked(ws, s, h, i, marks) && locked == LockList(ws, s, h) && Granted(ws, s, h, env)
  }

  lemma NoEnd(ws: seq<Write>, s: seq<Info>, env: TupleId -> Outcome, k: nat, i: nat,
              infos: seq<Info>, marks: seq<bool>, locked: seq<TupleId>)
    requires Faithful(ws, |ws|, s) && k < |s| && !GroupEnd(s, k)
    requires Scanned(ws, s, env, k, i, infos, marks, locked)
    ensures Scanned(ws, s, env, k + 1, i, infos, marks, locked)
  {
  }

  lemma AtEnd(ws: seq<Write>, s: seq<Info>, env: TupleId -> Outcome, k: nat, i: nat,
              infos: seq<Info>, marks: seq<bool>)
    requires Faithful(ws, |ws|, s) && k < |s| && Granted(ws, s, k, env)
    requires Flagged(ws, s, k + 1, infos) && Marked(ws, s, k + 1, i, marks)
    requires Locks(ws, s, k) ==> env(s[k].tuple).IsGranted?
    ensures Scanned(ws, s, env, k + 1, i, infos, marks, LockList(ws, s, k + 1))
  {
  }

  /** handle_last_tuple_in_group, for the run that ends at record k. */
  method HandleLast(ws: seq<Write>, ghost s: seq<Info>, env: TupleId -> Outcome, infos: array<Info>, marks: array<bool>,
                    k: nat, didGroupInsert: bool, ghost i: nat)
    returns (ok: bool, locked: seq<TupleId>)
    requires Ascending(s) && Faithful(ws, |ws|, s) && k < |s| && k < i && GroupEnd(s, k)
    requires Flagged(ws, s, k, infos[..]) && Marked(ws, s, k, i, marks[..])
    requires didGroupInsert == InsertedBy(ws, s[k].tuple)
    modifies infos, marks
    ensures ok == (Locks(ws, s, k) ==> env(s[k].tuple).IsGranted?)
    ensures ok ==> Flagged(ws, s, k + 1, infos[..]) && Marked(ws, s, k + 1, i, marks[..])
    ensures !ok ==> Flagged(ws, s, if env(s[k].tuple).IsTentative? then k else k + 1, infos[..])
    ensures locked == if Locks(ws, s, k) && !env(s[k].tuple).IsTentative? then [s[k].tuple] else []
  {
    locked := [];
    if didGroupInsert {
      if !infos[k].insert {
        MarkEnd(ws, s, k, i, marks[..]);
        marks[infos[k].pos] := true;
      }
    } else {
      if env(infos[k].tuple).IsTentative? {
        return false, [];
      }
      locked := [infos[k].tuple];                       // lock(true)
      infos[k] := infos[k].(locked := true);            // mark_locked
      if env(infos[k].tuple).IsRefused? {
        return false, locked;
      }
      MarkEnd(ws, s, k, i, marks[..]);
      marks[infos[k].pos] := true;
    }
    return true, locked;
  }

  /** Where the lock list stands when locking stops at the run that ends at record k. */
  function StoppedAt(s: seq<Info>, env: TupleId -> Outcome, k: nat): (h: nat)
    requires k < |s|
    ensures h <= |s|
  {
    if env(s[k].tuple).IsTentative? then k else k + 1
  }

  /** Where locking stopped: at the run that ends at record `stop`, whose tuple could not
      be had, or nowhere. */
  predicate Stopped(ws: seq<Write>, s: seq<Info>, env: TupleId -> Outcome, stop: nat, infos: seq<Info>, locked: seq<TupleId>) {
    && stop < |s| && Locks(ws, s, stop) && !env(s[stop].tuple).IsGranted?
    && Flagged(ws, s, StoppedAt(s, env, stop), infos) && locked == LockList(ws, s, StoppedAt(s, env, stop))
  }

  /** At a boundary between runs, the run before record i is handled. */
  method Boundary(ws: seq<Write>, ghost s: seq<Info>, env: TupleId -> Outcome, infos: array<Info>, marks: array<bool>,
                  i: nat, inserted: bool, before: seq<TupleId>)
    returns (ok: bool, locked: seq<TupleId>)
    requires Ascending(s) && Faithful(ws, |ws|, s) && 0 < i <= |s| && infos.Length == |s|
    requires Scanned(ws, s, env, i - 1, i, infos[..], marks[..], before)
    requires inserted == InsertedBy(ws, s[i - 1].tuple)
    modifies infos, marks
    ensures ok ==> Scanned(ws, s, env, i, i, infos[..], marks[..], locked)
    ensures !ok ==> Stopped(ws, s, env, i - 1, infos[..], locked)
  {
    locked := before;
    if i == infos.Length || infos[i - 1].tuple != infos[i].tuple {
      var more;
      ok, more := HandleLast(ws, s, env, infos, marks, i - 1, inserted, i);
      LockListNext(ws, s, i - 1);
      locked := locked + more;
      if ok {
        AtEnd(ws, s, env, i - 1, i, infos[..], marks[..]);
      }
    } else {
      NoEnd(ws, s, env, i - 1, i, infos[..], marks[..], locked);
      ok := true;
    }
  }

  predicate RecordsMarked(ws: seq<Write>, marks: seq<bool>) {
    |marks| == |ws| && forall p :: 0 <= p < |ws| ==> marks[p] == (ws[p].insert || LastForTuple(ws, p))
  }

  /** One round of the loop: the boundary before record i, if there is one, then the record. */
  method NextRecord(ws: seq<Write>, ghost s: seq<Info>, env: TupleId -> Outcome, infos: array<Info>, marks: array<bool>,
                    i: nat, was: bool, before: seq<TupleId>)
    returns (ok: bool, locked: seq<TupleId>, inserted: bool)
    requires Ascending(s) && Faithful(ws, |ws|, s) && StartsTell(ws, s) && i < |s| == infos.Length
    requires Scanned(ws, s, env, if i == 0 then 0 else i - 1, i, infos[..], marks[..], before)
    requires if i == 0 then !was else was == InsertedBy(ws, s[i - 1].tuple)
    modifies infos, marks
    ensures ok ==> Scanned(ws, s, env, i, i + 1, infos[..], marks[..], locked) && inserted == InsertedBy(ws, s[i].tuple)
    ensures !ok ==> i > 0 && Stopped(ws, s, env, i - 1, infos[..], locked)
  {
    ok, locked, inserted := true, before, was;
    if i > 0 {
      ok, locked := Boundary(ws, s, env, infos, marks, i, inserted, locked);
      if !ok {
        return;
      }
      inserted := inserted && infos[i - 1].tuple == infos[i].tuple;
    }
    inserted := SeeRecord(ws, s, env, infos, marks, i, inserted, locked);
  }

  /** The loop itself, over the sorted vector s; the run before record i is handled when
      the loop sees record i. */
  method LockLoop(ws: seq<Write>, ghost s: seq<Info>, env: TupleId -> Outcome, infos: array<Info>, marks: array<bool>)
    returns (ok: bool, locked: seq<TupleId>, inserted: bool, ghost stop: nat)
    requires Ascending(s) && Faithful(ws, |ws|, s) && StartsTell(ws, s) && infos.Length == |s|
    requires Scanned(ws, s, env, 0, 0, infos[..], marks[..], [])
    modifies infos, marks
    ensures ok ==> Scanned(ws, s, env, if |s| == 0 then 0 else |s| - 1, |s|, infos[..], marks[..], locked)
    ensures ok && s != [] ==> inserted == InsertedBy(ws, s[|s| - 1].tuple)
    ensures !ok ==> Stopped(ws, s, env, stop, infos[..], locked)
  {
    ok, locked, inserted, stop := true, [], false, 0;
    var i := 0;
    while i < infos.Length
      invariant 0 <= i <= |s| && (i == 0 ==> !inserted)
      invariant Scanned(ws, s, env, if i == 0 then 0 else i - 1, i, infos[..], marks[..], locked)
      invariant i > 0 ==> inserted == InsertedBy(ws, s[i - 1].tuple)
    {
      ok, locked, inserted := NextRecord(ws, s, env, infos, marks, i, inserted, locked);
      if !ok {
        return ok, locked, inserted, i - 1;
      }
      i := i + 1;
    }
  }

  /** The loop, and the last run after it. */
  method LockRuns(ws: seq<Write>, ghost s: seq<Info>, env: TupleId -> Outcome, infos: array<Info>, marks: array<bool>)
    returns (ok: bool, locked: seq<TupleId>, ghost stop: nat)
    requires Ascending(s) && Faithful(ws, |ws|, s) && StartsTell(ws, s) && infos.Length == |s|
    requires Scanned(ws, s, env, 0, 0, infos[..], marks[..], [])
    modifies infos, marks
    ensures ok ==> Scanned(ws, s, env, |s|, |s|, infos[..], marks[..], locked)
    ensures !ok ==> Stopped(ws, s, env, stop, infos[..], locked)
  {
    var inserted;
    ok, locked, inserted, stop := LockLoop(ws, s, env, infos, marks);
    if ok && infos.Length > 0 {
      ok, locked := Boundary(ws, s, env, infos, marks, infos.Length, inserted, locked);
      stop := |s| - 1;
    }
  }

  lemma NothingScanned(ws: seq<Write>, s: seq<Info>, env: TupleId -> Outcome, marks: seq<bool>)
    requires Faithful(ws, |ws|, s) && marks == seq(|ws|, _ => false)
    ensures Scanned(ws, s, env, 0, 0, s, marks, [])
  {}

  /** Locking the write set during commit.  Every tuple that is not the transaction's own
      insert is locked once, in ascending order of address, until one cannot be had; the
      flags say exactly which are held.  On success the marked records are the inserts
      and, for each tuple, the last record in program order. */
  method LockWrites(ws: seq<Write>, env: TupleId -> Outcome, infos: array<Info>, marks: array<bool>)
    returns (ok: bool, locked: seq<TupleId>, ghost h: nat)
    requires InsertsFirst(ws) && infos[..] == Sorted(ws, |ws|)
    requires marks[..] == seq(|ws|, _ => false)
    modifies infos, marks
    ensures h <= |ws| && Flagged(ws, Sorted(ws, |ws|), h, infos[..])
    ensures locked == LockList(ws, Sorted(ws, |ws|), h)
    ensures ok <==> forall u :: u in LockList(ws, Sorted(ws, |ws|), |ws|) ==> env(u).IsGranted?
    ensures ok ==> LockOrder(ws, locked) && RecordsMarked(ws, marks[..])
  {
    ghost var s := Sorted(ws, |ws|);
    AllStartsTell(ws, s);
    NothingScanned(ws, s, env, marks[..]);
    ghost var stop;
    ok, locked, stop := LockRuns(ws, s, env, infos, marks);
    h := if ok then |s| else StoppedAt(s, env, stop);
    if ok {
      AllLocksAreLockOrder(ws, s);
      AllGranted(ws, s, env);
      MarksAre(ws, s, marks[..]);
    } else {
      NotAllGranted(ws, s, stop, env);
    }
  }

  /** The loop's look at record i itself: inserts are always applied. */
  method SeeRecord(ws: seq<Write>, ghost s: seq<Info>, env: TupleId -> Outcome, infos: array<Info>, marks: array<bool>,
                   i: nat, was: bool, ghost locked: seq<TupleId>)
    returns (inserted: bool)
    requires Ascending(s) && Faithful(ws, |ws|, s) && i < |s|
    requires RunStart(s, i) ==> (InsertedBy(ws, s[i].tuple) <==> s[i].insert)
    requires Scanned(ws, s, env, i, i, infos[..], marks[..], locked)
    requires if RunStart(s, i) then !was else was == InsertedBy(ws, s[i].tuple)
    modifies marks
    ensures Scanned(ws, s, env, i, i + 1, infos[..], marks[..], locked)
    ensures inserted == InsertedBy(ws, s[i].tuple)
  {
    inserted := was;
    if infos[i].insert {
      MarkInsert(ws, s, i, i, marks[..]);
      assert s[i] == InfoOf(ws, s[i].pos) && ws[s[i].pos].insert;
      marks[infos[i].pos] := true;
      inserted := true;
    }
  }

  lemma NotAllGranted(ws: seq<Write>, s: seq<Info>, k: nat, env: TupleId -> Outcome)
    requires Ascending(s) && k < |s| && Locks(ws, s, k) && !env(s[k].tuple).IsGranted?
    ensures s[k].tuple in LockList(ws, s, |s|)
  {
    LockListIs(ws, s, |s|);
    assert LocksTuple(ws, s, |s|, s[k].tuple);
  }

  lemma AllGranted(ws: seq<Write>, s: seq<Info>, env: TupleId -> Outcome)
    requires Ascending(s) && Granted(ws, s, |s|, env)
    ensures forall u :: u in LockList(ws, s, |s|) ==> env(u).IsGranted?
  {
    LockListIs(ws, s, |s|);
    forall u | u in LockList(ws, s, |s|)
      ensures env(u).IsGranted?
    {
      assert LocksTuple(ws, s, |s|, u);
    }
  }

  lemma MarksAre(ws: seq<Write>, s: seq<Info>, marks: seq<bool>)
    requires InsertsFirst(ws) && Ascending(s) && FromRecords(ws, |ws|, s) && Marked(ws, s, |s|, |s|, marks)
    ensures RecordsMarked(ws, marks)
  {
    forall p | 0 <= p < |ws|
      ensures marks[p] == (ws[p].insert || LastForTuple(ws, p))
    {
      var k :| 0 <= k < |s| && s[k] == InfoOf(ws, p);
      EndIsLast(ws, s, k);
    }
  }

  // ------------------------------------------------------------------ releasing

  /** The tuples a transaction holds when locking has got as far as record h. */
  predicate Holds(ws: seq<Write>, s: seq<Info>, h: nat, u: TupleId)
    requires h <= |s|
  {
    InsertedBy(ws, u) || u in LockList(ws, s, h)
  }

  /** At most one record of each tuple carries the lock flag. */
  lemma OneFlag(ws: seq<Write>, s: seq<Info>, h: nat, infos: seq<Info>, i: nat, j: nat)
    requires InsertsFirst(ws) && Ascending(s) && Faithful(ws, |ws|, s) && Flagged(ws, s, h, infos)
    requires i < j < |s| && infos[i].locked && infos[j].locked
    ensures infos[i].tuple != infos[j].tuple
  {
    assert infos[i] == s[i].(locked := true) && infos[j] == s[j].(locked := true);
    assert s[i] == InfoOf(ws, s[i].pos) && s[j] == InfoOf(ws, s[j].pos);
    if s[i].insert {
      assert ws[s[i].pos].insert && InsertedBy(ws, s[i].tuple);
      PosDistinct(ws, s, i, j);
    } else {
      LaterTuple(s, i, j);
    }
  }

  predicate FlaggedTuple(infos: seq<Info>, n: nat, u: TupleId)
    requires n <= |infos|
  {
    exists k :: 0 <= k < n && infos[k].locked && infos[k].tuple == u
  }

  /** The flagged records are those of the tuples held. */
  lemma FlagsAreHeld(ws: seq<Write>, s: seq<Info>, h: nat, infos: seq<Info>, u: TupleId)
    requires Ascending(s) && FromRecords(ws, |ws|, s) && h <= |s| && Flagged(ws, s, h, infos)
    ensures Holds(ws, s, h, u) <==> FlaggedTuple(infos, |infos|, u)
  {
    LockListIs(ws, s, h);
    if FlaggedTuple(infos, |infos|, u) {
      var k :| 0 <= k < |infos| && infos[k].locked && infos[k].tuple == u;
      assert s[k] == InfoOf(ws, s[k].pos);
      if s[k].insert {
        assert ws[s[k].pos].insert && ws[s[k].pos].tuple == u;
      } else {
        assert Locks(ws, s, k) && LocksTuple(ws, s, h, u);
      }
    }
    if InsertedBy(ws, u) {
      var p :| 0 <= p < |ws| && ws[p].tuple == u && ws[p].insert;
      var k :| 0 <= k < |s| && s[k] == InfoOf(ws, p);
      assert infos[k].locked && infos[k].tuple == u;
    } else if u in LockList(ws, s, h) {
      assert LocksTuple(ws, s, h, u);
      var k :| 0 <= k < h && Locks(ws, s, k) && s[k].tuple == u;
      assert infos[k].locked && infos[k].tuple == u;
    }
  }

  /** The flags that the loops above set are those the commit protocol walks over: if the
      protocol has locked what the loop has, a record is flagged exactly if it carries the
      lock of its tuple. */
  lemma FlagsAreCarried(ws: seq<Write>, s: seq<Info>, h: nat, infos: seq<Info>, x: Txn, k: nat)
    requires InsertsFirst(ws) && Ascending(s) && FromRecords(ws, |ws|, s) && h <= |s| && Flagged(ws, s, h, infos)
    requires x.writes == ws && (forall u :: u in x.locked <==> u in LockList(ws, s, h)) && k < |s|
    ensures infos[k].locked <==> Carries(x, s[k].pos)
  {
    assert s[k] == InfoOf(ws, s[k].pos);
    EndIsLast(ws, s, k);
    LockListIs(ws, s, h);
    if GroupEnd(s, k) && s[k].tuple in x.locked {
      assert LocksTuple(ws, s, h, s[k].tuple);
      var i :| 0 <= i < h && Locks(ws, s, i) && s[i].tuple == s[k].tuple;
      OneEnd(s, i, k);
    }
    assert k < h && Locks(ws, s, k) ==> LocksTuple(ws, s, h, s[k].tuple);
  }

  lemma OneEnd(s: seq<Info>, i: nat, k: nat)
    requires Ascending(s) && i < |s| && k < |s| && GroupEnd(s, i) && GroupEnd(s, k) && s[i].tuple == s[k].tuple
    ensures i == k
  {
    if i < k {
      LaterTuple(s, i, k);
    } else if k < i {
      LaterTuple(s, k, i);
    }
  }

  /** A set of tuples that commit may have locked so far is what the loop has locked when
      it stops at some record. */
  lemma {:induction false} LockedIsPrefix(ws: seq<Write>, s: seq<Info>, x: Txn, k: nat) returns (h: nat)
    requires InsertsFirst(ws) && Ascending(s) && FromRecords(ws, |ws|, s) && k <= |s|
    requires x.writes == ws && LockedBelow(x) && forall u :: u in x.locked ==> InWriteSet(ws, u) && !InsertedBy(ws, u)
    requires forall u :: u in LockList(ws, s, k) ==> u in x.locked
    ensures h <= |s| && forall u :: u in x.locked <==> u in LockList(ws, s, h)
    decreases |s| - k
  {
    if k < |s| && (Locks(ws, s, k) ==> s[k].tuple in x.locked) {
      h := LockedIsPrefix(ws, s, x, k + 1);
    } else {
      h := k;
      forall u | u in x.locked
        ensures u in LockList(ws, s, k)
      {
        LockedIsBefore(ws, s, x, k, u);
      }
    }
  }

  /** The record at which the loop locks a tuple that the transaction writes to and did
      not insert. */
  lemma LockedAt(ws: seq<Write>, s: seq<Info>, u: TupleId) returns (i: nat)
    requires InsertsFirst(ws) && Ascending(s) && FromRecords(ws, |ws|, s) && InWriteSet(ws, u) && !InsertedBy(ws, u)
    ensures i < |s| && Locks(ws, s, i) && s[i].tuple == u
  {
    var p :| 0 <= p < |ws| && ws[p].tuple == u;
    var j :| 0 <= j < |s| && s[j] == InfoOf(ws, p);
    i := EndOf(s, j);
  }

  lemma LockedIsLower(ws: seq<Write>, s: seq<Info>, x: Txn, k: nat, i: nat)
    requires Ascending(s) && FromRecords(ws, |ws|, s) && k < |s| && i < |s| && x.writes == ws && LockedBelow(x)
    requires Locks(ws, s, i) && s[i].tuple in x.locked && Locks(ws, s, k) && s[k].tuple !in x.locked
    ensures i < k
  {
    assert s[k] == InfoOf(ws, s[k].pos);
    assert InWriteSet(ws, s[k].tuple);
    assert s[i].tuple <= s[k].tuple;
    NotLater(s, k, i);
  }

  lemma LockedIsBefore(ws: seq<Write>, s: seq<Info>, x: Txn, k: nat, u: TupleId)
    requires InsertsFirst(ws) && Ascending(s) && FromRecords(ws, |ws|, s) && k <= |s|
    requires x.writes == ws && LockedBelow(x) && u in x.locked && InWriteSet(ws, u) && !InsertedBy(ws, u)
    requires k < |s| ==> Locks(ws, s, k) && s[k].tuple !in x.locked
    ensures u in LockList(ws, s, k)
  {
    var i := LockedAt(ws, s, u);
    if k < |s| {
      LockedIsLower(ws, s, x, k, i);
    }
    LockListIs(ws, s, k);
    assert LocksTuple(ws, s, k, u);
  }

  /** The tuples of the flagged records before n, in order. */
  function FlaggedList(infos: seq<Info>, n: nat): seq<TupleId>
    requires n <= |infos|
  {
    if n == 0 then []
    else FlaggedList(infos, n - 1) + if infos[n - 1].locked then [infos[n - 1].tuple] else []
  }

  predicate Increasing(us: seq<TupleId>) {
    forall a, b :: 0 <= a < b < |us| ==> us[a] < us[b]
  }

  lemma {:induction false} FlaggedListIs(infos: seq<Info>, n: nat)
    requires n <= |infos|
    ensures forall u :: u in FlaggedList(infos, n) <==> FlaggedTuple(infos, n, u)
  {
    if n > 0 {
      FlaggedListIs(infos, n - 1);
      forall u
        ensures u in FlaggedList(infos, n) <==> FlaggedTuple(infos, n, u)
      {
        if FlaggedTuple(infos, n, u) {
          var k :| 0 <= k < n && infos[k].locked && infos[k].tuple == u;
          assert k < n - 1 ==> FlaggedTuple(infos, n - 1, u);
        }
        if FlaggedTuple(infos, n - 1, u) {
          var k :| 0 <= k < n - 1 && infos[k].locked && infos[k].tuple == u;
          assert 0 <= k < n && infos[k].locked;
        }
      }
    }
  }

  lemma {:induction false} FlaggedListIncreases(infos: seq<Info>, n: nat)
    requires n <= |infos|
    requires forall i, j :: 0 <= i < j < |infos| && infos[i].locked && infos[j].locked ==> infos[i].tuple < infos[j].tuple
    ensures Increasing(FlaggedList(infos, n))
  {
    if n > 0 {
      FlaggedListIncreases(infos, n - 1);
      FlaggedListIs(infos, n - 1);
      var before := FlaggedList(infos, n - 1);
      forall a | 0 <= a < |before| && infos[n - 1].locked
        ensures before[a] < infos[n - 1].tuple
      {
        assert FlaggedTuple(infos, n - 1, before[a]);
      }
    }
  }

  /** The loop over the infos, which unlocks the flagged ones in order. */
  method UnlockFlagged(infos: array<Info>) returns (released: seq<TupleId>)
    ensures released == FlaggedList(infos[..], infos.Length)
  {
    released := [];
    for i := 0 to infos.Length
      invariant released == FlaggedList(infos[..], i)
    {
      if infos[i].locked {
        released := released + [infos[i].tuple];
      }
    }
  }

  /** The release loop, the same on success and on abort: each tuple the transaction
      holds, whether it inserted it or locked it, is unlocked exactly once, in ascending
      order of address, and no other is. */
  method Release(ws: seq<Write>, infos: array<Info>, ghost s: seq<Info>, ghost h: nat) returns (released: seq<TupleId>)
    requires InsertsFirst(ws) && Ascending(s) && FromRecords(ws, |ws|, s)
    requires h <= |s| && Flagged(ws, s, h, infos[..])
    ensures Increasing(released)
    ensures forall u :: u in released <==> Holds(ws, s, h, u)
  {
    released := UnlockFlagged(infos);
    ghost var flags := infos[..];
    forall i, j | 0 <= i < j < |flags| && flags[i].locked && flags[j].locked
      ensures flags[i].tuple < flags[j].tuple
    {
      OneFlag(ws, s, h, flags, i, j);
      assert Less(s[i], s[j]);
    }
    FlaggedListIncreases(flags, |flags|);
    FlaggedListIs(flags, |flags|);
    forall u
      ensures FlaggedTuple(flags, |flags|, u) <==> Holds(ws, s, h, u)
    {
      FlagsAreHeld(ws, s, h, flags, u);
    }
  }
}
