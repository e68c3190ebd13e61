/** The versions of one record as plain data, newest first, and what snapshot reads see. */
module TupleHistory {
  import opened Common

  type Bytes = seq<bv8>

  /** One version: its tid and its value, None for a deleted record. */
  datatype Version = Version(tid: nat, value: Option<Bytes>)

  /** A snapshot read at t: the newest version not above t, or nothing. */
  function ReadAt(vs: seq<Version>, t: nat): Version {
    if vs == [] then Version(MIN_TID, None)
    else if vs[0].tid <= t then vs[0]
    else ReadAt(vs[1..], t)
  }

  /** One write: its tid, its value, and whether it replaced the newest version. */
  datatype Write = Write(tid: nat, value: Option<Bytes>, inPlace: bool)

  predicate Sorted(vs: seq<Version>) {
    forall i, j :: 0 <= i < j < |vs| ==> vs[j].tid <= vs[i].tid
  }

  /** The chain the tuple keeps. */
  function Kept(vs: seq<Version>, ws: seq<Write>): seq<Version> {
    if ws == [] then vs
    else
      var w := ws[|ws| - 1];
      var before := Kept(vs, ws[..|ws| - 1]);
      [Version(w.tid, w.value)] + if w.inPlace && before != [] then before[1..] else before
  }

  /** Writing one more record to the chain: the step that the tuple's writer takes. */
  lemma KeptStep(vs: seq<Version>, ws: seq<Write>, w: Write)
    ensures Kept(vs, ws + [w]) == Kept(Kept(vs, ws), [w])
    ensures
      var before := Kept(vs, ws);
      before != [] ==> Kept(vs, ws + [w]) == [Version(w.tid, w.value)] + if w.inPlace then before[1..] else before
  {
    assert (ws + [w])[..|ws|] == ws;
    assert [w][..0] == [];
  }

  /** The full multi-version history. */
  function All(vs: seq<Version>, ws: seq<Write>): seq<Version> {
    if ws == [] then vs
    else [Version(ws[|ws| - 1].tid, ws[|ws| - 1].value)] + All(vs, ws[..|ws| - 1])
  }

  function Newest(vs: seq<Version>): nat { if vs == [] then MIN_TID else vs[0].tid }

  /** The tids of the writes never go down; equal tids are allowed. */
  predicate Ascending(vs: seq<Version>, ws: seq<Write>) {
    && (forall i :: 0 <= i < |ws| ==> Newest(vs) <= ws[i].tid)
    && (forall i, j :: 0 <= i < j < |ws| ==> ws[i].tid <= ws[j].tid)
  }

  /** Snapshot s lies between a version and the write that replaced it.  The contract of
      can_overwrite_record_tid(prev, cur) is that no snapshot in use does. */
  predicate Straddled(vs: seq<Version>, ws: seq<Write>, s: nat) {
    exists i :: 0 <= i < |ws| && ws[i].inPlace && Newest(Kept(vs, ws[..i])) <= s < ws[i].tid
  }

  lemma {:induction false} KeptNewest(vs: seq<Version>, ws: seq<Write>)
    requires Sorted(vs) && Ascending(vs, ws)
    ensures Sorted(Kept(vs, ws))
    ensures Newest(Kept(vs, ws)) == if ws == [] then Newest(vs) else ws[|ws| - 1].tid
  {
    if ws != [] {
      KeptNewest(vs, ws[..|ws| - 1]);
    }
  }

  /** A write with a tid not below the newest extends the history. */
  lemma HistoryStep(vs: seq<Version>, ws: seq<Write>, w: Write)
    requires vs != [] && Sorted(vs) && Ascending(vs, ws) && Newest(Kept(vs, ws)) <= w.tid
    ensures Ascending(vs, ws + [w])
    ensures
      var before := Kept(vs, ws);
      before != [] && Kept(vs, ws + [w]) == [Version(w.tid, w.value)] + if w.inPlace then before[1..] else before
  {
    KeptNewest(vs, ws);
    KeptStep(vs, ws, w);
    forall i | 0 <= i < |ws|
      ensures Newest(vs) <= ws[i].tid <= w.tid
    {
      assert i < |ws| - 1 ==> ws[i].tid <= ws[|ws| - 1].tid;
    }
  }

  /** A snapshot that no permitted overwrite straddles reads from the kept chain exactly
      what it would read from the full history. */
  lemma {:induction false} SnapshotReads(vs: seq<Version>, ws: seq<Write>, s: nat)
    requires Sorted(vs) && Ascending(vs, ws) && !Straddled(vs, ws, s)
    ensures ReadAt(Kept(vs, ws), s) == ReadAt(All(vs, ws), s)
  {
    if ws != [] {
      var n := |ws| - 1;
      var w, before := ws[n], Kept(vs, ws[..n]);
      if Straddled(vs, ws[..n], s) {
        StraddledPrefix(vs, ws, s);
      }
      assert !(ws[n].inPlace && Newest(Kept(vs, ws[..n])) <= s < ws[n].tid);
      SnapshotReads(vs, ws[..n], s);
      KeptNewest(vs, ws[..n]);
      assert All(vs, ws)[1..] == All(vs, ws[..n]);
      assert Kept(vs, ws)[1..] == if w.inPlace && before != [] then before[1..] else before;
    }
  }

  lemma StraddledPrefix(vs: seq<Version>, ws: seq<Write>, s: nat)
    requires ws != [] && Straddled(vs, ws[..|ws| - 1], s)
    ensures Straddled(vs, ws, s)
  {
    var n := |ws| - 1;
    var i :| 0 <= i < n && ws[..n][i].inPlace && Newest(Kept(vs, ws[..n][..i])) <= s < ws[..n][i].tid;
    assert ws[..n][..i] == ws[..i];
  }

  /** Tids that strictly climb, from above MIN_TID. */
  predicate Climbs(vs: seq<Version>, ws: seq<Write>) {
    && Strict(vs)
    && (forall i :: 0 <= i < |ws| ==> Newest(vs) < ws[i].tid)
    && (forall i, j :: 0 <= i < j < |ws| ==> ws[i].tid < ws[j].tid)
  }

  predicate Strict(vs: seq<Version>) {
    (forall i :: 0 <= i < |vs| ==> MIN_TID < vs[i].tid) && (forall i, j :: 0 <= i < j < |vs| ==> vs[j].tid < vs[i].tid)
  }

  lemma {:induction false} KeptStrict(vs: seq<Version>, ws: seq<Write>)
    requires vs != [] && Climbs(vs, ws)
    ensures Kept(vs, ws) != [] && Strict(Kept(vs, ws))
    ensures Newest(Kept(vs, ws)) == if ws == [] then Newest(vs) else ws[|ws| - 1].tid
  {
    if ws != [] {
      KeptStrict(vs, ws[..|ws| - 1]);
    }
  }

  lemma {:induction false} BelowHead(vs: seq<Version>, tid: nat, s: nat)
    requires MIN_TID < tid && forall i :: 0 <= i < |vs| ==> vs[i].tid < tid
    ensures ReadAt(vs, s).tid < tid
  {
    if vs != [] && vs[0].tid > s {
      BelowHead(vs[1..], tid, s);
    }
  }

  /** The overwrite that s straddles is the last write: the version s should see is gone. */
  lemma LostNow(vs: seq<Version>, ws: seq<Write>, s: nat)
    requires vs != [] && ws != [] && Climbs(vs, ws) && !Straddled(vs, ws[..|ws| - 1], s)
    requires ws[|ws| - 1].inPlace && Newest(Kept(vs, ws[..|ws| - 1])) <= s < ws[|ws| - 1].tid
    ensures ReadAt(Kept(vs, ws), s) != ReadAt(All(vs, ws), s)
  {
    var n := |ws| - 1;
    var before, w := Kept(vs, ws[..n]), Version(ws[n].tid, ws[n].value);
    ClimbsPrefix(vs, ws);
    KeptStrict(vs, ws[..n]);
    SnapshotReads(vs, ws[..n], s);
    ReadBelow(w, All(vs, ws[..n]), s);
    ReadBelow(w, before[1..], s);
    BelowHead(before[1..], before[0].tid, s);
  }

  lemma ClimbsPrefix(vs: seq<Version>, ws: seq<Write>)
    requires ws != [] && Climbs(vs, ws)
    ensures Climbs(vs, ws[..|ws| - 1])
  {}

  /** A snapshot that some write straddles is below the last write. */
  lemma BelowLast(vs: seq<Version>, ws: seq<Write>, s: nat)
    requires Climbs(vs, ws) && Straddled(vs, ws, s)
    ensures ws != [] && s < ws[|ws| - 1].tid
  {
    var i :| 0 <= i < |ws| && ws[i].inPlace && Newest(Kept(vs, ws[..i])) <= s < ws[i].tid;
    assert i < |ws| - 1 ==> ws[i].tid < ws[|ws| - 1].tid;
  }

  lemma ReadBelow(v: Version, vs: seq<Version>, s: nat)
    requires s < v.tid
    ensures ReadAt([v] + vs, s) == ReadAt(vs, s)
  {
    assert ([v] + vs)[1..] == vs;
  }

  /** Another write above the snapshot does not change what it reads. */
  lemma SameBelow(chain: seq<Version>, w: Write, s: nat)
    requires chain != [] && s < chain[0].tid && s < w.tid
    ensures ReadAt([Version(w.tid, w.value)] + if w.inPlace then chain[1..] else chain, s) == ReadAt(chain, s)
  {
    ReadBelow(Version(w.tid, w.value), if w.inPlace then chain[1..] else chain, s);
    assert ReadAt(chain, s) == ReadAt(chain[1..], s);
  }

  /** Later writes do not bring a lost version back. */
  lemma StaysLost(vs: seq<Version>, ws: seq<Write>, s: nat)
    requires vs != [] && ws != [] && Climbs(vs, ws) && Straddled(vs, ws[..|ws| - 1], s)
    ensures
      var before := ws[..|ws| - 1];
      ReadAt(Kept(vs, ws), s) == ReadAt(Kept(vs, before), s) && ReadAt(All(vs, ws), s) == ReadAt(All(vs, before), s)
  {
    var n := |ws| - 1;
    ClimbsPrefix(vs, ws);
    BelowLast(vs, ws[..n], s);
    KeptStrict(vs, ws[..n]);
    assert s < ws[n - 1].tid < ws[n].tid;
    SameBelow(Kept(vs, ws[..n]), ws[n], s);
    ReadBelow(Version(ws[n].tid, ws[n].value), All(vs, ws[..n]), s);
  }

  /** Exactly when a snapshot is served, for tids that strictly climb: it reads from the
      kept chain what the full history says if and only if no overwrite straddles it. */
  lemma {:induction false} ServedIffNotStraddled(vs: seq<Version>, ws: seq<Write>, s: nat)
    requires vs != [] && Climbs(vs, ws)
    ensures ReadAt(Kept(vs, ws), s) == ReadAt(All(vs, ws), s) <==> !Straddled(vs, ws, s)
  {
    if !Straddled(vs, ws, s) {
      SnapshotReads(vs, ws, s);
    } else {
      var n := |ws| - 1;
      ClimbsPrefix(vs, ws);
      if Straddled(vs, ws[..n], s) {
        ServedIffNotStraddled(vs, ws[..n], s);
        StaysLost(vs, ws, s);
      } else {
        LastStraddles(vs, ws, s);
        LostNow(vs, ws, s);
      }
    }
  }

  lemma LastStraddles(vs: seq<Version>, ws: seq<Write>, s: nat)
    requires Straddled(vs, ws, s) && ws != [] && !Straddled(vs, ws[..|ws| - 1], s)
    ensures var n := |ws| - 1; ws[n].inPlace && Newest(Kept(vs, ws[..n])) <= s < ws[n].tid
  {
    var i :| 0 <= i < |ws| && ws[i].inPlace && Newest(Kept(vs, ws[..i])) <= s < ws[i].tid;
    if i < |ws| - 1 {
      EarlierStraddles(vs, ws, s, i);
      assert false;
    }
  }

  lemma EarlierStraddles(vs: seq<Version>, ws: seq<Write>, s: nat, i: nat)
    requires i < |ws| - 1 && ws[i].inPlace && Newest(Kept(vs, ws[..i])) <= s < ws[i].tid
    ensures Straddled(vs, ws[..|ws| - 1], s)
  {
    var front := ws[..|ws| - 1];
    assert front[i] == ws[i] && front[..i] == ws[..i];
  }

  /** The condition is needed: a snapshot between a version and the write that replaced it
      has lost that version. */
  lemma StraddledReadIsLost(value: Bytes, other: Bytes)
    ensures
      var vs, ws := [Version(1, Some(value))], [Write(3, Some(other), true)];
      && Sorted(vs) && Ascending(vs, ws) && Straddled(vs, ws, 2)
      && ReadAt(All(vs, ws), 2) == Version(1, Some(value))
      && ReadAt(Kept(vs, ws), 2) == Version(MIN_TID, None)
  {
    var vs, ws := [Version(1, Some(value))], [Write(3, Some(other), true)];
    assert ws[..0] == [] && ws[0].inPlace && Newest(Kept(vs, ws[..0])) <= 2 < ws[0].tid;
    assert All(vs, ws)[1..] == vs;
    assert Kept(vs, ws)[1..] == [];
  }
}
