/** Range scans over one layer (search_range_at_layer). */
module BTreeScan {
  import opened Common
  import opened BTree
  import opened BTreeLayers
  import opened BTreeRow
  import BTreeInsert
  import BTreeRemove
  import Keys = BTreeKeys

  // ------------------------------------------------------------------ the row of leaves

  /** Neighbouring leaves: each holds the slices from its own minimum key up to that of the
      next leaf, the last one up to hi. */
  ghost predicate Row(ls: seq<Tree>, lo: nat, hi: nat)
    decreases |ls|
  {
    && ls != [] && ls[0].Leaf? && ls[0].minKey == lo
    && if |ls| == 1 then lo < hi && EntriesOk(ls[0].entries, lo, hi)
       else ls[1].Leaf? && lo < ls[1].minKey && EntriesOk(ls[0].entries, lo, ls[1].minKey) && Row(ls[1..], ls[1].minKey, hi)
  }

  lemma {:induction false} RowJoin(a: seq<Tree>, b: seq<Tree>, lo: nat, mid: nat, hi: nat)
    requires Row(a, lo, mid) && Row(b, mid, hi)
    ensures Row(a + b, lo, hi)
    decreases |a|
  {
    assert (a + b)[1..] == a[1..] + b;
    if |a| == 1 {
      assert a[1..] + b == b;
    } else {
      RowJoin(a[1..], b, a[1].minKey, mid, hi);
    }
  }

  lemma {:induction false} LeavesRow(t: Tree, h: nat, lo: nat, hi: nat, root: bool)
    requires WF(t, h, lo, hi, root) && lo < hi
    ensures Row(Leaves(t), lo, hi)
    decreases t, 0
  {
    if t.Internal? {
      KidsRow(t, h, lo, hi, root, 0);
      assert t.kids[0..] == t.kids;
    }
  }

  lemma {:induction false} KidsRow(t: Tree, h: nat, lo: nat, hi: nat, root: bool, i: nat)
    requires WF(t, h, lo, hi, root) && t.Internal? && i < |t.kids|
    ensures Row(LeavesOf(t.kids[i..]), Seps(t.keys, lo, hi)[i], hi)
    decreases t, 0, |t.kids| - i
  {
    var seps := Seps(t.keys, lo, hi);
    assert KidOk(t.kids[i], h, seps, i);
    SepsWithin(t.keys, lo, hi, i);
    LeavesRow(t.kids[i], h - 1, seps[i], seps[i + 1], false);
    assert t.kids[i..][1..] == t.kids[i + 1..];
    if i + 1 < |t.kids| {
      KidsRow(t, h, lo, hi, root, i + 1);
      RowJoin(Leaves(t.kids[i]), LeavesOf(t.kids[i + 1..]), seps[i], seps[i + 1], hi);
    } else {
      assert Leaves(t.kids[i]) + [] == Leaves(t.kids[i]);
    }
  }

  /** The entries of a row, in order. */
  function Flat(ls: seq<Tree>): seq<Slot> {
    if ls == [] then [] else (if ls[0].Leaf? then ls[0].entries else []) + Flat(ls[1..])
  }

  lemma {:induction false} FlatJoin(a: seq<Tree>, b: seq<Tree>)
    ensures Flat(a + b) == Flat(a) + Flat(b)
  {
    if a == [] {
      assert a + b == b;
    } else {
      FlatJoin(a[1..], b);
      assert (a + b)[1..] == a[1..] + b;
    }
  }

  /** The row holds exactly the entries of the tree. */
  lemma {:induction false} LeavesHold(t: Tree, e: Slot)
    ensures e in Flat(Leaves(t)) <==> In(e, t)
    decreases t, 0
  {
    match t
    case Leaf(_, es) => assert [t][1..] == [] && es + [] == es;
    case Internal(_, kids) =>
      KidsHold(kids, e);
      assert BTreeInsert.InKids(e, kids) <==> In(e, t);
  }

  lemma {:induction false} KidsHold(kids: seq<Tree>, e: Slot)
    ensures e in Flat(LeavesOf(kids)) <==> BTreeInsert.InKids(e, kids)
    decreases kids, 1
  {
    if kids != [] {
      LeavesHold(kids[0], e);
      KidsHold(kids[1..], e);
      FlatJoin(Leaves(kids[0]), LeavesOf(kids[1..]));
      BTreeInsert.InCutKids(kids, 1, e);
      assert kids[..1] == [kids[0]];
      BTreeRemove.InOne(kids[0], e);
    }
  }

  /** Left to right is ascending order. */
  lemma {:induction false} RowAscends(ls: seq<Tree>, lo: nat, hi: nat)
    requires Row(ls, lo, hi)
    ensures EntriesOk(Flat(ls), lo, hi) && lo < hi
    decreases |ls|
  {
    if |ls| == 1 {
      assert Flat(ls[1..]) == [] && ls[0].entries + [] == ls[0].entries;
    } else {
      RowAscends(ls[1..], ls[1].minKey, hi);
      BTreeRemove.JoinKeeps(ls[0].entries, Flat(ls[1..]), lo, ls[1].minKey, hi);
    }
  }

  // ------------------------------------------------------------------ what a scan should report

  datatype Pair = Pair(key: Key, value: Value)

  /** The key of a value's slot: the prefix buffer of the scan. */
  function KeyOf(e: Slot): Key
    requires e.payload.Val?
  {
    Keys.Bytes(e.slice, 8)[..if e.len < 8 then e.len else 8] + e.payload.suffix
  }

  predicate InRange(k: Key, lower: Key, upper: Option<Key>) {
    !Keys.Lex(k, lower) && (upper.Some? ==> Keys.Lex(k, upper.value))
  }

  /** The pairs of a row of slots whose keys are in [lower, upper), in order. */
  function Wanted(es: seq<Slot>, lower: Key, upper: Option<Key>): seq<Pair> {
    if es == [] then [] else Report(es[0], lower, upper) + Wanted(es[1..], lower, upper)
  }

  function Report(e: Slot, lower: Key, upper: Option<Key>): seq<Pair> {
    if e.payload.Val? && InRange(KeyOf(e), lower, upper) then [Pair(KeyOf(e), e.payload.value)] else []
  }

  /** The callback has been called with these pairs, in this order, and has always asked for
      more.  Its answer may depend on all the calls so far. */
  ghost predicate Went(calls: seq<Pair>, goOn: seq<Pair> -> bool) {
    forall i :: 0 < i <= |calls| ==> goOn(calls[..i])
  }

  /** The callback has ended the scan by its last answer. */
  ghost predicate Ended(calls: seq<Pair>, goOn: seq<Pair> -> bool) {
    calls != [] && !goOn(calls) && Went(calls[..|calls| - 1], goOn)
  }

  /** What the calls must be when `wanted` is to be reported: all of it, or a part of it up
      to the call that ended the scan. */
  ghost predicate Reported(calls: seq<Pair>, more: bool, wanted: seq<Pair>, goOn: seq<Pair> -> bool) {
    if more then calls == wanted && Went(calls, goOn) else calls <= wanted && Ended(calls, goOn)
  }

  lemma OneCall(calls: seq<Pair>, x: Pair, goOn: seq<Pair> -> bool)
    requires Went(calls, goOn)
    ensures goOn(calls + [x]) ==> Went(calls + [x], goOn)
    ensures !goOn(calls + [x]) ==> Ended(calls + [x], goOn)
  {
    var more := calls + [x];
    assert more[..|more|] == more && more[..|more| - 1] == calls;
    forall i | 0 < i <= |calls|
      ensures more[..i] == calls[..i]
    {
    }
  }

  lemma {:induction false} WantedJoin(a: seq<Slot>, b: seq<Slot>, lower: Key, upper: Option<Key>)
    ensures Wanted(a + b, lower, upper) == Wanted(a, lower, upper) + Wanted(b, lower, upper)
    decreases |a|
  {
    if a == [] {
      assert a + b == b;
    } else {
      WantedJoin(a[1..], b, lower, upper);
      assert (a + b)[1..] == a[1..] + b && (a + b)[0] == a[0];
      var r := Report(a[0], lower, upper);
      assert r + (Wanted(a[1..], lower, upper) + Wanted(b, lower, upper)) == r + Wanted(a[1..], lower, upper) + Wanted(b, lower, upper);
    }
  }

  // ------------------------------------------------------------------ the tests of the scan

  /** The filter on slices and lengths under which slots are copied out of a leaf. */
  predicate Copied(e: Slot, lower: Key, upper: Option<Key>) {
    && (e.slice > Keys.Slice(lower) || (e.slice == Keys.Slice(lower) && e.len >= Keys.Len(lower)))
    && (upper.Some? ==> e.slice <= Keys.Slice(upper.value))
  }

  /** The test for being before the start. */
  predicate Skipped(e: Slot, lower: Key)
    requires e.payload.Val?
  {
    e.slice == Keys.Slice(lower) &&
    if e.len <= 8 then e.len < |lower| else |lower| > 8 && Keys.Lex(e.payload.suffix, Keys.Shift(lower))
  }

  /** The test for being after the end, which ends the work on the leaf. */
  predicate Passed(e: Slot, upper: Option<Key>)
    requires e.payload.Val?
  {
    upper.Some? && e.slice == Keys.Slice(upper.value) &&
    if e.len == 9 then |upper.value| <= 8 || !Keys.Lex(e.payload.suffix, Keys.Shift(upper.value)) else e.len >= |upper.value|
  }

  ghost predicate Holds(e: Slot) { SlotOk(e) && e.payload.Val? && e.len <= 9 }

  lemma KeyOfStored(e: Slot)
    requires Holds(e)
    ensures Stored(e, KeyOf(e))
  {
    var k :| Stored(e, k);
    Keys.KeyFromParts(k);
  }

  /** Together the tests decide exactly whether the key is in the range. */
  lemma TestsAreRange(e: Slot, lower: Key, upper: Option<Key>)
    requires Holds(e)
    ensures !Copied(e, lower, upper) ==> !InRange(KeyOf(e), lower, upper)
    ensures Copied(e, lower, upper) ==> (InRange(KeyOf(e), lower, upper) <==> !Skipped(e, lower) && !Passed(e, upper))
    ensures Copied(e, lower, upper) && Passed(e, upper) ==> !Keys.Lex(KeyOf(e), upper.value)
  {
    var k := KeyOf(e);
    KeyOfStored(e);
    Keys.TreeOrderIsLex(k, lower);
    if upper.Some? {
      Keys.TreeOrderIsLex(k, upper.value);
    }
  }

  /** Slots in order have keys in lexicographic order. */
  lemma SlotsAscend(a: Slot, b: Slot)
    requires Holds(a) && Holds(b) && Less(a, b)
    ensures Keys.Lex(KeyOf(a), KeyOf(b))
  {
    KeyOfStored(a);
    KeyOfStored(b);
    Keys.TreeOrderIsLex(KeyOf(a), KeyOf(b));
  }

  // ------------------------------------------------------------------ the scan

  /** The slots copied out of a leaf. */
  function CopiedOf(es: seq<Slot>, lower: Key, upper: Option<Key>): (r: seq<Slot>)
    ensures forall e :: e in r ==> e in es && Copied(e, lower, upper)
  {
    if es == [] then []
    else CopiedOf(es[..|es| - 1], lower, upper) + if Copied(es[|es| - 1], lower, upper) then [es[|es| - 1]] else []
  }

  ghost predicate Good(es: seq<Slot>) { Ascending(es) && forall i :: 0 <= i < |es| ==> Holds(es[i]) }

  lemma {:induction false} CopiedGood(es: seq<Slot>, lower: Key, upper: Option<Key>)
    requires Good(es)
    ensures Good(CopiedOf(es, lower, upper))
    decreases |es|
  {
    if es != [] {
      var c, last := CopiedOf(es[..|es| - 1], lower, upper), es[|es| - 1];
      CopiedGood(es[..|es| - 1], lower, upper);
      var d := c + [last];
      forall i, j | 0 <= i < j < |d|
        ensures Less(d[i], d[j])
      {
        if j == |c| {
          CopiedBelow(es, lower, upper, c[i]);
        }
      }
      assert Holds(last) && Good(d);
      assert c + [] == c;
    }
  }

  lemma {:induction false} CopiedWanted(es: seq<Slot>, lower: Key, upper: Option<Key>)
    requires forall i :: 0 <= i < |es| ==> Holds(es[i])
    ensures Wanted(CopiedOf(es, lower, upper), lower, upper) == Wanted(es, lower, upper)
    decreases |es|
  {
    if es != [] {
      var front, last := es[..|es| - 1], es[|es| - 1];
      assert es == front + [last];
      CopiedWanted(front, lower, upper);
      WantedJoin(front, [last], lower, upper);
      WantedOne(last, lower, upper);
      if Copied(last, lower, upper) {
        WantedJoin(CopiedOf(front, lower, upper), [last], lower, upper);
      } else {
        TestsAreRange(last, lower, upper);
        assert Report(last, lower, upper) == [];
        assert CopiedOf(front, lower, upper) + [] == CopiedOf(front, lower, upper);
        assert Wanted(front, lower, upper) + [] == Wanted(front, lower, upper);
      }
    }
  }

  lemma WantedOne(e: Slot, lower: Key, upper: Option<Key>)
    ensures Wanted([e], lower, upper) == Report(e, lower, upper)
  {
    assert [e][1..] == [];
    assert Report(e, lower, upper) + [] == Report(e, lower, upper);
  }

  lemma CopiedBelow(es: seq<Slot>, lower: Key, upper: Option<Key>, x: Slot)
    requires Ascending(es) && es != [] && x in CopiedOf(es[..|es| - 1], lower, upper)
    ensures Less(x, es[|es| - 1])
  {
    assert x in es[..|es| - 1];
    var j :| 0 <= j < |es| - 1 && es[j] == x;
  }

  /** The loop that copies slots out of a leaf. */
  method CopyOut(es: seq<Slot>, lower: Key, upper: Option<Key>) returns (buf: seq<Slot>)
    ensures buf == CopiedOf(es, lower, upper)
  {
    buf := [];
    for i := 0 to |es|
      invariant buf == CopiedOf(es[..i], lower, upper)
    {
      assert es[..i + 1][..i] == es[..i];
      if Copied(es[i], lower, upper) {
        buf := buf + [es[i]];
      }
    }
    assert es[..|es|] == es;
  }

  /** Behind a slot at or above upper, nothing is wanted. */
  lemma {:induction false} NoneWanted(es: seq<Slot>, lower: Key, upper: Key)
    requires Good(es) && (es != [] ==> !Keys.Lex(KeyOf(es[0]), upper))
    ensures Wanted(es, lower, Some(upper)) == []
    decreases |es|
  {
    if |es| > 1 {
      SlotsAscend(es[0], es[1]);
      Keys.LexTotal(KeyOf(es[0]), upper);
      LexChain(upper, KeyOf(es[0]), KeyOf(es[1]));
      NoneWanted(es[1..], lower, upper);
    } else if |es| == 1 {
      assert es[1..] == [];
    }
  }

  /** upper <= a < b implies upper <= b. */
  lemma {:induction false} LexChain(u: Key, a: Key, b: Key)
    requires !Keys.Lex(a, u) && Keys.Lex(a, b)
    ensures !Keys.Lex(b, u)
    decreases |u|
  {
    if u != [] && b != [] && a != [] && b[0] == u[0] && a[0] == u[0] {
      LexChain(u[1..], a[1..], b[1..]);
    }
  }

  /** The work on one leaf.  `last` is the slot reported last, if any: a slot not above it
      would be passed over, which never happens in a scan of one layer.  Returns false when
      the callback ended the scan. */
  method ScanLeaf(es: seq<Slot>, lower: Key, upper: Option<Key>, goOn: seq<Pair> -> bool, calls: seq<Pair>, last: Option<Slot>)
    returns (calls': seq<Pair>, more: bool, last': Option<Slot>)
    requires Good(es) && AllAbove(last, es) && Went(calls, goOn)
    ensures Reported(calls', more, calls + Wanted(es, lower, upper), goOn)
    ensures LastAfter(last, es, last')
  {
    var buf := CopyOut(es, lower, upper);
    CopiedGood(es, lower, upper);
    CopiedWanted(es, lower, upper);
    CopiedAbove(es, lower, upper, last);
    BufferReady(buf, lower, upper);
    calls', more, last' := ScanBuffer(buf, lower, upper, goOn, calls, last);
  }

  datatype Verdict = Skip | Stop | Emit(pair: Pair)

  /** The tests on one slot. */
  function Judge(e: Slot, lower: Key, upper: Option<Key>): Verdict
    requires e.payload.Val?
  {
    if Skipped(e, lower) then Skip else if Passed(e, upper) then Stop else Emit(Pair(KeyOf(e), e.payload.value))
  }

  /** The verdict on slot i of a buffer is right for it and, if it ends the work, for all
      that follow. */
  ghost predicate JudgedOk(buf: seq<Slot>, i: nat, lower: Key, upper: Option<Key>)
    requires i < |buf|
  {
    buf[i].payload.Val? &&
    match Judge(buf[i], lower, upper)
    case Skip => Report(buf[i], lower, upper) == []
    case Stop => Wanted(buf[i..], lower, upper) == []
    case Emit(pair) => Report(buf[i], lower, upper) == [pair]
  }

  lemma BufferReady(buf: seq<Slot>, lower: Key, upper: Option<Key>)
    requires Good(buf) && forall e :: e in buf ==> Copied(e, lower, upper)
    ensures forall i :: 0 <= i < |buf| ==> JudgedOk(buf, i, lower, upper)
    ensures Ascending(buf)
  {
    forall i | 0 <= i < |buf|
      ensures JudgedOk(buf, i, lower, upper)
    {
      assert Holds(buf[i]) && buf[i] in buf;
      TestsAreRange(buf[i], lower, upper);
      if Judge(buf[i], lower, upper).Stop? {
        NoneWanted(buf[i..], lower, upper.value);
      }
    }
  }

  /** The loop over the copied slots. */
  method ScanBuffer(buf: seq<Slot>, lower: Key, upper: Option<Key>, goOn: seq<Pair> -> bool, calls: seq<Pair>, last: Option<Slot>)
    returns (calls': seq<Pair>, more: bool, last': Option<Slot>)
    requires Ascending(buf) && AllAbove(last, buf) && Went(calls, goOn)
    requires forall i :: 0 <= i < |buf| ==> JudgedOk(buf, i, lower, upper)
    ensures Reported(calls', more, calls + Wanted(buf, lower, upper), goOn)
    ensures LastAfter(last, buf, last')
  {
    calls', last', more := calls, last, true;
    ghost var all := calls + Wanted(buf, lower, upper);
    assert buf[0..] == buf;
    for i := 0 to |buf|
      invariant more && Went(calls', goOn) && all == calls' + Wanted(buf[i..], lower, upper)
      invariant LastAfter(last, buf, last')
      invariant last'.Some? ==> forall j :: i <= j < |buf| ==> Less(last'.value, buf[j])
    {
      JudgedNext(buf, i, lower, upper, calls', all);
      if last'.None? || Less(last'.value, buf[i]) {
        var r := Judge(buf[i], lower, upper);
        if r.Stop? {
          return;
        }
        if r.Emit? {
          OneCall(calls', r.pair, goOn);
          calls' := calls' + [r.pair];
          if !goOn(calls') {
            more := false;
            return;
          }
          last' := Some(buf[i]);
        }
      }
    }
  }

  lemma {:induction false} JudgedNext(buf: seq<Slot>, i: nat, lower: Key, upper: Option<Key>, calls: seq<Pair>, all: seq<Pair>)
    requires i < |buf| && JudgedOk(buf, i, lower, upper) && all == calls + Wanted(buf[i..], lower, upper)
    ensures buf[i].payload.Val?
    ensures
      match Judge(buf[i], lower, upper)
      case Skip => all == calls + Wanted(buf[i + 1..], lower, upper)
      case Stop => all == calls
      case Emit(pair) => all == calls + [pair] + Wanted(buf[i + 1..], lower, upper)
  {
    assert buf[i..][1..] == buf[i + 1..];
  }

  predicate AllAbove(last: Option<Slot>, es: seq<Slot>) {
    last.Some? ==> forall i :: 0 <= i < |es| ==> Less(last.value, es[i])
  }

  lemma CopiedAbove(es: seq<Slot>, lower: Key, upper: Option<Key>, last: Option<Slot>)
    requires AllAbove(last, es)
    ensures AllAbove(last, CopiedOf(es, lower, upper))
  {
    var c := CopiedOf(es, lower, upper);
    forall i | 0 <= i < |c|
      ensures last.Some? ==> Less(last.value, c[i])
    {
      assert c[i] in es;
    }
  }

  // ------------------------------------------------------------------ the whole row

  ghost predicate RowGood(ls: seq<Tree>) {
    forall i :: 0 <= i < |ls| ==> ls[i].Leaf? && Good(ls[i].entries)
  }

  /** Nothing is wanted from slots whose slices are all beyond the range. */
  lemma {:induction false} BeyondUpper(es: seq<Slot>, lower: Key, upper: Key)
    requires Good(es) && (es != [] ==> es[0].slice > Keys.Slice(upper))
    ensures Wanted(es, lower, Some(upper)) == []
  {
    if es != [] {
      KeyOfStored(es[0]);
      Keys.TreeOrderIsLex(KeyOf(es[0]), upper);
      NoneWanted(es, lower, upper);
    }
  }

  lemma ReportedPart(calls: seq<Pair>, a: seq<Pair>, b: seq<Pair>, goOn: seq<Pair> -> bool)
    requires Reported(calls, false, a, goOn)
    ensures Reported(calls, false, a + b, goOn)
  {}

  /** What is left of a row during a scan, and the slot reported last. */
  ghost predicate Ahead(ls: seq<Tree>, hi: nat, last: Option<Slot>) {
    ls != [] ==> ls[0].Leaf? && Row(ls, ls[0].minKey, hi) && RowGood(ls) && LastBelow(last, ls[0].minKey)
  }

  predicate LastBelow(last: Option<Slot>, m: nat) { last.Some? ==> last.value.slice < m }

  /** The slot reported last after a leaf: the one before it or one of the leaf. */
  predicate LastAfter(last: Option<Slot>, es: seq<Slot>, last': Option<Slot>) {
    last' == last || (last'.Some? && last'.value in es)
  }

  lemma LeafAhead(ls: seq<Tree>, hi: nat, last: Option<Slot>, lower: Key, upper: Option<Key>)
    requires ls != [] && Ahead(ls, hi, last)
    ensures Good(ls[0].entries) && AllAbove(last, ls[0].entries)
    ensures Wanted(Flat(ls), lower, upper) == Wanted(ls[0].entries, lower, upper) + Wanted(Flat(ls[1..]), lower, upper)
  {
    forall i | 0 <= i < |ls[0].entries|
      ensures ls[0].minKey <= ls[0].entries[i].slice
    {
      assert Fits(ls[0].entries[i], ls[0].minKey, if |ls| > 1 then ls[1].minKey else hi);
    }
    WantedJoin(ls[0].entries, Flat(ls[1..]), lower, upper);
  }

  lemma RestAhead(ls: seq<Tree>, hi: nat, last: Option<Slot>, last': Option<Slot>)
    requires ls != [] && Ahead(ls, hi, last) && LastAfter(last, ls[0].entries, last')
    ensures Ahead(ls[1..], hi, last')
  {
    var rest := ls[1..];
    if rest != [] {
      assert rest[0] == ls[1];
      forall e | e in ls[0].entries
        ensures e.slice < ls[1].minKey
      {
        var i :| 0 <= i < |ls[0].entries| && ls[0].entries[i] == e;
        assert Fits(ls[0].entries[i], ls[0].minKey, ls[1].minKey);
      }
      assert RowGood(rest);
    }
  }

  /** A scan that is to report `all` has made the calls it should before the leaves left. */
  ghost predicate Midway(ls: seq<Tree>, hi: nat, last: Option<Slot>, calls: seq<Pair>, all: seq<Pair>,
                         lower: Key, upper: Option<Key>, goOn: seq<Pair> -> bool)
  {
    Went(calls, goOn) && all == calls + Wanted(Flat(ls), lower, upper) && Ahead(ls, hi, last)
  }

  /** One round of the loop over the leaves. */
  method ScanNext(ls: seq<Tree>, ghost hi: nat, last: Option<Slot>, calls: seq<Pair>, ghost all: seq<Pair>,
                  lower: Key, upper: Option<Key>, goOn: seq<Pair> -> bool)
    returns (calls': seq<Pair>, more: bool, last': Option<Slot>)
    requires ls != [] && Midway(ls, hi, last, calls, all, lower, upper, goOn)
    ensures more ==> Midway(ls[1..], hi, last', calls', all, lower, upper, goOn)
    ensures !more ==> Reported(calls', false, all, goOn)
  {
    LeafAhead(ls, hi, last, lower, upper);
    ghost var first := calls + Wanted(ls[0].entries, lower, upper);
    assert all == first + Wanted(Flat(ls[1..]), lower, upper);
    calls', more, last' := ScanLeaf(ls[0].entries, lower, upper, goOn, calls, last);
    if more {
      RestAhead(ls, hi, last, last');
    } else {
      ReportedPart(calls', first, Wanted(Flat(ls[1..]), lower, upper), goOn);
    }
  }

  /** search_range_at_layer from the leaf that is responsible for the lower bound; ls is
      that leaf and those to its right. */
  method ScanRow(ls: seq<Tree>, ghost hi: nat, lower: Key, upper: Option<Key>, goOn: seq<Pair> -> bool)
    returns (calls: seq<Pair>, more: bool)
    requires ls != [] && Ahead(ls, hi, None) && (upper.Some? ==> Keys.Slice(lower) <= Keys.Slice(upper.value))
    ensures Reported(calls, more, Wanted(Flat(ls), lower, upper), goOn)
  {
    calls, more := [], true;
    var rest, last: Option<Slot>, nextKey := ls, None, Keys.Slice(lower);
    ghost var all := Wanted(Flat(ls), lower, upper);
    assert [] + all == all;
    while rest != [] && (upper.None? || nextKey <= Keys.Slice(upper.value))
      invariant more && Midway(rest, hi, last, calls, all, lower, upper, goOn)
      invariant rest != [] && upper.Some? && nextKey > Keys.Slice(upper.value) ==> rest[0].Leaf? && rest[0].minKey > Keys.Slice(upper.value)
      decreases |rest|
    {
      calls, more, last := ScanNext(rest, hi, last, calls, all, lower, upper, goOn);
      if !more {
        return;
      }
      rest := rest[1..];
      if rest != [] {
        nextKey := rest[0].minKey;
      }
    }
    if rest != [] {
      RestBeyond(rest, rest[0].minKey, hi, lower, upper.value);
    }
  }

  lemma {:induction false} FlatGood(ls: seq<Tree>, lo: nat, hi: nat)
    requires Row(ls, lo, hi) && RowGood(ls)
    ensures Good(Flat(ls)) && (Flat(ls) != [] ==> lo <= Flat(ls)[0].slice)
    decreases |ls|
  {
    RowAscends(ls, lo, hi);
    assert Flat(ls) != [] ==> Fits(Flat(ls)[0], lo, hi);
    if |ls| > 1 {
      FlatGood(ls[1..], ls[1].minKey, hi);
    } else {
      assert Flat(ls[1..]) == [];
    }
  }

  lemma RestBeyond(ls: seq<Tree>, lo: nat, hi: nat, lower: Key, upper: Key)
    requires Row(ls, lo, hi) && RowGood(ls) && lo > Keys.Slice(upper)
    ensures Wanted(Flat(ls), lower, Some(upper)) == []
  {
    FlatGood(ls, lo, hi);
    BeyondUpper(Flat(ls), lower, upper);
  }

  // ------------------------------------------------------------------ the whole tree

  /** A row from any of its leaves on, and what is before that leaf. */
  lemma {:induction false} RowFrom(ls: seq<Tree>, lo: nat, hi: nat, r: nat)
    requires Row(ls, lo, hi) && r < |ls|
    ensures ls[r].Leaf? && Row(ls[r..], ls[r].minKey, hi) && lo <= ls[r].minKey
    ensures forall e :: e in Flat(ls[..r]) ==> e.slice < ls[r].minKey
    decreases r
  {
    if r == 0 {
      assert ls[0..] == ls && ls[..0] == [];
    } else {
      RowFrom(ls[1..], ls[1].minKey, hi, r - 1);
      var a, b := ls[..r], ls[1..];
      assert b[r - 1..] == ls[r..] && a[1..] == b[..r - 1] && a[0] == ls[0] && b[r - 1] == ls[r];
      forall e | e in Flat(a)
        ensures e.slice < ls[r].minKey
      {
        if e in ls[0].entries {
          var i :| 0 <= i < |ls[0].entries| && ls[0].entries[i] == e;
          assert Fits(ls[0].entries[i], lo, ls[1].minKey);
        }
      }
    }
  }

  /** Nothing is wanted from slots whose slices are all below the range. */
  lemma {:induction false} BelowLower(es: seq<Slot>, lower: Key, upper: Option<Key>)
    requires forall i :: 0 <= i < |es| ==> Holds(es[i]) && es[i].slice < Keys.Slice(lower)
    ensures Wanted(es, lower, upper) == []
  {
    if es != [] {
      KeyOfStored(es[0]);
      Keys.TreeOrderIsLex(KeyOf(es[0]), lower);
      BelowLower(es[1..], lower, upper);
    }
  }

  /** No slot of the tree is the root of a further layer. */
  ghost predicate OneLayer(t: Tree) { TreeOk(t) && forall e :: In(e, t) ==> e.payload.Val? }

  lemma {:induction false} RowIsGood(ls: seq<Tree>, lo: nat, hi: nat)
    requires Row(ls, lo, hi) && forall e :: e in Flat(ls) ==> Holds(e)
    ensures RowGood(ls)
    decreases |ls|
  {
    forall i | 0 <= i < |ls[0].entries|
      ensures Holds(ls[0].entries[i])
    {
      assert ls[0].entries[i] in Flat(ls);
    }
    if |ls| > 1 {
      RowIsGood(ls[1..], ls[1].minKey, hi);
      assert forall i :: 0 < i < |ls| ==> ls[i] == ls[1..][i - 1];
    }
  }

  lemma TreeRow(t: Tree)
    requires OneLayer(t)
    ensures Row(Leaves(t), 0, TOP) && RowGood(Leaves(t))
    ensures Good(Flat(Leaves(t))) && forall e :: e in Flat(Leaves(t)) <==> In(e, t)
  {
    var ls := Leaves(t);
    LeavesRow(t, Height(t), 0, TOP, true);
    forall e
      ensures e in Flat(ls) <==> In(e, t)
      ensures e in Flat(ls) ==> Holds(e)
    {
      LeavesHold(t, e);
      if In(e, t) {
        SlotOfTree(t, e);
        BTree.InRange(t, Height(t), 0, TOP, true, e);
      }
    }
    RowIsGood(ls, 0, TOP);
    FlatGood(ls, 0, TOP);
  }

  /** The leaves before the one a scan starts in hold nothing it wants. */
  lemma StartIsEnough(t: Tree, lower: Key, upper: Option<Key>)
    requires OneLayer(t)
    ensures
      var ls, r := Leaves(t), Start(t, Keys.Slice(lower));
      r < |ls| && Ahead(ls[r..], TOP, None) && Wanted(Flat(ls[r..]), lower, upper) == Wanted(Flat(ls), lower, upper)
  {
    var ls, r := Leaves(t), Start(t, Keys.Slice(lower));
    TreeRow(t);
    Keys.SliceBelow(lower);
    StartLeaf(t, Height(t), 0, TOP, true, Keys.Slice(lower));
    RowFrom(ls, 0, TOP, r);
    assert ls == ls[..r] + ls[r..];
    FlatJoin(ls[..r], ls[r..]);
    WantedJoin(Flat(ls[..r]), Flat(ls[r..]), lower, upper);
    forall i | 0 <= i < |Flat(ls[..r])|
      ensures Holds(Flat(ls[..r])[i]) && Flat(ls[..r])[i].slice < Keys.Slice(lower)
    {
      assert Flat(ls[..r])[i] == Flat(ls)[i] && Flat(ls[..r])[i] in Flat(ls[..r]);
    }
    BelowLower(Flat(ls[..r]), lower, upper);
  }

  lemma {:induction false} NothingBetween(es: seq<Slot>, lower: Key, upper: Key)
    requires !Keys.Lex(lower, upper)
    ensures Wanted(es, lower, Some(upper)) == []
  {
    if es != [] {
      NothingBetween(es[1..], lower, upper);
      if es[0].payload.Val? {
        Between(KeyOf(es[0]), lower, upper);
      }
    }
  }

  lemma {:induction false} Between(k: Key, lower: Key, upper: Key)
    requires !Keys.Lex(lower, upper)
    ensures !InRange(k, lower, Some(upper))
    decreases |k|
  {
    if k != [] && lower != [] && upper != [] && k[0] == lower[0] && k[0] == upper[0] {
      Between(k[1..], lower[1..], upper[1..]);
    }
  }

  /** search_range_call: the callback is called for exactly the pairs of the tree with keys
      in [lower, upper), in ascending order, until it asks to stop. */
  method SearchRange(t: Tree, lower: Key, upper: Option<Key>, goOn: seq<Pair> -> bool) returns (calls: seq<Pair>, more: bool)
    requires OneLayer(t)
    ensures Reported(calls, more, Wanted(Flat(Leaves(t)), lower, upper), goOn)
  {
    if upper.Some? && !Keys.Lex(lower, upper.value) {
      NothingBetween(Flat(Leaves(t)), lower, upper.value);
      return [], true;
    }
    if upper.Some? {
      Keys.TreeOrderIsLex(lower, upper.value);
    }
    StartIsEnough(t, lower, upper);
    calls, more := ScanRow(Leaves(t)[Start(t, Keys.Slice(lower))..], TOP, lower, upper, goOn);
  }

  lemma {:induction false} WantedIn(es: seq<Slot>, lower: Key, upper: Option<Key>, x: Pair)
    ensures x in Wanted(es, lower, upper) <==>
            exists i :: 0 <= i < |es| && x in Report(es[i], lower, upper)
  {
    if es != [] {
      WantedIn(es[1..], lower, upper, x);
      if x in Wanted(es[1..], lower, upper) {
        var i :| 0 <= i < |es[1..]| && x in Report(es[1..][i], lower, upper);
        assert es[i + 1] == es[1..][i];
      }
      if i :| 0 <= i < |es| && x in Report(es[i], lower, upper) {
        assert i > 0 ==> es[i] == es[1..][i - 1];
      }
    }
  }

  lemma SlotReports(e: Slot, t: Tree, lower: Key, upper: Option<Key>, k: Key, v: Value)
    requires Holds(e) && In(e, t) && Pair(k, v) in Report(e, lower, upper)
    ensures Binds(t, k, v) && InRange(k, lower, upper)
  {
    KeyOfStored(e);
    assert For(e, k) && Gives(e, k, v);
  }

  lemma SlotIsReported(e: Slot, lower: Key, upper: Option<Key>, k: Key, v: Value)
    requires Holds(e) && For(e, k) && Gives(e, k, v) && InRange(k, lower, upper)
    ensures Pair(k, v) in Report(e, lower, upper)
  {
    KeyOfStored(e);
    Keys.KeyUnique(k, KeyOf(e));
  }

  lemma WantedBinds(es: seq<Slot>, t: Tree, lower: Key, upper: Option<Key>, k: Key, v: Value)
    requires forall i :: 0 <= i < |es| ==> Holds(es[i]) && In(es[i], t)
    requires Pair(k, v) in Wanted(es, lower, upper)
    ensures Binds(t, k, v) && InRange(k, lower, upper)
  {
    WantedIn(es, lower, upper, Pair(k, v));
    var i :| 0 <= i < |es| && Pair(k, v) in Report(es[i], lower, upper);
    SlotReports(es[i], t, lower, upper, k, v);
  }

  lemma BoundIsWanted(es: seq<Slot>, e: Slot, lower: Key, upper: Option<Key>, k: Key, v: Value)
    requires e in es && Holds(e) && For(e, k) && Gives(e, k, v) && InRange(k, lower, upper)
    ensures Pair(k, v) in Wanted(es, lower, upper)
  {
    SlotIsReported(e, lower, upper, k, v);
    WantedIn(es, lower, upper, Pair(k, v));
  }

  /** What a scan should report is what the tree binds within the range, ... */
  lemma {:induction false} WantedIsBinds(t: Tree, lower: Key, upper: Option<Key>, k: Key, v: Value)
    requires OneLayer(t)
    ensures Pair(k, v) in Wanted(Flat(Leaves(t)), lower, upper) <==> Binds(t, k, v) && InRange(k, lower, upper)
  {
    TreeRow(t);
    var es := Flat(Leaves(t));
    assert forall i :: 0 <= i < |es| ==> es[i] in es;
    if Pair(k, v) in Wanted(es, lower, upper) {
      WantedBinds(es, t, lower, upper, k, v);
    }
    if Binds(t, k, v) && InRange(k, lower, upper) {
      var e :| In(e, t) && For(e, k) && Gives(e, k, v);
      assert e in es && exists i :: 0 <= i < |es| && es[i] == e;
      BoundIsWanted(es, e, lower, upper, k, v);
    }
  }

  predicate KeysAscend(ps: seq<Pair>) { forall i, j :: 0 <= i < j < |ps| ==> Keys.Lex(ps[i].key, ps[j].key) }

  lemma {:induction false} WantedAbove(e: Slot, es: seq<Slot>, lower: Key, upper: Option<Key>, x: Pair)
    requires Holds(e) && Good([e] + es) && x in Wanted(es, lower, upper)
    ensures Keys.Lex(KeyOf(e), x.key)
  {
    WantedIn(es, lower, upper, x);
    var i :| 0 <= i < |es| && x in Report(es[i], lower, upper);
    var all := [e] + es;
    assert all[0] == e && all[i + 1] == es[i];
    SlotsAscend(all[0], all[i + 1]);
  }

  lemma AscendsFrom(x: Pair, ps: seq<Pair>)
    requires KeysAscend(ps) && forall p :: p in ps ==> Keys.Lex(x.key, p.key)
    ensures KeysAscend([x] + ps)
  {}

  /** ... in strictly ascending order of the keys. */
  lemma {:induction false} WantedAscends(es: seq<Slot>, lower: Key, upper: Option<Key>)
    requires Good(es)
    ensures KeysAscend(Wanted(es, lower, upper))
    decreases |es|
  {
    if es != [] {
      var rest := Wanted(es[1..], lower, upper);
      WantedAscends(es[1..], lower, upper);
      assert es == [es[0]] + es[1..];
      forall x | x in rest
        ensures Keys.Lex(KeyOf(es[0]), x.key)
      {
        WantedAbove(es[0], es[1..], lower, upper, x);
      }
      AscendsFrom(Pair(KeyOf(es[0]), es[0].payload.value), rest);
      assert [] + rest == rest;
    }
  }
}
