/** The multi-version tuple of silo/tuple.h: a header, a value buffer and a chain of older
    versions, written in place or by growing the chain. */
module Tuple {
  import opened Common
  import opened TupleHistory

  /** The tuple writer callback: the new bytes as a function of the old ones, and whether
      it reads the old ones at all. */
  datatype Writer = Writer(needsOld: bool, f: Bytes -> Bytes)

  ghost predicate WriterOk(w: Writer) {
    && (forall x :: w.f(x) != [])
    && (!w.needsOld ==> forall x, y :: w.f(x) == w.f(y))
  }

  /** The value a write leaves: the writer applied to the old value, or a deletion. */
  function NewValue(v: Option<Writer>, was: Option<Bytes>): Option<Bytes> {
    if v.None? then None else Some(v.value.f(if was.Some? then was.value else []))
  }

  method CopyInto(dst: array<bv8>, src: seq<bv8>)
    requires |src| <= dst.Length
    modifies dst
    ensures dst[..] == src + old(dst[|src|..])
  {
    for i := 0 to |src|
      invariant dst[..i] == src[..i]
      invariant dst[i..] == old(dst[i..])
    {
      dst[i] := src[i];
    }
  }

  class DbTuple {
    var version: nat
    var size: nat
    const buf: array<bv8>       // value_start, of alloc_size bytes
    var deleting: bool
    var latest: bool
    var next: DbTuple?

    constructor (version: nat, size: nat, alloc: nat, next: DbTuple?, latest: bool)
      requires size <= alloc
      ensures this.version == version && this.size == size && this.next == next && this.latest == latest
      ensures buf.Length == alloc && fresh(buf) && deleting == (size == 0)
    {
      this.version, this.size, this.next, this.latest := version, size, next, latest;
      deleting := size == 0;
      buf := new bv8[alloc];
    }

    predicate Ok()
      reads this
    {
      size <= buf.Length && (deleting <==> size == 0)
    }

    function Bytes(): TupleHistory.Bytes
      requires Ok()
      reads this, buf
    {
      buf[..size]
    }

    function Current(): Version
      requires Ok()
      reads this, buf
    {
      Version(version, if deleting then None else Some(buf[..size]))
    }
  }

  function Buffers(c: seq<DbTuple>): set<object> { set x | x in c :: x.buf }

  /** c is the chain of versions from c[0], newest first, with no memory shared. */
  ghost predicate Linked(c: seq<DbTuple>)
    reads c
  {
    c != [] ==>
      && c[0].Ok() && c[0] !in c[1..] && c[0].buf !in Buffers(c[1..])
      && c[0].next == (if |c| > 1 then c[1] else null)
      && Linked(c[1..])
  }

  ghost function Versions(c: seq<DbTuple>): seq<Version>
    requires Linked(c)
    reads c, Buffers(c)
  {
    if c == [] then [] else [c[0].Current()] + Versions(c[1..])
  }

  predicate NoneLatest(c: seq<DbTuple>)
    reads c
  {
    forall x :: x in c ==> !x.latest
  }

  /** record_at and record_at_chain: the walk from the head of the chain. */
  method RecordAt(head: DbTuple, ghost c: seq<DbTuple>, t: nat) returns (start: nat, value: Option<Bytes>)
    requires Linked(c) && c != [] && c[0] == head
    ensures
      Version(start, value) ==
      if head.version == MAX_TID then Version(MIN_TID, None) else ReadAt(Versions(c), t)
  {
    if head.version == MAX_TID {
      return MIN_TID, None;
    }
    var current: DbTuple? := head;
    ghost var rest := c;
    while current != null
      invariant Linked(rest) && current == if rest == [] then null else rest[0]
      invariant ReadAt(Versions(rest), t) == ReadAt(Versions(c), t)
      decreases |rest|
    {
      if current.version <= t {
        return current.version, if current.deleting then None else Some(current.Bytes());
      }
      assert Versions(rest)[1..] == Versions(rest[1..]);
      current := current.next;
      rest := rest[1..];
    }
    return MIN_TID, None;
  }

  /** alloc_spill and the write that follows it: a new head in front of the tuple, holding
      the writer's result.  The old value is copied in only if the writer reads it. */
  method SpillHead(tuple: DbTuple, t: nat, v: Option<Writer>, oldSize: nat, newSize: nat) returns (rep: DbTuple)
    requires tuple.Ok() && (v.Some? ==> WriterOk(v.value))
    requires oldSize == tuple.size && newSize == if v.Some? then |v.value.f(tuple.Bytes())| else 0
    ensures fresh(rep) && fresh(rep.buf) && rep.Ok() && rep.latest && rep.next == tuple
    ensures rep.Current() == Version(t, NewValue(v, tuple.Current().value))
  {
    var needsOld := v.Some? && v.value.needsOld;
    var needed := if needsOld && oldSize > newSize then oldSize else newSize;
    var capacity :| capacity >= needed;
    rep := new DbTuple(t, newSize, capacity, tuple, true);
    if needsOld {
      CopyInto(rep.buf, tuple.Bytes());
      assert rep.buf[..oldSize] == tuple.Bytes();
    }
    if v.Some? {
      var bytes := v.value.f(if needsOld then rep.buf[..oldSize] else []);
      assert bytes == v.value.f(tuple.Bytes());
      CopyInto(rep.buf, bytes);
      assert rep.buf[..newSize] == bytes;
    }
  }

  /** alloc: a copy of the tuple, with the same tail of older versions. */
  method SpillCopy(tuple: DbTuple) returns (spill: DbTuple)
    requires tuple.Ok()
    ensures fresh(spill) && fresh(spill.buf) && spill.Ok() && !spill.latest && spill.next == tuple.next
    ensures spill.Current() == tuple.Current()
  {
    var capacity :| capacity >= tuple.size;
    spill := new DbTuple(tuple.version, tuple.size, capacity, tuple.next, false);
    CopyInto(spill.buf, tuple.Bytes());
    assert spill.buf[..tuple.size] == tuple.Bytes();
  }

  /** The in-place write shared by two of the four paths. */
  method WriteHere(tuple: DbTuple, t: nat, v: Option<Writer>, newSize: nat)
    requires tuple.Ok() && !tuple.deleting && (v.Some? ==> WriterOk(v.value))
    requires newSize == (if v.Some? then |v.value.f(tuple.Bytes())| else 0) && newSize <= tuple.buf.Length
    modifies tuple`version, tuple`size, tuple`deleting, tuple.buf
    ensures tuple.Ok() && tuple.Current() == Version(t, NewValue(v, old(tuple.Current()).value))
  {
    if v.Some? {
      var bytes := v.value.f(tuple.Bytes());
      CopyInto(tuple.buf, bytes);
      assert tuple.buf[..newSize] == bytes;
    }
    tuple.version, tuple.size := t, newSize;
    if newSize == 0 {
      tuple.deleting := true;
    }
  }

  /** Two of the four paths put a new head in front of the whole chain. */
  method ReplaceHead(tuple: DbTuple, ghost c: seq<DbTuple>, t: nat, v: Option<Writer>, oldSize: nat, newSize: nat)
    returns (head: DbTuple, ghost after: seq<DbTuple>)
    requires Linked(c) && c != [] && c[0] == tuple && NoneLatest(c[1..]) && (v.Some? ==> WriterOk(v.value))
    requires oldSize == tuple.size && newSize == if v.Some? then |v.value.f(tuple.Bytes())| else 0
    modifies tuple`latest
    ensures fresh(head) && head.latest && after == [head] + c && Linked(after) && NoneLatest(c)
    ensures Versions(after) == [Version(t, NewValue(v, old(tuple.Current()).value))] + old(Versions(c))
  {
    head := SpillHead(tuple, t, v, oldSize, newSize);
    after := [head] + c;
    forall x | x in c
      ensures x != head && x.buf != head.buf
    {
    }
    tuple.latest := false;
    assert after[1..] == c;
  }

  /** One path first links a copy of the tuple in behind it. */
  method CopyBehind(tuple: DbTuple, ghost c: seq<DbTuple>) returns (spill: DbTuple, ghost rest: seq<DbTuple>)
    requires Linked(c) && c != [] && c[0] == tuple && NoneLatest(c[1..])
    modifies tuple`next
    ensures fresh(spill) && fresh(spill.buf) && rest == [spill] + c[1..]
    ensures Linked([tuple] + rest) && Linked(rest) && NoneLatest(rest)
    ensures Versions(rest) == old(Versions(c))
  {
    spill := SpillCopy(tuple);
    rest := [spill] + c[1..];
    forall x | x in c
      ensures x != spill && x.buf != spill.buf
    {
    }
    tuple.next := spill;
    assert rest[1..] == c[1..];
    assert ([tuple] + rest)[1..] == rest;
  }

  /** write_record_at.  `canOverwrite` is can_overwrite_record_tid(version, t).

      On every path the new head holds the writer's result on the old value.  Only when
      overwriting is allowed, the record is not deleted and the result fits is the old
      version dropped; otherwise the whole chain stays behind the new version. */
  method WriteRecordAt(tuple: DbTuple, ghost c: seq<DbTuple>, t: nat, v: Option<Writer>, canOverwrite: bool)
    returns (head: DbTuple, rest: DbTuple?, forcedSpill: bool, ghost after: seq<DbTuple>)
    requires Linked(c) && c != [] && c[0] == tuple && tuple.latest && NoneLatest(c[1..])
    requires v.Some? ==> WriterOk(v.value)
    modifies tuple, tuple.buf
    ensures Linked(after) && after != [] && after[0] == head && head.latest && NoneLatest(after[1..])
    ensures
      Versions(after) ==
      [Version(t, NewValue(v, old(tuple.Current()).value))] + if rest == null then old(Versions(c))[1..] else old(Versions(c))
    ensures
      rest == null <==>
      canOverwrite && old(!tuple.deleting) && (v.Some? ==> |v.value.f(old(tuple.Bytes()))| <= tuple.buf.Length)
    ensures rest != null ==> forcedSpill == !(canOverwrite && old(!tuple.deleting))
    ensures head == tuple || (fresh(head) && rest == tuple)
  {
    var newSize := if v.Some? then |v.value.f(tuple.Bytes())| else 0;
    var oldSize := if tuple.deleting then 0 else tuple.size;
    if canOverwrite && oldSize > 0 {
      if newSize <= tuple.buf.Length {
        WriteHere(tuple, t, v, newSize);
        return tuple, null, false, c;
      }
      head, after := ReplaceHead(tuple, c, t, v, oldSize, newSize);
      return head, tuple, false, after;
    }
    if newSize <= tuple.buf.Length && oldSize > 0 {
      ghost var tail;
      rest, tail := CopyBehind(tuple, c);
      WriteHere(tuple, t, v, newSize);
      assert ([tuple] + tail)[1..] == tail;
      return tuple, rest, true, [tuple] + tail;
    }
    head, after := ReplaceHead(tuple, c, t, v, oldSize, newSize);
    return head, tuple, true, after;
  }

  /** The chain is what the tuple has kept of the versions vs and the writes ws. */
  ghost predicate Keeps(head: DbTuple, c: seq<DbTuple>, vs: seq<Version>, ws: seq<Write>)
    reads c, Buffers(c)
  {
    && Linked(c) && c != [] && c[0] == head && head.latest && NoneLatest(c[1..])
    && Versions(c) == Kept(vs, ws)
    && vs != [] && Sorted(vs) && Ascending(vs, ws) && head.version < MAX_TID
  }

  predicate InPlace(tuple: DbTuple, v: Option<Writer>, canOverwrite: bool)
    requires tuple.Ok()
    reads tuple, tuple.buf
  {
    canOverwrite && !tuple.deleting && (v.Some? ==> |v.value.f(tuple.Bytes())| <= tuple.buf.Length)
  }

  /** write_record_at adds one write to the history of the chain. */
  method WriteKept(head: DbTuple, ghost c: seq<DbTuple>, ghost vs: seq<Version>, ghost ws: seq<Write>,
                   t: nat, v: Option<Writer>, canOverwrite: bool)
    returns (newHead: DbTuple, ghost after: seq<DbTuple>, ghost w: Write)
    requires Keeps(head, c, vs, ws) && head.version <= t < MAX_TID && (v.Some? ==> WriterOk(v.value))
    modifies head, head.buf
    ensures w == Write(t, NewValue(v, old(head.Current()).value), old(InPlace(head, v, canOverwrite)))
    ensures Keeps(newHead, after, vs, ws + [w])
  {
    w := Write(t, NewValue(v, head.Current().value), InPlace(head, v, canOverwrite));
    ghost var before := Versions(c);
    assert before[0] == head.Current();
    HistoryStep(vs, ws, w);
    var rest, forced;
    newHead, rest, forced, after := WriteRecordAt(head, c, t, v, canOverwrite);
    assert Versions(after)[0] == newHead.Current();
  }

  /** A tuple just made, before any of these writes, keeps its own versions. */
  lemma KeepsAtFirst(head: DbTuple, c: seq<DbTuple>)
    requires Linked(c) && c != [] && c[0] == head && head.latest && NoneLatest(c[1..])
    requires Sorted(Versions(c)) && head.version < MAX_TID
    ensures Keeps(head, c, Versions(c), [])
  {}

  /** record_at after any number of writes: a snapshot reads what the full history says, if
      no overwrite straddles it; and only then, if the tids strictly climb. */
  method ReadKept(head: DbTuple, ghost c: seq<DbTuple>, ghost vs: seq<Version>, ghost ws: seq<Write>, s: nat)
    returns (start: nat, value: Option<Bytes>)
    requires Keeps(head, c, vs, ws)
    ensures !Straddled(vs, ws, s) ==> Version(start, value) == ReadAt(All(vs, ws), s)
    ensures Climbs(vs, ws) ==> (Version(start, value) == ReadAt(All(vs, ws), s) <==> !Straddled(vs, ws, s))
  {
    start, value := RecordAt(head, c, s);
    if !Straddled(vs, ws, s) {
      SnapshotReads(vs, ws, s);
    }
    if Climbs(vs, ws) {
      ServedIffNotStraddled(vs, ws, s);
    }
  }
}
