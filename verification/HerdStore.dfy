/** The key-value store of one HERD server (HERD/main.c, HERD/common.h): an index of
    8-slot buckets of (tag, log offset) pairs over a circular log, worked by a two-stage
    pipeline.  The index is lossy: a later PUT may evict or hide an entry. */
module HerdStore {
  import opened Arithmetic

  const LOG_SIZE: nat := 134217728       // M_128
  const MARGIN: nat := 4096              // no record starts this close to the end of the log
  const SLOTS_PER_BKT: nat := 8
  const NUM_IDX_BKTS: nat := 4194304     // M_4
  const INVALID_SLOT: int := -0x8000_0000_0000_0000
  const MIN_LL: int := -0x8000_0000_0000_0000

  type Value = string

  /** A key is two 64-bit words; the bucket and the tag come from the first. */
  datatype Key = Key(lo: int, hi: int)
  datatype Record = Record(key: Key, value: Value)

  function KeyToBucket(k: Key): nat { k.lo / 65536 % NUM_IDX_BKTS }

  function KeyToTag(k: Key): nat { k.lo % 65536 }

  /** A slot is a signed 64-bit word: the offset shifted left by 16, or-ed with the tag. */
  function Pack(tag: nat, offset: nat): int { tag + offset * 65536 }

  function Tag(slot: int): nat { slot % 65536 }

  function Offset(slot: int): int { slot / 65536 }

  /** Packing is undone by the two extractions, never collides with the invalid slot and
      stays a non-negative 64-bit word while the offset is below 2^47. */
  lemma PackRoundTrip(tag: nat, offset: nat)
    requires tag < 65536
    ensures Tag(Pack(tag, offset)) == tag && Offset(Pack(tag, offset)) == offset
    ensures Pack(tag, offset) != INVALID_SLOT
    ensures offset < 0x8000_0000_0000 ==> 0 <= Pack(tag, offset) < 0x8000_0000_0000_0000
  {
  }

  /** The invalid slot has tag 0 and an offset far below every log offset. */
  lemma InvalidSlot()
    ensures Tag(INVALID_SLOT) == 0 && Offset(INVALID_SLOT) == -0x8000_0000_0000 && Offset(INVALID_SLOT) % LOG_SIZE == 0
  {
  }

  // ------------------------------------------------------------------ the log

  /** The offsets a record can start at: whole records from the start of each lap, and
      none in the last MARGIN bytes of a lap. */
  predicate IsStart(size: nat, o: nat)
    requires size >= 1
  {
    o % LOG_SIZE % size == 0 && o % LOG_SIZE < LOG_SIZE - MARGIN
  }

  /** The memcpy into the log: records it overlaps are torn, and so gone. */
  function Written(size: nat, log: map<nat, Record>, a: nat, rec: Record): map<nat, Record> {
    (map x | x in log && (x + size <= a || a + size <= x) :: log[x])[a := rec]
  }

  predicate Fresh(head: nat, o: int) { head - o <= LOG_SIZE }

  /** `hist` is every record ever written, by its unwrapped offset. */
  ghost predicate LogOk(size: nat, head: nat, log: map<nat, Record>, hist: map<nat, Record>) {
    && 1 <= size <= MARGIN
    && head % LOG_SIZE % size == 0
    && (forall o: nat :: o in hist <==> o < head && IsStart(size, o))
    && (forall o: nat :: o in hist && Fresh(head, o) ==> o % LOG_SIZE in log && log[o % LOG_SIZE] == hist[o])
  }

  /** The jump to the next lap, taken when a record might not fit. */
  function Reset(head: nat): nat {
    if head % LOG_SIZE >= LOG_SIZE - MARGIN then head + (LOG_SIZE - head % LOG_SIZE) else head
  }

  lemma ResetKeeps(size: nat, head: nat, log: map<nat, Record>, hist: map<nat, Record>)
    requires LogOk(size, head, log, hist)
    ensures LogOk(size, Reset(head), log, hist)
    ensures IsStart(size, Reset(head)) && Reset(head) !in hist
  {
    if head % LOG_SIZE >= LOG_SIZE - MARGIN {
      LapEnd(head, Reset(head));
      assert 0 % size == 0 by { ModIs(0, size, 0, 0); }
      forall o: nat
        ensures o in hist <==> o < Reset(head) && IsStart(size, o)
      {
        if head <= o < Reset(head) {
          LapEnd(head, o);
        }
      }
    }
  }

  lemma LapEnd(head: nat, o: nat)
    requires head <= o <= head + (LOG_SIZE - head % LOG_SIZE)
    ensures o < head + (LOG_SIZE - head % LOG_SIZE) ==> o % LOG_SIZE == head % LOG_SIZE + (o - head)
    ensures o == head + (LOG_SIZE - head % LOG_SIZE) ==> o % LOG_SIZE == 0
  {
  }

  /** The next record starts where this one ends. */
  lemma NextStart(size: nat, head: nat, o: nat)
    requires 1 <= size <= MARGIN && IsStart(size, head) && head < o < head + size
    ensures !IsStart(size, o)
  {
    LapEnd(head, o);
    if o % LOG_SIZE % size == 0 {
      MultiplesApart(head % LOG_SIZE, o % LOG_SIZE, size);
      assert false;
    }
  }

  /** Whole records do not overlap: a write tears no other record of the last lap. */
  lemma WholeRecords(size: nat, head: nat, o: nat)
    requires 1 <= size <= MARGIN && IsStart(size, head) && IsStart(size, o) && o < head && Fresh(head + size, o)
    ensures o % LOG_SIZE + size <= head % LOG_SIZE || head % LOG_SIZE + size <= o % LOG_SIZE
  {
    assert o % LOG_SIZE != head % LOG_SIZE;
    if o % LOG_SIZE < head % LOG_SIZE {
      MultiplesApart(o % LOG_SIZE, head % LOG_SIZE, size);
    } else {
      MultiplesApart(head % LOG_SIZE, o % LOG_SIZE, size);
    }
  }

  lemma NextHead(size: nat, head: nat)
    requires 1 <= size <= MARGIN && IsStart(size, head)
    ensures (head + size) % LOG_SIZE == head % LOG_SIZE + size && (head + size) % LOG_SIZE % size == 0
  {
    LapEnd(head, head + size);
    NextMultiple(head % LOG_SIZE, size);
  }

  lemma AppendHist(size: nat, head: nat, hist: map<nat, Record>, rec: Record, o: nat)
    requires 1 <= size <= MARGIN && IsStart(size, head) && (o in hist <==> o < head && IsStart(size, o))
    ensures o in hist[head := rec] <==> o < head + size && IsStart(size, o)
  {
    if head < o < head + size {
      NextStart(size, head, o);
    }
  }

  lemma AppendLog(size: nat, head: nat, log: map<nat, Record>, hist: map<nat, Record>, rec: Record, o: nat)
    requires LogOk(size, head, log, hist) && IsStart(size, head) && o in hist && Fresh(head + size, o)
    ensures o != head && o % LOG_SIZE in Written(size, log, head % LOG_SIZE, rec)
    ensures Written(size, log, head % LOG_SIZE, rec)[o % LOG_SIZE] == hist[o]
  {
    WholeRecords(size, head, o);
  }

  lemma AppendKeeps(size: nat, head: nat, log: map<nat, Record>, hist: map<nat, Record>, rec: Record)
    requires LogOk(size, head, log, hist) && IsStart(size, head)
    ensures LogOk(size, head + size, Written(size, log, head % LOG_SIZE, rec), hist[head := rec])
  {
    var log', hist' := Written(size, log, head % LOG_SIZE, rec), hist[head := rec];
    NextHead(size, head);
    forall o: nat
      ensures o in hist' <==> o < head + size && IsStart(size, o)
    {
      AppendHist(size, head, hist, rec, o);
    }
    forall o: nat | o in hist' && Fresh(head + size, o)
      ensures o % LOG_SIZE in log' && log'[o % LOG_SIZE] == hist'[o]
    {
      if o != head {
        AppendLog(size, head, log, hist, rec, o);
      }
    }
  }

  /** Whatever offset was once written, its log address still holds a whole record: the
      last one written there, which is not older than it. */
  function LastAt(head: nat, o: nat): (r: nat)
    requires o < head
    ensures r % LOG_SIZE == o % LOG_SIZE && o <= r < head && Fresh(head, r)
    decreases head - o
  {
    if Fresh(head, o) then o else LastAt(head, o + LOG_SIZE)
  }

  lemma LogHolds(size: nat, head: nat, log: map<nat, Record>, hist: map<nat, Record>, o: nat)
    requires LogOk(size, head, log, hist) && o in hist
    ensures LastAt(head, o) in hist && o % LOG_SIZE in log && log[o % LOG_SIZE] == hist[LastAt(head, o)]
  {
  }

  // ------------------------------------------------------------------ the index

  predicate Matches(k: Key, b: nat, tag: nat) { KeyToBucket(k) == b && KeyToTag(k) == tag }

  /** A slot in use points to a record of its bucket and tag. */
  predicate SlotOk(b: nat, slot: int, hist: map<nat, Record>) {
    && Offset(slot) >= 0 && Offset(slot) in hist
    && Matches(hist[Offset(slot)].key, b, Tag(slot))
  }

  /** No slot earlier in the scan, which goes down from slot 7, has the tag. */
  predicate NoneAbove(bkt: seq<int>, i: int, tag: nat) {
    forall j :: i < j < |bkt| && 0 <= j ==> bkt[j] == INVALID_SLOT || Tag(bkt[j]) != tag
  }

  ghost predicate NewestOf(b: nat, slot: int, hist: map<nat, Record>) {
    forall o :: o in hist && Matches(hist[o].key, b, Tag(slot)) ==> o <= Offset(slot)
  }

  ghost predicate BucketOk(b: nat, bkt: seq<int>, hist: map<nat, Record>) {
    && |bkt| == SLOTS_PER_BKT && bkt[0] == INVALID_SLOT
    && (forall i :: 0 <= i < |bkt| && bkt[i] != INVALID_SLOT ==> SlotOk(b, bkt[i], hist))
    && (forall i, j :: 0 <= i < j < |bkt| ==> Later(bkt[i], bkt[j]))
    && (forall i :: 0 <= i < |bkt| && bkt[i] != INVALID_SLOT && NoneAbove(bkt, i, Tag(bkt[i])) ==> NewestOf(b, bkt[i], hist))
  }

  /** Of two slots with one tag, the one scanned first is the newer. */
  predicate Later(low: int, high: int) {
    low != INVALID_SLOT && high != INVALID_SLOT && Tag(low) == Tag(high) ==> Offset(low) < Offset(high)
  }

  function Cleared(slot: int, tag: nat): int { if Tag(slot) == tag then INVALID_SLOT else slot }

  /** What the slot scan of a PUT chooses and changes.  Either it stops at the first
      unused slot, or it has passed every slot from 7 to 1 and takes the oldest. */
  ghost predicate PutChoice(bkt: seq<int>, tag: nat, best: nat, out: seq<int>)
    requires |bkt| == SLOTS_PER_BKT
  {
    && 1 <= best < SLOTS_PER_BKT && |out| == SLOTS_PER_BKT
    && (|| (bkt[best] == INVALID_SLOT
            && (forall j :: best < j < |bkt| ==> bkt[j] != INVALID_SLOT && out[j] == Cleared(bkt[j], tag))
            && (forall j :: 0 <= j <= best ==> out[j] == bkt[j]))
        || (out[0] == bkt[0]
            && (forall j :: 0 < j < |bkt| ==> bkt[j] != INVALID_SLOT && out[j] == Cleared(bkt[j], tag))
            && (forall j :: 0 < j < |bkt| ==> Offset(bkt[best]) <= Offset(bkt[j]))))
  }

  method ScanForPut(bkt: seq<int>, tag: nat, head: nat) returns (best: nat, out: seq<int>)
    requires |bkt| == SLOTS_PER_BKT
    requires forall j :: 0 <= j < |bkt| && bkt[j] != INVALID_SLOT ==> 0 <= Offset(bkt[j]) <= head
    ensures PutChoice(bkt, tag, best, out)
  {
    var maxDiff, slot := MIN_LL, SLOTS_PER_BKT - 1;
    best, out := 0, bkt;
    while slot >= 1
      invariant 0 <= slot < SLOTS_PER_BKT && |out| == SLOTS_PER_BKT
      invariant forall j :: 0 <= j <= slot ==> out[j] == bkt[j]
      invariant forall j :: slot < j < |bkt| ==> bkt[j] != INVALID_SLOT && out[j] == Cleared(bkt[j], tag)
      invariant slot == SLOTS_PER_BKT - 1 ==> maxDiff == MIN_LL
      invariant slot < SLOTS_PER_BKT - 1 ==> slot < best < SLOTS_PER_BKT && maxDiff == head - Offset(bkt[best])
      invariant forall j :: slot < j < |bkt| ==> head - Offset(bkt[j]) <= maxDiff
    {
      if out[slot] == INVALID_SLOT {
        best := slot;
        break;
      }
      var offset := Offset(out[slot]);
      if head - offset > maxDiff {
        maxDiff := head - offset;
        best := slot;
      }
      if Tag(out[slot]) == tag {
        out := out[slot := INVALID_SLOT];
      }
      slot := slot - 1;
    }
  }

  /** The first slot, scanning down from slot i, that has the tag; -1 if none. */
  function FirstSlot(bkt: seq<int>, tag: nat, i: int): (r: int)
    requires -1 <= i < |bkt|
    ensures -1 <= r <= i && (r >= 0 ==> Tag(bkt[r]) == tag)
    ensures forall j :: r < j <= i ==> Tag(bkt[j]) != tag
    decreases i + 1
  {
    if i < 0 || Tag(bkt[i]) == tag then i else FirstSlot(bkt, tag, i - 1)
  }

  method ScanForGet(bkt: seq<int>, tag: nat) returns (slot: int)
    requires |bkt| == SLOTS_PER_BKT
    ensures slot == FirstSlot(bkt, tag, SLOTS_PER_BKT - 1)
  {
    slot := SLOTS_PER_BKT - 1;
    while slot >= 0
      invariant -1 <= slot < SLOTS_PER_BKT
      invariant FirstSlot(bkt, tag, SLOTS_PER_BKT - 1) == FirstSlot(bkt, tag, slot)
    {
      if Tag(bkt[slot]) == tag {
        return;
      }
      slot := slot - 1;
    }
  }

  // ------------------------------------------------------------------ a PUT keeps the index

  /** The bucket after a PUT: the scan's choice, with the new slot written. */
  function Filled(out: seq<int>, best: nat, tag: nat, head: nat): seq<int>
    requires best < |out|
  {
    out[best := Pack(tag, head)]
  }

  /** Slots in use after a PUT are the new one, or were in use before with another tag or
      below the chosen slot. */
  lemma PutSlots(b: nat, bkt: seq<int>, hist: map<nat, Record>, key: Key, best: nat, out: seq<int>, head: nat, i: nat)
    requires BucketOk(b, bkt, hist) && PutChoice(bkt, KeyToTag(key), best, out) && i < SLOTS_PER_BKT
    ensures
      var after := Filled(out, best, KeyToTag(key), head);
      && (i == best ==> Tag(after[i]) == KeyToTag(key) && Offset(after[i]) == head)
      && (i != best ==> after[i] == INVALID_SLOT || after[i] == bkt[i])
      && (best < i ==> after[i] == INVALID_SLOT || Tag(after[i]) != KeyToTag(key))
      && after[0] == INVALID_SLOT
  {
    PackRoundTrip(KeyToTag(key), head);
  }

  lemma PutSlotsOk(b: nat, bkt: seq<int>, hist: map<nat, Record>, rec: Record, best: nat, out: seq<int>, head: nat, i: nat)
    requires BucketOk(b, bkt, hist) && PutChoice(bkt, KeyToTag(rec.key), best, out) && i < SLOTS_PER_BKT
    requires KeyToBucket(rec.key) == b && head !in hist
    ensures
      var after := Filled(out, best, KeyToTag(rec.key), head);
      after[i] != INVALID_SLOT ==> SlotOk(b, after[i], hist[head := rec])
  {
    PutSlots(b, bkt, hist, rec.key, best, out, head, i);
  }

  lemma PutLater(b: nat, bkt: seq<int>, hist: map<nat, Record>, key: Key, best: nat, out: seq<int>, head: nat, i: nat, j: nat)
    requires BucketOk(b, bkt, hist) && PutChoice(bkt, KeyToTag(key), best, out) && i < j < SLOTS_PER_BKT
    requires forall o :: o in hist ==> o < head
    ensures
      var after := Filled(out, best, KeyToTag(key), head);
      Later(after[i], after[j])
  {
    PutSlots(b, bkt, hist, key, best, out, head, i);
    PutSlots(b, bkt, hist, key, best, out, head, j);
    assert Later(bkt[i], bkt[j]);
  }

  /** The scan never hides the newest slot of another tag behind an older one: the slot it
      takes over was unused, or was the oldest of all. */
  lemma PutKeepsFirst(b: nat, bkt: seq<int>, hist: map<nat, Record>, key: Key, best: nat, out: seq<int>, head: nat, i: nat)
    requires BucketOk(b, bkt, hist) && PutChoice(bkt, KeyToTag(key), best, out) && i < SLOTS_PER_BKT && i != best
    requires Filled(out, best, KeyToTag(key), head)[i] != INVALID_SLOT
    requires NoneAbove(Filled(out, best, KeyToTag(key), head), i, Tag(bkt[i]))
    ensures bkt[i] != INVALID_SLOT && Tag(bkt[i]) != KeyToTag(key) && NewestOf(b, bkt[i], hist)
  {
    var after := Filled(out, best, KeyToTag(key), head);
    PutSlots(b, bkt, hist, key, best, out, head, i);
    PutSlots(b, bkt, hist, key, best, out, head, best);
    assert Tag(bkt[i]) != KeyToTag(key);
    forall j | i < j < |bkt|
      ensures bkt[j] == INVALID_SLOT || Tag(bkt[j]) != Tag(bkt[i])
    {
      PutSlots(b, bkt, hist, key, best, out, head, j);
      assert after[j] == INVALID_SLOT || Tag(after[j]) != Tag(bkt[i]);
      assert Later(bkt[i], bkt[j]);
    }
    assert NoneAbove(bkt, i, Tag(bkt[i]));
  }

  lemma PutKeepsBucket(b: nat, bkt: seq<int>, hist: map<nat, Record>, rec: Record, best: nat, out: seq<int>, head: nat)
    requires BucketOk(b, bkt, hist) && PutChoice(bkt, KeyToTag(rec.key), best, out)
    requires KeyToBucket(rec.key) == b
    requires forall o :: o in hist ==> o < head
    ensures BucketOk(b, Filled(out, best, KeyToTag(rec.key), head), hist[head := rec])
  {
    var after, hist' := Filled(out, best, KeyToTag(rec.key), head), hist[head := rec];
    PutSlots(b, bkt, hist, rec.key, best, out, head, best);
    forall i | 0 <= i < |after| && after[i] != INVALID_SLOT
      ensures SlotOk(b, after[i], hist')
    {
      PutSlotsOk(b, bkt, hist, rec, best, out, head, i);
    }
    forall i, j | 0 <= i < j < |after|
      ensures Later(after[i], after[j])
    {
      PutLater(b, bkt, hist, rec.key, best, out, head, i, j);
    }
    forall i | 0 <= i < |after| && after[i] != INVALID_SLOT && NoneAbove(after, i, Tag(after[i]))
      ensures NewestOf(b, after[i], hist')
    {
      PutSlots(b, bkt, hist, rec.key, best, out, head, i);
      if i != best {
        PutKeepsFirst(b, bkt, hist, rec.key, best, out, head, i);
      }
    }
  }

  /** A PUT into one bucket leaves the others as they are. */
  lemma OtherBucket(b: nat, bkt: seq<int>, hist: map<nat, Record>, rec: Record, head: nat)
    requires BucketOk(b, bkt, hist) && KeyToBucket(rec.key) != b && head !in hist
    ensures BucketOk(b, bkt, hist[head := rec])
  {
    forall i | 0 <= i < |bkt| && bkt[i] != INVALID_SLOT && NoneAbove(bkt, i, Tag(bkt[i]))
      ensures NewestOf(b, bkt[i], hist[head := rec])
    {
      assert NewestOf(b, bkt[i], hist);
    }
  }

  // ------------------------------------------------------------------ what a GET may answer

  /** `table` is the map a GET should answer from; `lastPut` says which record each of its
      entries comes from. */
  ghost predicate TableOk(table: map<Key, Value>, lastPut: map<Key, nat>, hist: map<nat, Record>) {
    && table.Keys == lastPut.Keys
    && (forall k :: k in lastPut ==> lastPut[k] in hist && hist[lastPut[k]] == Record(k, table[k]))
    && (forall o :: o in hist ==> hist[o].key in lastPut && o <= lastPut[hist[o].key])
  }

  lemma PutTable(table: map<Key, Value>, lastPut: map<Key, nat>, hist: map<nat, Record>, rec: Record, head: nat)
    requires TableOk(table, lastPut, hist)
    requires forall o :: o in hist ==> o < head
    ensures TableOk(table[rec.key := rec.value], lastPut[rec.key := head], hist[head := rec])
  {
  }

  /** What stage 1 of a GET leaves behind in the item: the first slot with the tag, whose
      record is still in the log; or any slot, when no slot with the tag has such a record. */
  ghost predicate GetReady(key: Key, getSlot: nat, bkt: seq<int>, head: nat) {
    && getSlot < |bkt|
    && (|| (getSlot == FirstSlot(bkt, KeyToTag(key), |bkt| - 1) && Fresh(head, Offset(bkt[getSlot])))
        || (forall j :: 0 <= j < |bkt| && Tag(bkt[j]) == KeyToTag(key) ==> !Fresh(head, Offset(bkt[j]))))
  }

  /** What stage 2 of a GET reads: the record at the slot's log address, if the slot has
      the key's tag and the record has exactly the key. */
  predicate Hit(key: Key, slot: int, log: map<nat, Record>) {
    && Tag(slot) == KeyToTag(key)
    && Offset(slot) % LOG_SIZE in log && log[Offset(slot) % LOG_SIZE].key == key
  }

  /** The record a hit reads is one that was written, at the slot's offset or later. */
  lemma HitRecord(size: nat, head: nat, log: map<nat, Record>, hist: map<nat, Record>, slot: int, key: Key) returns (o: nat)
    requires LogOk(size, head, log, hist) && SlotOk(KeyToBucket(key), slot, hist) && slot != INVALID_SLOT && Hit(key, slot, log)
    ensures o in hist && Offset(slot) <= o && Fresh(head, o) && hist[o] == log[Offset(slot) % LOG_SIZE]
    ensures Matches(hist[o].key, KeyToBucket(key), KeyToTag(key))
  {
    LogHolds(size, head, log, hist, Offset(slot));
    o := LastAt(head, Offset(slot));
  }

  /** With no PUT in between, stage 2 answers from the table. */
  lemma HitIsLatest(size: nat, head: nat, log: map<nat, Record>, hist: map<nat, Record>,
                    table: map<Key, Value>, lastPut: map<Key, nat>, bkt: seq<int>, key: Key, getSlot: nat)
    requires LogOk(size, head, log, hist) && TableOk(table, lastPut, hist)
    requires BucketOk(KeyToBucket(key), bkt, hist) && KeyToTag(key) != 0
    requires GetReady(key, getSlot, bkt, head) && Hit(key, bkt[getSlot], log)
    ensures key in table && table[key] == log[Offset(bkt[getSlot]) % LOG_SIZE].value
    ensures Offset(bkt[getSlot]) == lastPut[key]
    ensures getSlot == FirstSlot(bkt, KeyToTag(key), |bkt| - 1) && Fresh(head, lastPut[key])
  {
    var b, tag := KeyToBucket(key), KeyToTag(key);
    assert SlotOk(b, bkt[getSlot], hist);
    var o := HitRecord(size, head, log, hist, bkt[getSlot], key);
    var f := FirstSlot(bkt, tag, |bkt| - 1);
    FirstIsNewest(b, bkt, hist, tag);
    assert o <= Offset(bkt[f]);
    assert Matches(hist[lastPut[key]].key, b, tag) && lastPut[key] <= Offset(bkt[f]);
  }

  lemma FirstIsNewest(b: nat, bkt: seq<int>, hist: map<nat, Record>, tag: nat)
    requires BucketOk(b, bkt, hist) && tag != 0 && FirstSlot(bkt, tag, |bkt| - 1) >= 0
    ensures SlotOk(b, bkt[FirstSlot(bkt, tag, |bkt| - 1)], hist)
    ensures NewestOf(b, bkt[FirstSlot(bkt, tag, |bkt| - 1)], hist)
  {
    var f := FirstSlot(bkt, tag, |bkt| - 1);
    assert NoneAbove(bkt, f, Tag(bkt[f]));
  }

  /** Stage 1 of a GET: what it computes is ready for stage 2. */
  lemma Stage1Ready(b: nat, bkt: seq<int>, hist: map<nat, Record>, key: Key, head: nat, getSlot: nat)
    requires BucketOk(b, bkt, hist) && KeyToTag(key) != 0 && getSlot < |bkt|
    requires
      var f := FirstSlot(bkt, KeyToTag(key), |bkt| - 1);
      f >= 0 && Fresh(head, Offset(bkt[f])) ==> getSlot == f
    ensures GetReady(key, getSlot, bkt, head)
  {
    var f := FirstSlot(bkt, KeyToTag(key), |bkt| - 1);
    if f >= 0 && !Fresh(head, Offset(bkt[f])) {
      forall j | 0 <= j < |bkt| && Tag(bkt[j]) == KeyToTag(key)
        ensures !Fresh(head, Offset(bkt[j]))
      {
        assert j < f ==> Later(bkt[j], bkt[f]);
      }
    }
  }

  lemma ReadElsewhere(size: nat, log: map<nat, Record>, at: nat, rec: Record, a: nat)
    requires a != at && a in Written(size, log, at, rec)
    ensures a in log && Written(size, log, at, rec)[a] == log[a]
  {}

  /** With one PUT in between, which leaves `slot` where stage 1 had found bkt[getSlot],
      stage 2 answers from the table before or after that PUT. */
  lemma HitAfterPut(size: nat, head: nat, log: map<nat, Record>, hist: map<nat, Record>,
                    table: map<Key, Value>, lastPut: map<Key, nat>, bkt: seq<int>, key: Key, getSlot: nat,
                    was: nat, rec: Record, slot: int)
    requires LogOk(size, was, log, hist) && TableOk(table, lastPut, hist)
    requires BucketOk(KeyToBucket(key), bkt, hist) && KeyToTag(key) != 0
    requires GetReady(key, getSlot, bkt, was)
    requires SlotKept(bkt[getSlot], slot, head)
    requires Hit(key, slot, Written(size, log, head % LOG_SIZE, rec))
    ensures
      var v := Written(size, log, head % LOG_SIZE, rec)[Offset(slot) % LOG_SIZE].value;
      (key in table && table[key] == v) || rec == Record(key, v)
  {
    InvalidSlot();
    if Offset(slot) % LOG_SIZE != head % LOG_SIZE {
      ReadElsewhere(size, log, head % LOG_SIZE, rec, Offset(slot) % LOG_SIZE);
      HitIsLatest(size, was, log, hist, table, lastPut, bkt, key, getSlot);
    }
  }

  datatype Response = Nothing | Stored | Found(value: Value) | Failed

  /** The answer to a GET whose two stages see the same index and log. */
  function Served(bkt: seq<int>, log: map<nat, Record>, head: nat, key: Key): Response
    requires |bkt| == SLOTS_PER_BKT
  {
    var f := FirstSlot(bkt, KeyToTag(key), |bkt| - 1);
    if f >= 0 && Fresh(head, Offset(bkt[f])) && Hit(key, bkt[f], log)
    then Found(log[Offset(bkt[f]) % LOG_SIZE].value) else Failed
  }

  /** Exactly when an undisturbed GET succeeds: the key's last PUT is still in the log, no
      later PUT of its bucket had its tag, and its slot has not been evicted.  The answer
      is then the value of that PUT. */
  lemma ServedExactly(size: nat, head: nat, log: map<nat, Record>, hist: map<nat, Record>,
                      table: map<Key, Value>, lastPut: map<Key, nat>, bkt: seq<int>, key: Key)
    requires LogOk(size, head, log, hist) && TableOk(table, lastPut, hist)
    requires BucketOk(KeyToBucket(key), bkt, hist) && KeyToTag(key) != 0
    ensures
      var r := Served(bkt, log, head, key);
      if key in lastPut && Fresh(head, lastPut[key]) && Pack(KeyToTag(key), lastPut[key]) in bkt
         && NewestOf(KeyToBucket(key), Pack(KeyToTag(key), lastPut[key]), hist)
      then r == Found(table[key]) else r == Failed
  {
    var f := FirstSlot(bkt, KeyToTag(key), |bkt| - 1);
    if f >= 0 {
      FirstIsNewest(KeyToBucket(key), bkt, hist, KeyToTag(key));
      if Fresh(head, Offset(bkt[f])) && Hit(key, bkt[f], log) {
        HitIsLatest(size, head, log, hist, table, lastPut, bkt, key, f);
        assert bkt[f] == Pack(KeyToTag(key), lastPut[key]) && bkt[f] in bkt;
      }
    }
    if key in lastPut {
      PackRoundTrip(KeyToTag(key), lastPut[key]);
    }
  }

  const EMPTY_BKT: seq<int> :=
    [INVALID_SLOT, INVALID_SLOT, INVALID_SLOT, INVALID_SLOT, INVALID_SLOT, INVALID_SLOT, INVALID_SLOT, INVALID_SLOT]

  /** What two PUTs of keys with tag 0 leave in an empty bucket. */
  lemma TwoPutsOfTagZero(size: nat)
    ensures
      var one := Filled(EMPTY_BKT, 7, 0, 0);
      && PutChoice(EMPTY_BKT, 0, 7, EMPTY_BKT) && PutChoice(one, 0, 6, one[7 := INVALID_SLOT])
      && Filled(one[7 := INVALID_SLOT], 6, 0, size) == EMPTY_BKT[6 := Pack(0, size)]
  {
    var one := Filled(EMPTY_BKT, 7, 0, 0);
    assert Pack(0, 0) == 0 && one == EMPTY_BKT[7 := 0] && one[7 := INVALID_SLOT] == EMPTY_BKT;
  }

  // ------------------------------------------------------------------ the whole store

  function ServedBy(s: Store, key: Key): Response {
    if KeyToBucket(key) < |s.index| && |s.index[KeyToBucket(key)]| == SLOTS_PER_BKT
    then Served(s.index[KeyToBucket(key)], s.log, s.head, key) else Failed
  }

  /** Index and log, with the history the answers are judged by. */
  datatype Store = Store(size: nat, head: nat, index: seq<seq<int>>, log: map<nat, Record>,
                         hist: map<nat, Record>, table: map<Key, Value>, lastPut: map<Key, nat>)

  ghost predicate StoreOk(s: Store) {
    && LogOk(s.size, s.head, s.log, s.hist) && TableOk(s.table, s.lastPut, s.hist)
    && IndexOk(s.index, s.hist)
  }

  ghost predicate IndexOk(index: seq<seq<int>>, hist: map<nat, Record>) {
    |index| == NUM_IDX_BKTS && forall b {:trigger BucketOk(b, index[b], hist)} :: 0 <= b < |index| ==> BucketOk(b, index[b], hist)
  }

  lemma PutIndex(index: seq<seq<int>>, hist: map<nat, Record>, rec: Record, best: nat, out: seq<int>, head: nat)
    requires IndexOk(index, hist)
    requires |index[KeyToBucket(rec.key)]| == SLOTS_PER_BKT && PutChoice(index[KeyToBucket(rec.key)], KeyToTag(rec.key), best, out)
    requires forall o :: o in hist ==> o < head
    ensures IndexOk(index[KeyToBucket(rec.key) := Filled(out, best, KeyToTag(rec.key), head)], hist[head := rec])
  {
    var b := KeyToBucket(rec.key);
    assert BucketOk(b, index[b], hist);
    PutKeepsBucket(b, index[b], hist, rec, best, out, head);
    forall c | 0 <= c < |index| && c != b
      ensures BucketOk(c, index[c], hist[head := rec])
    {
      assert BucketOk(c, index[c], hist);
      OtherBucket(c, index[c], hist, rec, head);
    }
  }

  /** The store after a PUT whose scan chose `best` and left `out`. */
  function AfterPut(s: Store, rec: Record, best: nat, out: seq<int>): Store
    requires |s.index| == NUM_IDX_BKTS && best < |out|
  {
    Store(s.size, s.head + s.size, s.index[KeyToBucket(rec.key) := Filled(out, best, KeyToTag(rec.key), s.head)],
          Written(s.size, s.log, s.head % LOG_SIZE, rec), s.hist[s.head := rec],
          s.table[rec.key := rec.value], s.lastPut[rec.key := s.head])
  }

  lemma PutKeepsStore(s: Store, rec: Record, best: nat, out: seq<int>)
    requires StoreOk(s) && IsStart(s.size, s.head)
    requires |s.index[KeyToBucket(rec.key)]| == SLOTS_PER_BKT && PutChoice(s.index[KeyToBucket(rec.key)], KeyToTag(rec.key), best, out)
    ensures StoreOk(AfterPut(s, rec, best, out))
  {
    var t := AfterPut(s, rec, best, out);
    assert IndexOk(t.index, t.hist) by {
      PutIndex(s.index, s.hist, rec, best, out, s.head);
    }
    assert LogOk(t.size, t.head, t.log, t.hist) by {
      AppendKeeps(s.size, s.head, s.log, s.hist, rec);
    }
    assert TableOk(t.table, t.lastPut, t.hist) by {
      PutTable(s.table, s.lastPut, s.hist, rec, s.head);
    }
  }

  /** A PUT can be read back at once. */
  lemma PutThenGet(s: Store, rec: Record, best: nat, out: seq<int>)
    requires StoreOk(s) && IsStart(s.size, s.head) && KeyToTag(rec.key) != 0
    requires |s.index[KeyToBucket(rec.key)]| == SLOTS_PER_BKT && PutChoice(s.index[KeyToBucket(rec.key)], KeyToTag(rec.key), best, out)
    ensures
      var t := AfterPut(s, rec, best, out);
      && |t.index[KeyToBucket(rec.key)]| == SLOTS_PER_BKT
      && Served(t.index[KeyToBucket(rec.key)], t.log, t.head, rec.key) == Found(rec.value)
  {
    var t := AfterPut(s, rec, best, out);
    var b, tag := KeyToBucket(rec.key), KeyToTag(rec.key);
    PutKeepsStore(s, rec, best, out);
    assert BucketOk(b, t.index[b], t.hist);
    PackRoundTrip(tag, s.head);
    assert t.index[b][best] == Pack(tag, s.head);
    ServedExactly(t.size, t.head, t.log, t.hist, t.table, t.lastPut, t.index[b], rec.key);
  }

  /** A PUT leaves every slot as it was, unused, or pointing to the new record. */
  predicate SlotsKept(before: seq<int>, after: seq<int>, head: nat) {
    |after| == |before| && forall i :: 0 <= i < |after| ==> SlotKept(before[i], after[i], head)
  }

  predicate SlotKept(before: int, after: int, head: nat) {
    after == before || after == INVALID_SLOT || Offset(after) == head
  }

  lemma PutKeepsSlots(s: Store, rec: Record, best: nat, out: seq<int>, b: nat)
    requires StoreOk(s) && b < NUM_IDX_BKTS
    requires |s.index[KeyToBucket(rec.key)]| == SLOTS_PER_BKT && PutChoice(s.index[KeyToBucket(rec.key)], KeyToTag(rec.key), best, out)
    ensures SlotsKept(s.index[b], AfterPut(s, rec, best, out).index[b], s.head)
  {
    var bkt, after := s.index[b], AfterPut(s, rec, best, out).index[b];
    assert BucketOk(b, bkt, s.hist);
    if b == KeyToBucket(rec.key) {
      forall i | 0 <= i < |bkt|
        ensures SlotKept(bkt[i], after[i], s.head)
      {
        PutSlots(b, bkt, s.hist, rec.key, best, out, s.head, i);
      }
    }
  }

  // ------------------------------------------------------------------ the server

  datatype Kind = Get | Put | Dummy | Empty
  datatype Item = Item(kind: Kind, key: Key, value: Value, getSlot: nat)

  predicate ItemOk(item: Item) { item.getSlot < SLOTS_PER_BKT }

  /** `item`, if a GET, has passed stage 1 and nothing has been PUT since. */
  ghost predicate Staged(s: Store, item: Item, since: map<Key, Value>)
    requires |s.index| == NUM_IDX_BKTS
  {
    item.kind.Get? && KeyToTag(item.key) != 0 ==>
      GetReady(item.key, item.getSlot, s.index[KeyToBucket(item.key)], s.head) && since == s.table
  }

  /** What may be answered to an item that passed stage 1 when the table was `since`, when
      it leaves stage 2 with the table `now`. */
  predicate Answers(item: Item, out: Response, since: map<Key, Value>, now: map<Key, Value>) {
    match item.kind
    case Get =>
      KeyToTag(item.key) != 0 ==>
        out == Failed || (item.key in since && out == Found(since[item.key])) || (item.key in now && out == Found(now[item.key]))
    case Put => out == Stored
    case _ => out == Nothing
  }

  /** Stage 2 of a GET. */
  function Stage2(s: Store, item: Item): Response
    requires |s.index| == NUM_IDX_BKTS
    requires item.getSlot < |s.index[KeyToBucket(item.key)]|
  {
    var slot := s.index[KeyToBucket(item.key)][item.getSlot];
    if Hit(item.key, slot, s.log) then Found(s.log[Offset(slot) % LOG_SIZE].value) else Failed
  }

  /** Stage 1 of a GET: remembers the first slot with the tag, if its record has not been
      overwritten; otherwise the item keeps the slot number it had. */
  function Remembered(s: Store, item: Item): Item
    requires |s.index| == NUM_IDX_BKTS && |s.index[KeyToBucket(item.key)]| == SLOTS_PER_BKT
  {
    var bkt := s.index[KeyToBucket(item.key)];
    var f := FirstSlot(bkt, KeyToTag(item.key), SLOTS_PER_BKT - 1);
    if f >= 0 && Fresh(s.head, Offset(bkt[f])) then item.(getSlot := f) else item
  }

  /** A store without records. */
  function EmptyStore(size: nat): Store {
    Store(size, 0, seq(NUM_IDX_BKTS, _ => EMPTY_BKT), map[], map[], map[], map[])
  }

  /** A run in which a key with tag 0, the tag of the invalid slot, is served a value that
      was overwritten before both stages: two PUTs into an empty store, then a GET whose
      item has get_slot 0.  Stage 1 stops at an invalid slot and leaves get_slot alone;
      stage 2 takes the invalid slot 0 for the key's and reads log address 0. */
  lemma TagZeroReadsStale(size: nat, key: Key, v1: Value, v2: Value)
    requires 1 <= size <= MARGIN && KeyToTag(key) == 0
    ensures
      var b, s0 := KeyToBucket(key), EmptyStore(size);
      var s1 := AfterPut(s0, Record(key, v1), 7, EMPTY_BKT);
      var s2 := AfterPut(s1, Record(key, v2), 6, EMPTY_BKT);
      && PutChoice(s0.index[b], 0, 7, EMPTY_BKT) && Reset(s0.head) == s0.head
      && |s1.index[b]| == SLOTS_PER_BKT && PutChoice(s1.index[b], 0, 6, EMPTY_BKT) && Reset(s1.head) == s1.head
      && s2.table[key] == v2
      && |s2.index[b]| == SLOTS_PER_BKT && Remembered(s2, Item(Get, key, v2, 0)) == Item(Get, key, v2, 0)
      && Stage2(s2, Item(Get, key, v2, 0)) == Found(v1)
  {
    InvalidSlot();
    TwoPutsOfTagZero(size);
    var b, s0 := KeyToBucket(key), EmptyStore(size);
    assert s0.index[b] == EMPTY_BKT;
    var s1 := AfterPut(s0, Record(key, v1), 7, EMPTY_BKT);
    var s2 := AfterPut(s1, Record(key, v2), 6, EMPTY_BKT);
    assert s1.index[b] == EMPTY_BKT[7 := 0] && s1.index[b][7 := INVALID_SLOT] == EMPTY_BKT;
    assert s2.index[b] == EMPTY_BKT[6 := Pack(0, size)];
    assert s2.index[b][7] == INVALID_SLOT && s2.index[b][0] == INVALID_SLOT;
  }

  /** What stage 1 of a PUT does to the store. */
  ghost predicate PutEffect(s: Store, t: Store, rec: Record)
    requires |s.index| == NUM_IDX_BKTS
  {
    && StoreOk(t) && t.size == s.size && t.head == Reset(s.head) + s.size
    && t.table == s.table[rec.key := rec.value]
    && t.log == Written(s.size, s.log, Reset(s.head) % LOG_SIZE, rec)
    && (forall b :: 0 <= b < NUM_IDX_BKTS ==> SlotsKept(s.index[b], t.index[b], Reset(s.head)))
    && |t.index[KeyToBucket(rec.key)]| == SLOTS_PER_BKT
    && (KeyToTag(rec.key) != 0 ==> Served(t.index[KeyToBucket(rec.key)], t.log, t.head, rec.key) == Found(rec.value))
  }

  lemma PutHasEffect(s: Store, rec: Record, best: nat, out: seq<int>)
    requires StoreOk(s)
    requires |s.index[KeyToBucket(rec.key)]| == SLOTS_PER_BKT && PutChoice(s.index[KeyToBucket(rec.key)], KeyToTag(rec.key), best, out)
    ensures PutEffect(s, AfterPut(s.(head := Reset(s.head)), rec, best, out), rec)
  {
    var r := s.(head := Reset(s.head));
    ResetKeeps(s.size, s.head, s.log, s.hist);
    PutKeepsStore(r, rec, best, out);
    if KeyToTag(rec.key) != 0 {
      PutThenGet(r, rec, best, out);
    }
    OffsetsBelowHead(AfterPut(r, rec, best, out), KeyToBucket(rec.key));
    forall b | 0 <= b < NUM_IDX_BKTS
      ensures SlotsKept(r.index[b], AfterPut(r, rec, best, out).index[b], r.head)
    {
      PutKeepsSlots(r, rec, best, out, b);
    }
  }

  lemma OffsetsBelowHead(s: Store, b: nat)
    requires StoreOk(s) && b < NUM_IDX_BKTS
    ensures |s.index[b]| == SLOTS_PER_BKT
    ensures forall j :: 0 <= j < |s.index[b]| && s.index[b][j] != INVALID_SLOT ==> 0 <= Offset(s.index[b][j]) <= Reset(s.head)
  {
    assert BucketOk(b, s.index[b], s.hist);
  }

  lemma AnswerUndisturbed(s: Store, item: Item, since: map<Key, Value>)
    requires StoreOk(s) && ItemOk(item) && item.kind.Get? && KeyToTag(item.key) != 0 && Staged(s, item, since)
    ensures |s.index[KeyToBucket(item.key)]| == SLOTS_PER_BKT
    ensures Stage2(s, item) == Served(s.index[KeyToBucket(item.key)], s.log, s.head, item.key)
    ensures Answers(item, Stage2(s, item), since, s.table)
  {
    var bkt := s.index[KeyToBucket(item.key)];
    assert BucketOk(KeyToBucket(item.key), bkt, s.hist);
    if Hit(item.key, bkt[item.getSlot], s.log) {
      HitIsLatest(s.size, s.head, s.log, s.hist, s.table, s.lastPut, bkt, item.key, item.getSlot);
    }
  }

  lemma AnswerAfterPut(s: Store, t: Store, rec: Record, item: Item, since: map<Key, Value>)
    requires StoreOk(s) && ItemOk(item) && item.kind.Get? && KeyToTag(item.key) != 0 && Staged(s, item, since)
    requires PutEffect(s, t, rec)
    ensures |t.index[KeyToBucket(item.key)]| == SLOTS_PER_BKT
    ensures Answers(item, Stage2(t, item), since, t.table)
  {
    var b := KeyToBucket(item.key);
    assert BucketOk(b, s.index[b], s.hist) && SlotsKept(s.index[b], t.index[b], Reset(s.head));
    assert SlotKept(s.index[b][item.getSlot], t.index[b][item.getSlot], Reset(s.head));
    if Hit(item.key, t.index[b][item.getSlot], t.log) {
      HitAfterPut(s.size, Reset(s.head), s.log, s.hist, s.table, s.lastPut, s.index[b], item.key, item.getSlot, s.head, rec, t.index[b][item.getSlot]);
    }
  }

  /** What stage 1 of an item does to the store: only a PUT changes it. */
  ghost predicate Stage1Effect(s: Store, t: Store, item: Item)
    requires |s.index| == NUM_IDX_BKTS
  {
    if item.kind.Put? then PutEffect(s, t, Record(item.key, item.value)) else t == s
  }

  /** A PUT as the code does it: the scan's choice, after the jump to the next lap if need be. */
  ghost predicate PutStep(s: Store, t: Store, rec: Record) {
    && |s.index| == NUM_IDX_BKTS && |s.index[KeyToBucket(rec.key)]| == SLOTS_PER_BKT
    && exists best: nat, out: seq<int> ::
         && PutChoice(s.index[KeyToBucket(rec.key)], KeyToTag(rec.key), best, out)
         && t == AfterPut(s.(head := Reset(s.head)), rec, best, out)
  }

  /** Stage 1 of an item, which leaves the item as item'. */
  ghost predicate StageOne(s: Store, t: Store, item: Item, item': Item) {
    match item.kind
    case Put => PutStep(s, t, Record(item.key, item.value)) && item' == item
    case Get =>
      && |s.index| == NUM_IDX_BKTS && |s.index[KeyToBucket(item.key)]| == SLOTS_PER_BKT
      && t == s && item' == Remembered(s, item)
    case _ => t == s && item' == item
  }

  /** Stage 2 of an item. */
  function StageTwo(s: Store, item: Item): Response {
    match item.kind
    case Get =>
      if |s.index| == NUM_IDX_BKTS && item.getSlot < |s.index[KeyToBucket(item.key)]| then Stage2(s, item) else Failed
    case Put => Stored
    case _ => Nothing
  }

  lemma RememberedIsStaged(s: Store, item: Item)
    requires StoreOk(s) && ItemOk(item) && item.kind.Get?
    ensures |s.index[KeyToBucket(item.key)]| == SLOTS_PER_BKT && ItemOk(Remembered(s, item))
    ensures Staged(s, Remembered(s, item), s.table)
  {
    var b := KeyToBucket(item.key);
    assert BucketOk(b, s.index[b], s.hist);
    if KeyToTag(item.key) != 0 {
      Stage1Ready(b, s.index[b], s.hist, item.key, s.head, Remembered(s, item).getSlot);
    }
  }

  /** Stage 1 keeps the store and leaves the item ready for stage 2. */
  lemma StageOneKeeps(s: Store, t: Store, item: Item, item': Item)
    requires StoreOk(s) && ItemOk(item) && StageOne(s, t, item, item')
    ensures StoreOk(t) && ItemOk(item') && Stage1Effect(s, t, item) && Staged(t, item', t.table)
    ensures item' == item.(getSlot := item'.getSlot)
    ensures t.table == if item.kind.Put? then s.table[item.key := item.value] else s.table
  {
    if item.kind.Put? {
      var rec := Record(item.key, item.value);
      var best: nat, out: seq<int> :|
        && PutChoice(s.index[KeyToBucket(rec.key)], KeyToTag(rec.key), best, out)
        && t == AfterPut(s.(head := Reset(s.head)), rec, best, out);
      PutHasEffect(s, rec, best, out);
    } else if item.kind.Get? {
      RememberedIsStaged(s, item);
    }
  }

  /** An item that passed stage 1 gets an answer that its key's table allows. */
  lemma StageTwoAnswers(s: Store, t: Store, behind: Item, item: Item)
    requires StoreOk(s) && ItemOk(item) && Staged(s, item, s.table) && Stage1Effect(s, t, behind)
    ensures Answers(item, StageTwo(t, item), s.table, t.table)
  {
    if item.kind.Get? {
      AnswerAfterStage1(s, t, behind, item, s.table);
    }
  }

  /** The answer an item gets in stage 2, after stage 1 of the item behind it. */
  lemma AnswerAfterStage1(s: Store, t: Store, behind: Item, item: Item, since: map<Key, Value>)
    requires StoreOk(s) && ItemOk(item) && item.kind.Get? && Staged(s, item, since)
    requires Stage1Effect(s, t, behind)
    ensures StoreOk(t) && |t.index[KeyToBucket(item.key)]| == SLOTS_PER_BKT
    ensures Answers(item, Stage2(t, item), since, t.table)
    ensures !behind.kind.Put? && KeyToTag(item.key) != 0 ==> Stage2(t, item) == ServedBy(s, item.key)
  {
    OffsetsBelowHead(t, KeyToBucket(item.key));
    if KeyToTag(item.key) == 0 {
    } else if behind.kind.Put? {
      AnswerAfterPut(s, t, Record(behind.key, behind.value), item, since);
    } else {
      AnswerUndisturbed(s, item, since);
    }
  }

  /** One server process. */
  class Server {
    const size: nat                    // S_KV
    var head: nat                      // log_head
    var index: seq<seq<int>>           // ht_index
    var log: map<nat, Record>          // ht_log, by record
    var pipeline: seq<Item>
    var total: nat                     // tot_pipelined
    ghost var hist: map<nat, Record>
    ghost var table: map<Key, Value>
    ghost var lastPut: map<Key, nat>
    ghost var atStage1: seq<map<Key, Value>>  // the table when each item passed stage 1

    ghost function Contents(): Store
      reads this
    {
      Store(size, head, index, log, hist, table, lastPut)
    }

    ghost predicate Sound()
      reads this
    {
      StoreOk(Contents()) && |pipeline| == 2 && |atStage1| == 2 && ItemOk(pipeline[0]) && ItemOk(pipeline[1])
    }

    /** Between two rounds of the request loop, the older item has passed stage 1. */
    ghost predicate Valid()
      reads this
    {
      Sound() && Staged(Contents(), pipeline[total % 2], atStage1[total % 2])
    }

    /** After process_pipeline, the newer item has passed stage 1. */
    ghost predicate Processed()
      reads this
    {
      Sound() && Staged(Contents(), pipeline[1 - total % 2], atStage1[1 - total % 2])
    }

    constructor (size: nat, item: Item)
      requires 1 <= size <= MARGIN && ItemOk(item) && item.kind.Empty?
      ensures Valid() && table == map[] && this.size == size && total == 0
      ensures pipeline == [item, item]
    {
      this.size, head, log, total := size, 0, map[], 0;
      index := seq(NUM_IDX_BKTS, _ => seq(SLOTS_PER_BKT, _ => INVALID_SLOT));
      pipeline := [item, item];
      hist, table, lastPut, atStage1 := map[], map[], map[], [map[], map[]];
      new;
      ModIs(0, size, 0, 0);
    }

    /** The first half of a PUT's stage 1: where the log continues, and the slot scan. */
    method Choose(key: Key, ghost value: Value) returns (start: nat, best: nat, out: seq<int>)
      requires StoreOk(Contents())
      ensures start == Reset(head) && best < |out|
      ensures PutEffect(Contents(), AfterPut(Contents().(head := start), Record(key, value), best, out), Record(key, value))
      ensures PutStep(Contents(), AfterPut(Contents().(head := start), Record(key, value), best, out), Record(key, value))
    {
      start := head;
      if head % LOG_SIZE >= LOG_SIZE - MARGIN {
        start := head + (LOG_SIZE - head % LOG_SIZE);
      }
      OffsetsBelowHead(Contents(), KeyToBucket(key));
      best, out := ScanForPut(index[KeyToBucket(key)], KeyToTag(key), start);
      PutHasEffect(Contents(), Record(key, value), best, out);
    }

    method PutStage1(key: Key, value: Value)
      requires StoreOk(Contents())
      modifies `head, `index, `log, `hist, `table, `lastPut
      ensures PutEffect(old(Contents()), Contents(), Record(key, value))
      ensures PutStep(old(Contents()), Contents(), Record(key, value))
    {
      var rec, b := Record(key, value), KeyToBucket(key);
      var start, best, out := Choose(key, value);
      ghost var t := AfterPut(Contents().(head := start), rec, best, out);
      index := index[b := out[best := Pack(KeyToTag(key), start)]];
      log := Written(size, log, start % LOG_SIZE, rec);
      hist, table, lastPut := hist[start := rec], table[key := value], lastPut[key := start];
      head := start + size;
      assert Contents() == t;
    }

    /** Stage 1 of a GET: remembers the first slot with the tag, if its record has not
        been overwritten; otherwise the item keeps the slot number it had. */
    method GetStage1(ind: nat)
      requires Sound() && ind < 2 && pipeline[ind].kind.Get?
      modifies `pipeline, `atStage1
      ensures Sound()
      ensures pipeline == old(pipeline)[ind := old(pipeline)[ind].(getSlot := pipeline[ind].getSlot)]
      ensures atStage1 == old(atStage1)[ind := table]
      ensures Staged(Contents(), pipeline[ind], atStage1[ind])
      ensures StageOne(Contents(), Contents(), old(pipeline[ind]), pipeline[ind])
    {
      var key := pipeline[ind].key;
      var bkt := index[KeyToBucket(key)];
      assert BucketOk(KeyToBucket(key), bkt, hist);
      var slot := ScanForGet(bkt, KeyToTag(key));
      if slot >= 0 && head - Offset(bkt[slot]) <= LOG_SIZE {
        pipeline := pipeline[ind := pipeline[ind].(getSlot := slot)];
      }
      if KeyToTag(key) != 0 {
        Stage1Ready(KeyToBucket(key), bkt, hist, key, head, pipeline[ind].getSlot);
      }
      atStage1 := atStage1[ind := table];
    }

    method GetStage2(item: Item) returns (out: Response)
      requires StoreOk(Contents()) && ItemOk(item) && |index[KeyToBucket(item.key)]| == SLOTS_PER_BKT
      ensures out == Stage2(Contents(), item)
    {
      var b := KeyToBucket(item.key);
      var slot := index[b][item.getSlot];
      out := Failed;
      if Tag(slot) == KeyToTag(item.key) {
        var addr := Offset(slot) % LOG_SIZE;
        if addr in log && log[addr].key == item.key {
          out := Found(log[addr].value);
        }
      }
    }

    method Stage1(ind: nat)
      requires Sound() && ind < 2
      modifies `head, `index, `log, `hist, `table, `lastPut, `pipeline, `atStage1
      ensures Sound() && Stage1Effect(old(Contents()), Contents(), old(pipeline[ind]))
      ensures Staged(Contents(), pipeline[ind], atStage1[ind])
      ensures StageOne(old(Contents()), Contents(), old(pipeline[ind]), pipeline[ind])
      ensures pipeline[1 - ind] == old(pipeline[1 - ind]) && atStage1[1 - ind] == old(atStage1[1 - ind])
    {
      if pipeline[ind].kind.Put? {
        PutStage1(pipeline[ind].key, pipeline[ind].value);
      } else if pipeline[ind].kind.Get? {
        GetStage1(ind);
      }
    }

    method Stage2Answer(item: Item) returns (out: Response)
      requires StoreOk(Contents()) && ItemOk(item)
      ensures item.kind.Get? ==> |index[KeyToBucket(item.key)]| == SLOTS_PER_BKT && out == Stage2(Contents(), item)
      ensures out == StageTwo(Contents(), item)
    {
      out := Nothing;
      if item.kind.Put? {
        out := Stored;
      } else if item.kind.Get? {
        OffsetsBelowHead(Contents(), KeyToBucket(item.key));
        out := GetStage2(item);
      }
    }

    /** Stage 2 of an item that passed stage 1 when the store was s, after stage 1 of the
        item behind it. */
    method AnswerItem(item: Item, ghost s: Store, ghost behind: Item, ghost since: map<Key, Value>) returns (out: Response)
      requires StoreOk(s) && StoreOk(Contents()) && ItemOk(item) && Staged(s, item, since) && Stage1Effect(s, Contents(), behind)
      ensures out == StageTwo(Contents(), item) && Answers(item, out, since, table)
      ensures item.kind.Get? && !behind.kind.Put? && KeyToTag(item.key) != 0 ==> out == ServedBy(s, item.key)
    {
      out := Stage2Answer(item);
      if item.kind.Get? {
        AnswerAfterStage1(s, Contents(), behind, item, since);
      }
    }

    /** process_pipeline: stage 1 of the newer item, then stage 2 of the older one.

        The answer to a GET is the value of the latest PUT of exactly its key, as of its
        first stage or as of its second; with no PUT between its stages it is exactly what
        Served says. */
    method ProcessPipeline() returns (out: Response)
      requires Valid()
      modifies `head, `index, `log, `hist, `table, `lastPut, `pipeline, `atStage1
      ensures Processed()
      ensures Answers(old(pipeline[total % 2]), out, old(atStage1[total % 2]), table)
      ensures
        old(pipeline[total % 2]).kind.Get? && !old(pipeline[1 - total % 2]).kind.Put? && KeyToTag(old(pipeline[total % 2]).key) != 0
        ==> out == ServedBy(old(Contents()), old(pipeline[total % 2]).key)
      ensures StageOne(old(Contents()), Contents(), old(pipeline[1 - total % 2]), pipeline[1 - total % 2])
      ensures out == StageTwo(Contents(), old(pipeline[total % 2]))
      ensures Stage1Effect(old(Contents()), Contents(), old(pipeline[1 - total % 2]))
    {
      var older, newer := total % 2, 1 - total % 2;
      var item := pipeline[older];
      ghost var s, behind, since := Contents(), pipeline[newer], atStage1[older];
      Stage1(newer);
      out := AnswerItem(item, s, behind, since);
    }

    /** The request loop's push of the next request, or of a dummy, into the place of the
        item just answered. */
    method Push(next: Item)
      requires Processed() && ItemOk(next)
      modifies `pipeline, `total
      ensures Valid() && total == old(total) + 1
      ensures pipeline == old(pipeline)[old(total) % 2 := next]
    {
      ghost var s := Contents();
      pipeline := pipeline[total % 2 := next];
      total := total + 1;
      assert Contents() == s && total % 2 == 1 - old(total) % 2;
    }
  }
}
