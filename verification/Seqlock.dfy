/** The optimistic reader of silo/tuple.h: header bits, the lock holder's field-by-field
    and byte-by-byte updates, and a reader that takes no lock.

    One tuple is shared by any number of writers, of which at most one holds the lock,
    and is read by a reader running `record_at` (one round of its loop) or
    `stable_is_latest_version`.  Other readers change nothing and need not be present. */
module Seqlock {
  import opened Common

  /** `locked | deleting | write_intent | modifying | latest | version`, the last one
      here an unbounded counter called `ctr`. */
  datatype Header = Header(locked: bool, deleting: bool, intent: bool, modifying: bool, latest: bool, ctr: nat)

  /** `next` stands for the pointer to the older version. */
  datatype Cell = Cell(hdr: Header, version: nat, size: nat, buf: seq<int>, next: int)

  datatype Result =
    | Tentative                                            // READ_EMPTY at MIN_TID
    | Found(version: nat, deleting: bool, bytes: seq<int>) // READ_RECORD or READ_EMPTY
    | Behind(next: int)                                    // version above t, go down the chain

  datatype Reader =
    | Start
    | Loop                                                  // about to load the header
    | Loaded(v: Header)
    | Timed(v: Header, behind: bool)                        // is_not_behind(t) evaluated
    | Dated(v: Header, version: nat)                        // start_t read
    | Sized(v: Header, version: nat, n: nat, bytes: seq<int>)
    | Linked(v: Header, next: int)
    | Returned(r: Result)
    | Checking(v: Header)                                   // stable_is_latest_version
    | Checked(v: Header, ok: bool)
    | Answered(ok: bool)

  /** `snap` records the tuple as it was when the reader last loaded the header. */
  datatype State = State(cell: Cell, reader: Reader, snap: Cell)

  datatype Step =
    // the writers
    | Lock(intent: bool) | MarkModifying | WriteByte(i: nat, b: int) | WriteVersion(version: nat)
    | WriteSize(n: nat) | WriteNext(next: int) | MarkDeleting | ClearLatest | InsertVersion(version: nat) | Unlock
    // the reader of a record at tid t
    | TestTentative | Load | TestVersion | TakeVersion | TakeSize | TakeByte | TakeNext | CheckRead | NoRoom
    // the validator
    | LoadForCheck | TestLatest | CheckSame

  datatype Config = Config(t: nat, allowIntent: bool)

  predicate Enabled(c: Config, s: State, step: Step) {
    match step
    case Lock(_) => !s.cell.hdr.locked
    case MarkModifying => s.cell.hdr.locked && s.cell.hdr.intent
    case WriteByte(i, b) => s.cell.hdr.locked && s.cell.hdr.modifying && i < |s.cell.buf|
    case WriteVersion(version) => s.cell.hdr.locked && s.cell.hdr.modifying && version < MAX_TID
    case WriteSize(n) => s.cell.hdr.locked && s.cell.hdr.modifying && n <= |s.cell.buf|
    case WriteNext(_) => s.cell.hdr.locked && s.cell.hdr.modifying
    case MarkDeleting => s.cell.hdr.locked && s.cell.hdr.modifying
    case ClearLatest => s.cell.hdr.locked
    case InsertVersion(version) =>
      s.cell.hdr.locked && s.cell.hdr.intent && s.cell.version == MAX_TID && version < MAX_TID
    case Unlock => s.cell.hdr.locked
    case TestTentative => s.reader.Start?
    case Load => s.reader.Loop? && !s.cell.hdr.modifying && (c.allowIntent || !s.cell.hdr.intent)
    case TestVersion => s.reader.Loaded?
    case TakeVersion => s.reader.Timed? && !s.reader.behind
    case TakeSize => s.reader.Dated?
    case TakeByte => s.reader.Sized? && |s.reader.bytes| < s.reader.n <= |s.cell.buf|
    case TakeNext => s.reader.Timed? && s.reader.behind
    case CheckRead => (s.reader.Sized? && |s.reader.bytes| == s.reader.n) || s.reader.Linked?
    case NoRoom => s.reader.Sized?
    case LoadForCheck => s.reader.Start? && !s.cell.hdr.intent
    case TestLatest => s.reader.Checking?
    case CheckSame => s.reader.Checked?
  }

  function WithHdr(s: State, h: Header): State { s.(cell := s.cell.(hdr := h)) }

  /** unlock(): the counter moves on if the holder had write intent or was modifying. */
  function Unlocked(h: Header): Header {
    h.(locked := false, modifying := false, intent := false,
       ctr := if h.modifying || h.intent then h.ctr + 1 else h.ctr)
  }

  /** reader_check_version(): equal but for the locked, write_intent and latest bits. */
  predicate SameForReader(h: Header, v: Header) {
    h.deleting == v.deleting && h.modifying == v.modifying && h.ctr == v.ctr
  }

  function Apply(c: Config, s: State, step: Step): State
    requires Enabled(c, s, step)
  {
    var h := s.cell.hdr;
    match step
    case Lock(intent) => WithHdr(s, h.(locked := true, intent := intent))
    case MarkModifying => WithHdr(s, h.(modifying := true))
    case WriteByte(i, b) => s.(cell := s.cell.(buf := s.cell.buf[i := b]))
    case WriteVersion(version) => s.(cell := s.cell.(version := version))
    case WriteSize(n) => s.(cell := s.cell.(size := n))
    case WriteNext(next) => s.(cell := s.cell.(next := next))
    case MarkDeleting => WithHdr(s, h.(deleting := true))
    case ClearLatest => WithHdr(s, h.(latest := false))
    case InsertVersion(version) => s.(cell := s.cell.(version := version))
    case Unlock => WithHdr(s, Unlocked(h))
    case TestTentative => s.(reader := if s.cell.version == MAX_TID then Returned(Tentative) else Loop)
    case Load => s.(reader := Loaded(h), snap := s.cell)
    case TestVersion => s.(reader := Timed(s.reader.v, s.cell.version > c.t))
    case TakeVersion => s.(reader := Dated(s.reader.v, s.cell.version))
    case TakeSize =>
      s.(reader := Sized(s.reader.v, s.reader.version, if s.reader.v.deleting then 0 else s.cell.size, []))
    case TakeByte =>
      s.(reader := s.reader.(bytes := s.reader.bytes + [s.cell.buf[|s.reader.bytes|]]))
    case TakeNext => s.(reader := Linked(s.reader.v, s.cell.next))
    case CheckRead =>
      s.(reader := if !SameForReader(h, s.reader.v) then Loop
                   else if s.reader.Linked? then Returned(Behind(s.reader.next))
                   else Returned(Found(s.reader.version, s.reader.v.deleting, s.reader.bytes)))
    case NoRoom => s.(reader := Loop)   // the caller's buffer was too small: retry
    case LoadForCheck => s.(reader := Checking(h), snap := s.cell)
    case TestLatest => s.(reader := Checked(s.reader.v, s.reader.v.latest && s.cell.version <= c.t))
    case CheckSame => s.(reader := Answered(s.reader.ok && h == s.reader.v))
  }

  predicate Initial(s: State) {
    !s.cell.hdr.locked && !s.cell.hdr.modifying && !s.cell.hdr.intent && s.cell.size <= |s.cell.buf|
    && s.cell.version <= MAX_TID && s.reader == Start
  }

  function Run(c: Config, s: State, steps: seq<Step>): Option<State> {
    if steps == [] then Some(s)
    else
      var r := Run(c, s, steps[..|steps| - 1]);
      if r.Some? && Enabled(c, r.value, steps[|steps| - 1])
      then Some(Apply(c, r.value, steps[|steps| - 1])) else None
  }

  // ------------------------------------------------------------------ the invariant

  /** The tuple is not in the middle of an update. */
  predicate Stable(x: Cell) { !x.hdr.modifying && x.size <= |x.buf| }

  predicate SameContent(x: Cell, y: Cell) {
    x.version == y.version && x.size == y.size && x.buf == y.buf && x.next == y.next && x.hdr.deleting == y.hdr.deleting
  }

  /** The header has not moved on since `v` was loaded.  Once false, it stays false. */
  predicate Current(s: State, v: Header) { s.cell.hdr.ctr == v.ctr && !s.cell.hdr.modifying }

  predicate HasHeader(r: Reader) { r.Loaded? || r.Timed? || r.Dated? || r.Sized? || r.Linked? }

  predicate IsChecking(r: Reader) { r.Checking? || r.Checked? }

  function RecordOf(x: Cell): seq<int>
    requires x.size <= |x.buf|
  {
    if x.hdr.deleting then [] else x.buf[..x.size]
  }

  /** What the reader has collected so far agrees with the tuple it loaded. */
  predicate Collected(c: Config, r: Reader, x: Cell)
    requires x.size <= |x.buf|
  {
    && (r.Timed? ==> (r.behind <==> x.version > c.t))
    && (r.Dated? ==> r.version == x.version <= c.t)
    && (r.Sized? ==> r.version == x.version <= c.t && r.n == |RecordOf(x)| && r.bytes <= RecordOf(x))
    && (r.Linked? ==> r.next == x.next && x.version > c.t)
    && (r.Checked? ==> r.ok ==> x.hdr.latest && x.version <= c.t)
  }

  predicate Answers(c: Config, r: Result, x: Cell)
    requires x.size <= |x.buf|
  {
    match r
    case Tentative => true
    case Found(version, deleting, bytes) =>
      version == x.version <= c.t && deleting == x.hdr.deleting && bytes == RecordOf(x)
    case Behind(next) => next == x.next && x.version > c.t
  }

  predicate Inv(c: Config, s: State) {
    && s.cell.size <= |s.cell.buf| && s.cell.version <= MAX_TID
    && (s.cell.hdr.modifying ==> s.cell.hdr.intent) && (s.cell.hdr.intent ==> s.cell.hdr.locked)
    && (s.reader.Loop? || HasHeader(s.reader) ==> s.cell.version < MAX_TID)
    && (HasHeader(s.reader) || IsChecking(s.reader) ==>
          Stable(s.snap) && s.reader.v == s.snap.hdr && s.reader.v.ctr <= s.cell.hdr.ctr)
    && (HasHeader(s.reader) ==>
          && (c.allowIntent || !s.snap.hdr.intent)
          && (Current(s, s.reader.v) ==> SameContent(s.cell, s.snap) && Collected(c, s.reader, s.snap)))
    && (IsChecking(s.reader) ==>
          && !s.reader.v.intent
          && (Current(s, s.reader.v) && !s.cell.hdr.intent ==>
                SameContent(s.cell, s.snap) && Collected(c, s.reader, s.snap)))
    && (s.reader.Returned? && !s.reader.r.Tentative? ==>
          Stable(s.snap) && (c.allowIntent || !s.snap.hdr.intent) && Answers(c, s.reader.r, s.snap))
    && (s.reader.Answered? && s.reader.ok ==>
          Stable(s.snap) && s.snap.hdr.latest && !s.snap.hdr.intent && s.snap.version <= c.t)
  }

  predicate ByWriter(step: Step) {
    || step.Lock? || step.MarkModifying? || step.WriteByte? || step.WriteVersion? || step.WriteSize?
    || step.WriteNext? || step.MarkDeleting? || step.ClearLatest? || step.InsertVersion? || step.Unlock?
  }

  lemma WriterKeepsInv(c: Config, s: State, step: Step)
    requires Inv(c, s) && Enabled(c, s, step) && ByWriter(step)
    ensures Inv(c, Apply(c, s, step))
  {}

  lemma ReaderKeepsInv(c: Config, s: State, step: Step)
    requires Inv(c, s) && Enabled(c, s, step) && !ByWriter(step)
    ensures Inv(c, Apply(c, s, step))
  {}

  lemma {:induction false} RunKeepsInv(c: Config, s: State, steps: seq<Step>)
    requires Initial(s) && Run(c, s, steps).Some?
    ensures Inv(c, Run(c, s, steps).value)
  {
    if steps != [] {
      var n := |steps| - 1;
      RunKeepsInv(c, s, steps[..n]);
      var before := Run(c, s, steps[..n]).value;
      if ByWriter(steps[n]) {
        WriterKeepsInv(c, before, steps[n]);
      } else {
        ReaderKeepsInv(c, before, steps[n]);
      }
    }
  }

  /** The recorded snapshot is the tuple as it was at some moment of the run. */
  lemma {:induction false} SnapHappened(c: Config, s: State, steps: seq<Step>) returns (i: nat)
    requires Initial(s) && Run(c, s, steps).Some?
    requires var r := Run(c, s, steps).value.reader;
             HasHeader(r) || IsChecking(r) || r.Answered? || (r.Returned? && !r.r.Tentative?)
    ensures i <= |steps| && Run(c, s, steps[..i]).Some?
    ensures Run(c, s, steps[..i]).value.cell == Run(c, s, steps).value.snap
  {
    var n := |steps| - 1;
    if steps[n].Load? || steps[n].LoadForCheck? {
      i := n;
    } else {
      i := SnapHappened(c, s, steps[..n]);
      assert steps[..n][..i] == steps[..i];
    }
  }

  // ------------------------------------------------------------------ theorems

  /** Whatever writers do meanwhile, a read that returns a record returns the version,
      the deleting bit and the bytes that the tuple had together at one moment of the
      run, a moment at which no update was in progress and, unless the reader allows
      write intent, nobody held the lock with write intent.  A read that goes down the
      chain found the version too new, and the next pointer, at one such moment. */
  lemma StableReadIsAtomic(c: Config, s: State, steps: seq<Step>) returns (i: nat)
    requires Initial(s) && Run(c, s, steps).Some?
    requires Run(c, s, steps).value.reader.Returned? && !Run(c, s, steps).value.reader.r.Tentative?
    ensures i <= |steps| && Run(c, s, steps[..i]).Some?
    ensures var x := Run(c, s, steps[..i]).value.cell;
            Stable(x) && (c.allowIntent || !x.hdr.intent) && Answers(c, Run(c, s, steps).value.reader.r, x)
  {
    RunKeepsInv(c, s, steps);
    i := SnapHappened(c, s, steps);
  }

  /** A validation that succeeds did find the tuple latest, unlocked for writing and at a
      version the reader has seen, all at one moment of the run. */
  lemma ValidationIsAtomic(c: Config, s: State, steps: seq<Step>) returns (i: nat)
    requires Initial(s) && Run(c, s, steps).Some?
    requires Run(c, s, steps).value.reader.Answered? && Run(c, s, steps).value.reader.ok
    ensures i <= |steps| && Run(c, s, steps[..i]).Some?
    ensures var x := Run(c, s, steps[..i]).value.cell;
            Stable(x) && x.hdr.latest && !x.hdr.intent && x.version <= c.t
  {
    RunKeepsInv(c, s, steps);
    i := SnapHappened(c, s, steps);
  }
}
