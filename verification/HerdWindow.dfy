/** Requests and responses between HERD clients and servers (run_client and the request
    loop of run_server in HERD/main.c): windows, request slots and the two-stage pipeline.

    Any number of clients and servers.  Writes from one client to one server arrive in
    order, and so do the responses. */
module HerdWindow {
  import opened Common

  type Client = nat
  type Server = nat
  type Serial = nat       // the n-th request of a client to a server

  const WINDOW_SIZE: nat := 4

  /** What connects a client and a server.  `issued` is num_req_arr of the client and
      `picked` is req_num of the server; `area` are the client's request slots at the
      server, empty when the polled key byte is zero.  The last three are histories: the
      serials that passed stage 1, were answered after stage 2, and were received. */
  datatype Channel = Channel(issued: nat, wire: seq<Serial>, area: seq<Option<Serial>>, picked: nat, back: seq<Serial>,
                             stage1: seq<Serial>, answered: seq<Serial>, received: seq<Serial>)

  datatype Item = Idle | Request(c: Client, n: Serial)    // Idle: an empty or dummy item
  datatype Pipe = Pipe(older: Item, newer: Item)

  /** `pending` is the client's window: the servers of its unanswered requests, in order. */
  datatype State = State(pending: map<Client, seq<Server>>, chans: map<(Client, Server), Channel>, pipes: map<Server, Pipe>)

  const FRESH: Channel := Channel(0, [], [None, None, None, None], 0, [], [], [], [])

  function Pending(s: State, c: Client): seq<Server> { if c in s.pending then s.pending[c] else [] }

  function Chan(s: State, c: Client, v: Server): Channel { if (c, v) in s.chans then s.chans[(c, v)] else FRESH }

  function PipeOf(s: State, v: Server): Pipe { if v in s.pipes then s.pipes[v] else Pipe(Idle, Idle) }

  datatype Step =
    | Issue(c: Client, v: Server)      // post the WRITE of the next request
    | Arrive(c: Client, v: Server)     // the WRITE lands in the request area
    | Poll(v: Server, c: Client)       // a request is found: advance the pipeline, push it
    | PollNothing(v: Server)           // FAIL_LIM failed polls: advance, push a dummy
    | Receive(c: Client)               // the window is full: take the oldest response

  /** The slot a request of a given number uses: the number modulo WINDOW_SIZE. */
  function SlotOf(n: nat): nat { n % WINDOW_SIZE }

  predicate Enabled(s: State, step: Step) {
    match step
    case Issue(c, v) => |Pending(s, c)| < WINDOW_SIZE
    case Arrive(c, v) => |Chan(s, c, v).area| == WINDOW_SIZE && Chan(s, c, v).wire != []
    case Poll(v, c) => |Chan(s, c, v).area| == WINDOW_SIZE && Chan(s, c, v).area[SlotOf(Chan(s, c, v).picked)].Some?
    case PollNothing(v) => true
    case Receive(c) => |Pending(s, c)| == WINDOW_SIZE && Chan(s, c, Pending(s, c)[0]).back != []
  }

  function OnlyIf(item: Item, c: Client): seq<Serial> { if item.Request? && item.c == c then [item.n] else [] }

  /** process_pipeline, seen from one client: the newer item passes stage 1, the older one
      passes stage 2 and is answered. */
  function Processed(ch: Channel, p: Pipe, c: Client): Channel {
    ch.(stage1 := ch.stage1 + OnlyIf(p.newer, c), answered := ch.answered + OnlyIf(p.older, c), back := ch.back + OnlyIf(p.older, c))
  }

  /** The pipeline of a server moves on, for all its clients. */
  function Advanced(s: State, v: Server, next: Item): State {
    var p := PipeOf(s, v);
    s.(pipes := s.pipes[v := Pipe(p.newer, next)],
       chans := map k | k in s.chans :: if k.1 == v then Processed(s.chans[k], p, k.0) else s.chans[k])
  }

  function SetChan(s: State, c: Client, v: Server, ch: Channel): State { s.(chans := s.chans[(c, v) := ch]) }

  function Apply(s: State, step: Step): State
    requires Enabled(s, step)
  {
    match step
    case Issue(c, v) =>
      var ch := Chan(s, c, v);
      SetChan(s, c, v, ch.(issued := ch.issued + 1, wire := ch.wire + [ch.issued])).(pending := s.pending[c := Pending(s, c) + [v]])
    case Arrive(c, v) =>
      var ch := Chan(s, c, v);
      SetChan(s, c, v, ch.(wire := ch.wire[1..], area := ch.area[SlotOf(ch.wire[0]) := Some(ch.wire[0])]))
    case Poll(v, c) =>
      var n := Chan(s, c, v).area[SlotOf(Chan(s, c, v).picked)].value;
      var t := Advanced(s, v, Request(c, n));
      var ch := Chan(t, c, v);
      SetChan(t, c, v, ch.(picked := ch.picked + 1, area := ch.area[SlotOf(ch.picked) := None]))
    case PollNothing(v) => Advanced(s, v, Idle)
    case Receive(c) =>
      var v := Pending(s, c)[0];
      var ch := Chan(s, c, v);
      SetChan(s, c, v, ch.(back := ch.back[1..], received := ch.received + [ch.back[0]])).(pending := s.pending[c := Pending(s, c)[1..]])
  }

  function Run(s: State, steps: seq<Step>): Option<State> {
    if steps == [] then Some(s)
    else
      var r := Run(s, steps[..|steps| - 1]);
      if r.Some? && Enabled(r.value, steps[|steps| - 1]) then Some(Apply(r.value, steps[|steps| - 1])) else None
  }

  const START: State := State(map[], map[], map[])

  // ------------------------------------------------------------------ the invariant

  /** The serials from a on, each once and in order. */
  predicate Counts(xs: seq<Serial>, a: nat) { forall i :: 0 <= i < |xs| ==> xs[i] == a + i }

  function InPipe(p: Pipe, c: Client): seq<Serial> { OnlyIf(p.older, c) + OnlyIf(p.newer, c) }

  function Landed(ch: Channel): int { ch.issued - |ch.wire| }

  predicate AreaOk(ch: Channel) {
    && |ch.area| == WINDOW_SIZE
    && (forall n :: ch.picked <= n < Landed(ch) ==> ch.area[SlotOf(n)] == Some(n))
    && (forall n :: Landed(ch) <= n < ch.picked + WINDOW_SIZE && 0 <= n ==> ch.area[SlotOf(n)] == None)
  }

  /** Issued, landed, picked, answered, received: each request goes through these in turn. */
  predicate ChanOk(ch: Channel, p: Pipe, c: Client) {
    && |ch.received| <= |ch.answered| <= ch.picked <= Landed(ch) <= ch.issued <= |ch.received| + WINDOW_SIZE
    && Counts(ch.received, 0) && Counts(ch.answered, 0) && Counts(ch.stage1, 0)
    && Counts(ch.back, |ch.received|) && |ch.back| == |ch.answered| - |ch.received|
    && Counts(ch.wire, Landed(ch))
    && Counts(InPipe(p, c), |ch.answered|) && |InPipe(p, c)| == ch.picked - |ch.answered|
    && |ch.stage1| == |ch.answered| + |OnlyIf(p.older, c)|
    && AreaOk(ch)
  }

  function Count(vs: seq<Server>, v: Server): nat {
    if vs == [] then 0 else (if vs[0] == v then 1 else 0) + Count(vs[1..], v)
  }

  predicate PairOk(s: State, c: Client, v: Server) {
    ChanOk(Chan(s, c, v), PipeOf(s, v), c) && Chan(s, c, v).issued == |Chan(s, c, v).received| + Count(Pending(s, c), v)
  }

  predicate PipeKnown(s: State, v: Server) {
    && (PipeOf(s, v).older.Request? ==> (PipeOf(s, v).older.c, v) in s.chans)
    && (PipeOf(s, v).newer.Request? ==> (PipeOf(s, v).newer.c, v) in s.chans)
  }

  ghost predicate Inv(s: State) {
    && (forall c, v :: PairOk(s, c, v))
    && (forall c :: |Pending(s, c)| <= WINDOW_SIZE)
    && (forall v :: PipeKnown(s, v))
  }

  // ------------------------------------------------------------------ one channel, one step

  lemma IssueChan(ch: Channel, p: Pipe, c: Client)
    requires ChanOk(ch, p, c) && ch.issued < |ch.received| + WINDOW_SIZE
    ensures ChanOk(ch.(issued := ch.issued + 1, wire := ch.wire + [ch.issued]), p, c)
  {
  }

  /** A request lands in a slot that is free: the request that used it before has been
      answered, and its response received. */
  lemma ArriveChan(ch: Channel, p: Pipe, c: Client)
    requires ChanOk(ch, p, c) && ch.wire != []
    ensures ch.wire[0] == Landed(ch) && ch.area[SlotOf(ch.wire[0])] == None
    ensures ch.wire[0] >= WINDOW_SIZE ==> ch.wire[0] - WINDOW_SIZE < |ch.received| <= |ch.answered|
    ensures ChanOk(ch.(wire := ch.wire[1..], area := ch.area[SlotOf(ch.wire[0]) := Some(ch.wire[0])]), p, c)
  {
    var n := Landed(ch);
    assert ch.wire[0] == n;
    var t := ch.(wire := ch.wire[1..], area := ch.area[SlotOf(n) := Some(n)]);
    assert Counts(t.wire, Landed(t)) by {
      forall i | 0 <= i < |t.wire|
        ensures t.wire[i] == Landed(t) + i
      {
        assert ch.wire[i + 1] == Landed(ch) + (i + 1);
      }
    }
  }

  /** process_pipeline answers exactly the oldest unanswered request of a client, if any. */
  lemma ProcessChan(ch: Channel, p: Pipe, c: Client, next: Item)
    requires ChanOk(ch, p, c) && !(next.Request? && next.c == c)
    ensures ChanOk(Processed(ch, p, c), Pipe(p.newer, next), c)
  {
    PipeOrder(ch, p, c);
  }

  lemma PipeOrder(ch: Channel, p: Pipe, c: Client)
    requires ChanOk(ch, p, c)
    ensures OnlyIf(p.older, c) != [] ==> OnlyIf(p.older, c) == [|ch.answered|]
    ensures OnlyIf(p.newer, c) != [] ==> OnlyIf(p.newer, c) == [|ch.answered| + |OnlyIf(p.older, c)|]
  {
    var q := InPipe(p, c);
    if OnlyIf(p.older, c) != [] {
      assert q[0] == OnlyIf(p.older, c)[0];
    }
    if OnlyIf(p.newer, c) != [] {
      assert q[|OnlyIf(p.older, c)|] == OnlyIf(p.newer, c)[0];
    }
  }

  lemma AllPicked(ch: Channel)
    requires AreaOk(ch) && ch.picked == Landed(ch)
    ensures ch.area[SlotOf(ch.picked)] == None
  {}

  /** A poll that finds a request finds the next one. */
  lemma PickChan(ch: Channel, p: Pipe, c: Client)
    requires ChanOk(ch, p, c) && ch.area[SlotOf(ch.picked)].Some?
    ensures ch.area[SlotOf(ch.picked)] == Some(ch.picked) && ch.picked < Landed(ch)
    ensures
      var t := Processed(ch, p, c);
      ChanOk(t.(picked := t.picked + 1, area := t.area[SlotOf(t.picked) := None]), Pipe(p.newer, Request(c, ch.picked)), c)
  {
    PipeOrder(ch, p, c);
    if ch.picked == Landed(ch) {
      AllPicked(ch);
      assert false;
    }
    PickArea(ch);
    PickPipe(ch, p, c);
  }

  lemma PickPipe(ch: Channel, p: Pipe, c: Client)
    requires ChanOk(ch, p, c)
    ensures
      var t, q := Processed(ch, p, c), InPipe(Pipe(p.newer, Request(c, ch.picked)), c);
      && Counts(t.answered, 0) && Counts(t.stage1, 0) && Counts(t.back, |t.received|) && |t.back| == |t.answered| - |t.received|
      && |t.answered| <= t.picked && |t.stage1| == |t.answered| + |OnlyIf(p.newer, c)|
      && Counts(q, |t.answered|) && |q| == t.picked + 1 - |t.answered|
  {
    PipeOrder(ch, p, c);
  }

  lemma PickArea(ch: Channel)
    requires AreaOk(ch) && ch.picked < Landed(ch) <= ch.picked + WINDOW_SIZE
    ensures ch.area[SlotOf(ch.picked)] == Some(ch.picked)
    ensures AreaOk(ch.(picked := ch.picked + 1, area := ch.area[SlotOf(ch.picked) := None]))
  {
  }

  lemma ReceiveChan(ch: Channel, p: Pipe, c: Client)
    requires ChanOk(ch, p, c) && ch.back != []
    ensures ChanOk(ch.(back := ch.back[1..], received := ch.received + [ch.back[0]]), p, c)
  {
    forall i | 0 <= i < |ch.back| - 1
      ensures ch.back[1..][i] == |ch.received| + 1 + i
    {
      assert ch.back[i + 1] == |ch.received| + (i + 1);
    }
  }

  // ------------------------------------------------------------------ the whole system

  lemma {:induction false} CountBound(vs: seq<Server>, v: Server)
    ensures Count(vs, v) <= |vs|
  {
    if vs != [] {
      CountBound(vs[1..], v);
    }
  }

  lemma {:induction false} CountAppend(vs: seq<Server>, w: Server, v: Server)
    ensures Count(vs + [w], v) == Count(vs, v) + if w == v then 1 else 0
  {
    if vs == [] {
      assert vs + [w] == [w];
    } else {
      CountAppend(vs[1..], w, v);
      assert (vs + [w])[1..] == vs[1..] + [w];
    }
  }

  lemma IssueOwn(s: State, c: Client, v: Server)
    requires PairOk(s, c, v) && Enabled(s, Issue(c, v))
    ensures PairOk(Apply(s, Issue(c, v)), c, v)
  {
    var t, ch := Apply(s, Issue(c, v)), Chan(s, c, v);
    CountAppend(Pending(s, c), v, v);
    CountBound(Pending(s, c), v);
    IssueChan(ch, PipeOf(s, v), c);
    assert Chan(t, c, v) == ch.(issued := ch.issued + 1, wire := ch.wire + [ch.issued]) && PipeOf(t, v) == PipeOf(s, v);
    assert Pending(t, c) == Pending(s, c) + [v];
  }

  lemma IssuePair(s: State, c: Client, v: Server, d: Client, w: Server)
    requires PairOk(s, d, w) && Enabled(s, Issue(c, v))
    ensures PairOk(Apply(s, Issue(c, v)), d, w)
  {
    if (d, w) == (c, v) {
      IssueOwn(s, c, v);
    } else {
      var t := Apply(s, Issue(c, v));
      assert Chan(t, d, w) == Chan(s, d, w) && PipeOf(t, w) == PipeOf(s, w);
      CountAppend(Pending(s, c), v, w);
    }
  }

  lemma IssueKeeps(s: State, c: Client, v: Server)
    requires Inv(s) && Enabled(s, Issue(c, v))
    ensures Inv(Apply(s, Issue(c, v)))
  {
    var t := Apply(s, Issue(c, v));
    forall d: Client, w: Server
      ensures PairOk(t, d, w)
    {
      assert PairOk(s, d, w);
      IssuePair(s, c, v, d, w);
    }
    forall d
      ensures |Pending(t, d)| <= WINDOW_SIZE
    {
      assert |Pending(s, d)| <= WINDOW_SIZE;
    }
    forall w
      ensures PipeKnown(t, w)
    {
      assert PipeKnown(s, w);
    }
  }

  lemma ArriveKeeps(s: State, c: Client, v: Server)
    requires Inv(s) && Enabled(s, Arrive(c, v))
    ensures Inv(Apply(s, Arrive(c, v)))
  {
    var t := Apply(s, Arrive(c, v));
    forall d: Client, w: Server
      ensures PairOk(t, d, w)
    {
      assert PairOk(s, d, w);
      ArrivePair(s, c, v, d, w);
    }
    SameWindows(s, t);
  }

  lemma ArrivePair(s: State, c: Client, v: Server, d: Client, w: Server)
    requires PairOk(s, d, w) && Enabled(s, Arrive(c, v))
    ensures PairOk(Apply(s, Arrive(c, v)), d, w)
  {
    if (d, w) == (c, v) {
      ArriveChan(Chan(s, c, v), PipeOf(s, v), c);
    } else {
      var t := Apply(s, Arrive(c, v));
      assert Chan(t, d, w) == Chan(s, d, w) && PipeOf(t, w) == PipeOf(s, w);
    }
  }

  lemma SameWindows(s: State, t: State)
    requires Inv(s) && t.pending == s.pending && t.pipes == s.pipes && s.chans.Keys <= t.chans.Keys
    ensures (forall c :: |Pending(t, c)| <= WINDOW_SIZE) && (forall v :: PipeKnown(t, v))
  {
    forall c
      ensures |Pending(t, c)| <= WINDOW_SIZE
    {
      assert |Pending(s, c)| <= WINDOW_SIZE;
    }
    forall v
      ensures PipeKnown(t, v)
    {
      assert PipeKnown(s, v);
    }
  }

  /** One channel of a server whose pipeline advances without taking a request of it. */
  lemma AdvancedChan(s: State, v: Server, next: Item, c: Client)
    requires Inv(s)
    ensures Chan(Advanced(s, v, next), c, v) == Processed(Chan(s, c, v), PipeOf(s, v), c)
  {
    assert PipeKnown(s, v);
    var p := PipeOf(s, v);
    if (c, v) !in s.chans {
      assert OnlyIf(p.older, c) == [] && OnlyIf(p.newer, c) == [];
      assert FRESH.stage1 + [] == FRESH.stage1 && FRESH.answered + [] == FRESH.answered && FRESH.back + [] == FRESH.back;
    }
  }

  lemma PollNothingKeeps(s: State, v: Server)
    requires Inv(s)
    ensures Inv(Advanced(s, v, Idle))
  {
    var t := Advanced(s, v, Idle);
    forall d: Client, w: Server
      ensures PairOk(t, d, w)
    {
      assert PairOk(s, d, w);
      if w == v {
        AdvancedChan(s, v, Idle, d);
        ProcessChan(Chan(s, d, v), PipeOf(s, v), d, Idle);
      }
    }
    forall w
      ensures PipeKnown(t, w)
    {
      assert PipeKnown(s, w);
    }
    forall c
      ensures |Pending(t, c)| <= WINDOW_SIZE
    {
      assert |Pending(s, c)| <= WINDOW_SIZE;
    }
  }

  /** Where a poll leaves the channel it found a request in, and the pipeline. */
  lemma PollLeaves(s: State, v: Server, c: Client)
    requires Inv(s) && Enabled(s, Poll(v, c)) && Chan(s, c, v).area[SlotOf(Chan(s, c, v).picked)] == Some(Chan(s, c, v).picked)
    ensures
      var t, ch, p := Apply(s, Poll(v, c)), Processed(Chan(s, c, v), PipeOf(s, v), c), PipeOf(s, v);
      && Chan(t, c, v) == ch.(picked := ch.picked + 1, area := ch.area[SlotOf(ch.picked) := None])
      && PipeOf(t, v) == Pipe(p.newer, Request(c, ch.picked))
  {
    AdvancedChan(s, v, Request(c, Chan(s, c, v).picked), c);
  }

  lemma PollOther(s: State, v: Server, c: Client, d: Client)
    requires Inv(s) && Enabled(s, Poll(v, c)) && d != c
    ensures
      var n := Chan(s, c, v).area[SlotOf(Chan(s, c, v).picked)].value;
      && Chan(Apply(s, Poll(v, c)), d, v) == Processed(Chan(s, d, v), PipeOf(s, v), d)
      && PipeOf(Apply(s, Poll(v, c)), v) == Pipe(PipeOf(s, v).newer, Request(c, n))
  {
    AdvancedChan(s, v, Request(c, Chan(s, c, v).area[SlotOf(Chan(s, c, v).picked)].value), d);
  }

  lemma PollOwn(s: State, v: Server, c: Client)
    requires Inv(s) && Enabled(s, Poll(v, c))
    ensures PairOk(Apply(s, Poll(v, c)), c, v)
  {
    assert PairOk(s, c, v);
    PickChan(Chan(s, c, v), PipeOf(s, v), c);
    PollLeaves(s, v, c);
  }

  lemma PollBeside(s: State, v: Server, c: Client, d: Client)
    requires Inv(s) && Enabled(s, Poll(v, c)) && d != c
    ensures PairOk(Apply(s, Poll(v, c)), d, v)
  {
    assert PairOk(s, d, v);
    PollOther(s, v, c, d);
    ProcessChan(Chan(s, d, v), PipeOf(s, v), d, Request(c, Chan(s, c, v).area[SlotOf(Chan(s, c, v).picked)].value));
  }

  lemma PollPair(s: State, v: Server, c: Client, d: Client, w: Server)
    requires Inv(s) && Enabled(s, Poll(v, c))
    ensures PairOk(Apply(s, Poll(v, c)), d, w)
  {
    if w == v && d == c {
      PollOwn(s, v, c);
    } else if w == v {
      PollBeside(s, v, c, d);
    } else {
      var t := Apply(s, Poll(v, c));
      assert PairOk(s, d, w);
      assert Chan(t, d, w) == Chan(s, d, w) && PipeOf(t, w) == PipeOf(s, w) && Pending(t, d) == Pending(s, d);
    }
  }

  lemma PollKeeps(s: State, v: Server, c: Client)
    requires Inv(s) && Enabled(s, Poll(v, c))
    ensures Inv(Apply(s, Poll(v, c)))
  {
    var t := Apply(s, Poll(v, c));
    forall d: Client, w: Server
      ensures PairOk(t, d, w)
    {
      PollPair(s, v, c, d, w);
    }
    forall w
      ensures PipeKnown(t, w)
    {
      assert PipeKnown(s, w);
    }
    forall d
      ensures |Pending(t, d)| <= WINDOW_SIZE
    {
      assert |Pending(s, d)| <= WINDOW_SIZE;
    }
  }

  lemma ReceivePair(s: State, c: Client, d: Client, w: Server)
    requires PairOk(s, d, w) && Enabled(s, Receive(c))
    ensures PairOk(Apply(s, Receive(c)), d, w)
  {
    if (d, w) == (c, Pending(s, c)[0]) {
      ReceiveChan(Chan(s, c, w), PipeOf(s, w), c);
    } else {
      var t := Apply(s, Receive(c));
      assert Chan(t, d, w) == Chan(s, d, w) && PipeOf(t, w) == PipeOf(s, w);
    }
  }

  lemma ReceiveKeeps(s: State, c: Client)
    requires Inv(s) && Enabled(s, Receive(c))
    ensures Inv(Apply(s, Receive(c)))
  {
    var t := Apply(s, Receive(c));
    forall d: Client, w: Server
      ensures PairOk(t, d, w)
    {
      assert PairOk(s, d, w);
      ReceivePair(s, c, d, w);
    }
    forall w
      ensures PipeKnown(t, w)
    {
      assert PipeKnown(s, w);
    }
    forall d
      ensures |Pending(t, d)| <= WINDOW_SIZE
    {
      assert |Pending(s, d)| <= WINDOW_SIZE;
    }
  }

  lemma StepKeeps(s: State, step: Step)
    requires Inv(s) && Enabled(s, step)
    ensures Inv(Apply(s, step))
  {
    match step
    case Issue(c, v) => IssueKeeps(s, c, v);
    case Arrive(c, v) => ArriveKeeps(s, c, v);
    case Poll(v, c) => PollKeeps(s, v, c);
    case PollNothing(v) => PollNothingKeeps(s, v);
    case Receive(c) => ReceiveKeeps(s, c);
  }

  lemma {:induction false} RunKeepsInv(steps: seq<Step>)
    requires Run(START, steps).Some?
    ensures Inv(Run(START, steps).value)
  {
    if steps == [] {
      forall c: Client, v: Server
        ensures PairOk(START, c, v)
      {
      }
    } else {
      RunKeepsInv(steps[..|steps| - 1]);
      StepKeeps(Run(START, steps[..|steps| - 1]).value, steps[|steps| - 1]);
    }
  }

  // ------------------------------------------------------------------ the theorems

  /** For each client and server, requests pass stage 1, are answered and are received
      exactly once and in the order they were issued, stage 1 before the answer. */
  lemma InIssueOrder(steps: seq<Step>, c: Client, v: Server)
    requires Run(START, steps).Some?
    ensures
      var ch := Chan(Run(START, steps).value, c, v);
      && Counts(ch.stage1, 0) && Counts(ch.answered, 0) && Counts(ch.received, 0)
      && |ch.received| <= |ch.answered| <= |ch.stage1| <= ch.picked <= ch.issued <= |ch.received| + WINDOW_SIZE
      && ch.picked <= |ch.stage1| + 1 && |ch.stage1| <= |ch.answered| + 1
  {
    RunKeepsInv(steps);
    assert PairOk(Run(START, steps).value, c, v);
  }

  /** A request is never written over one that has not been answered: the slot is empty,
      and the request that used it before has been answered and received. */
  lemma SlotIsFree(steps: seq<Step>, c: Client, v: Server)
    requires Run(START, steps).Some? && Enabled(Run(START, steps).value, Arrive(c, v))
    ensures
      var ch := Chan(Run(START, steps).value, c, v);
      && ch.area[SlotOf(ch.wire[0])] == None
      && (ch.wire[0] >= WINDOW_SIZE ==> ch.wire[0] - WINDOW_SIZE < |ch.received| <= |ch.answered|)
  {
    RunKeepsInv(steps);
    var t := Run(START, steps).value;
    assert PairOk(t, c, v);
    ArriveChan(Chan(t, c, v), PipeOf(t, v), c);
  }

  /** A request found by polling is the next of its client, so it is picked up once. */
  lemma PickedOnce(steps: seq<Step>, c: Client, v: Server)
    requires Run(START, steps).Some? && Enabled(Run(START, steps).value, Poll(v, c))
    ensures
      var t := Run(START, steps).value;
      var ch := Chan(t, c, v);
      && ch.area[SlotOf(ch.picked)] == Some(ch.picked)
      && PipeOf(Apply(t, Poll(v, c)), v).newer == Request(c, ch.picked)
      && Chan(Apply(t, Poll(v, c)), c, v).picked == ch.picked + 1
  {
    RunKeepsInv(steps);
    var t := Run(START, steps).value;
    assert PairOk(t, c, v);
    PickChan(Chan(t, c, v), PipeOf(t, v), c);
    AdvancedChan(t, v, Request(c, Chan(t, c, v).picked), c);
  }
}
