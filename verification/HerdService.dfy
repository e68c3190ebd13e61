/** HERD as its clients see it: the windows and pipelines of HerdWindow, carrying requests
    that the stores of HerdStore answer.  Every answer is what the server's table said, and
    every PUT takes effect, at a moment between the request's issue and its answer. */
module HerdService {
  import opened Arithmetic
  import opened Common
  import W = HerdWindow
  import S = HerdStore

  type Client = W.Client
  type Server = W.Server
  type Serial = W.Serial
  type Table = map<S.Key, S.Value>

  /** The n-th request of a client to a server; its get_slot means nothing. */
  type Requests = (Client, Server, Serial) -> S.Item

  /** A server between two rounds of its request loop.  `tables` is its history: what a
      store that loses nothing would hold, at the start and after every round. */
  datatype Service = Service(store: S.Store, older: S.Item, newer: S.Item, tables: seq<Table>)

  /** The whole system.  The last three fields are histories: in which round of the server
      a request was issued and answered, and with what. */
  datatype State = State(size: nat, win: W.State, servers: map<Server, Service>, issuedIn: map<(Client, Server, Serial), nat>,
                         answeredIn: map<(Client, Server, Serial), nat>, answers: map<(Client, Server), seq<S.Response>>)

  const EMPTY: S.Item := S.Item(S.Empty, S.Key(0, 0), "", 0)

  function ServiceOf(s: State, v: Server): Service {
    if v in s.servers then s.servers[v] else Service(S.EmptyStore(s.size), EMPTY, EMPTY, [map[]])
  }

  function AnswersOf(s: State, c: Client, v: Server): seq<S.Response> {
    if (c, v) in s.answers then s.answers[(c, v)] else []
  }

  /** The round a server is in. */
  function Round(s: State, v: Server): nat {
    if ServiceOf(s, v).tables == [] then 0 else |ServiceOf(s, v).tables| - 1
  }

  predicate SameRequest(a: S.Item, b: S.Item) { a.kind == b.kind && a.key == b.key && a.value == b.value }

  /** process_pipeline and the push of `x'.newer`, as S.Server.ProcessPipeline and Push do
      them: stage 1 of the newer item, then stage 2 of the older one. */
  ghost predicate Processes(x: Service, x': Service) {
    && S.StageOne(x.store, x'.store, x.newer, x'.older)
    && S.ItemOk(x'.newer)
    && x'.tables == x.tables + [x'.store.table]
  }

  /** The answers after a round of server v, in which the older request, if any, is
      answered. */
  ghost predicate Answered(s: State, v: Server, t: State) {
    var x, x', p := ServiceOf(s, v), ServiceOf(t, v), W.PipeOf(s.win, v);
    if p.older.Request? then
      && t.answers == s.answers[(p.older.c, v) := AnswersOf(s, p.older.c, v) + [S.StageTwo(x'.store, x.older)]]
      && t.answeredIn == s.answeredIn[(p.older.c, v, p.older.n) := Round(t, v)]
    else t.answers == s.answers && t.answeredIn == s.answeredIn
  }

  ghost predicate ServerRound(s: State, v: Server, t: State) {
    && t.size == s.size && v in t.servers && t.servers == s.servers[v := t.servers[v]] && t.issuedIn == s.issuedIn
    && Processes(ServiceOf(s, v), ServiceOf(t, v)) && Answered(s, v, t)
  }

  ghost predicate Next(req: Requests, s: State, step: W.Step, t: State) {
    && W.Enabled(s.win, step) && t.win == W.Apply(s.win, step)
    && match step
       case Issue(c, v) =>
         t == s.(win := t.win, issuedIn := s.issuedIn[(c, v, W.Chan(s.win, c, v).issued) := Round(s, v)])
       case Poll(v, c) =>
         ServerRound(s, v, t) && SameRequest(ServiceOf(t, v).newer, req(c, v, W.Chan(s.win, c, v).picked))
       case PollNothing(v) => ServerRound(s, v, t) && ServiceOf(t, v).newer.kind.Dummy?
       case _ => t == s.(win := t.win)
  }

  ghost predicate Runs(req: Requests, size: nat, states: seq<State>, steps: seq<W.Step>) {
    && |states| == |steps| + 1 && states[0] == State(size, W.START, map[], map[], map[], map[])
    && forall i :: 0 <= i < |steps| ==> Next(req, states[i], steps[i], states[i + 1])
  }

  // ------------------------------------------------------------------ the invariant

  /** A value the key had in some round from the i-th to the k-th. */
  ghost predicate HadBetween(tables: seq<Table>, i: nat, k: nat, key: S.Key, value: S.Value) {
    exists r :: i <= r <= k && r < |tables| && key in tables[r] && tables[r][key] == value
  }

  /** What a request issued in round i may be answered in round k: a GET fails or finds a
      value its key had in between; a PUT has taken effect in between. */
  ghost predicate Fair(item: S.Item, out: S.Response, tables: seq<Table>, i: nat, k: nat) {
    match item.kind
    case Get =>
      S.KeyToTag(item.key) != 0 ==>
        out == S.Failed || (out.Found? && HadBetween(tables, i, k, item.key, out.value))
    case Put => out == S.Stored && HadBetween(tables, i + 1, k, item.key, item.value)
    case _ => out == S.Nothing
  }

  ghost predicate ServiceOk(x: Service) {
    && S.StoreOk(x.store) && S.ItemOk(x.older) && S.ItemOk(x.newer)
    && x.tables != [] && x.tables[|x.tables| - 1] == x.store.table
    && S.Staged(x.store, x.older, x.store.table)
    && (x.older.kind.Put? ==> x.older.key in x.store.table && x.store.table[x.older.key] == x.older.value)
  }

  /** An item of the pipeline is the request it stands for. */
  predicate ItemIs(req: Requests, v: Server, p: W.Item, x: S.Item) {
    if p.Request? then SameRequest(x, req(p.c, v, p.n)) else x.kind.Dummy? || x.kind.Empty?
  }

  ghost predicate ServerOk(req: Requests, s: State, v: Server) {
    var x, p := ServiceOf(s, v), W.PipeOf(s.win, v);
    ServiceOk(x) && ItemIs(req, v, p.older, x.older) && ItemIs(req, v, p.newer, x.newer)
  }

  /** A request was issued in a round not after the present one, and before it if the
      server has picked the request up. */
  ghost predicate IssueOk(s: State, c: Client, v: Server, n: Serial) {
    var k := (c, v, n);
    k in s.issuedIn && s.issuedIn[k] <= Round(s, v) && (n < W.Chan(s.win, c, v).picked ==> s.issuedIn[k] < Round(s, v))
  }

  ghost predicate AnswerOk(req: Requests, s: State, c: Client, v: Server, n: Serial)
    requires n < |AnswersOf(s, c, v)|
  {
    var k := (c, v, n);
    && k in s.issuedIn && k in s.answeredIn && s.issuedIn[k] < s.answeredIn[k] <= Round(s, v)
    && Fair(req(c, v, n), AnswersOf(s, c, v)[n], ServiceOf(s, v).tables, s.issuedIn[k], s.answeredIn[k])
  }

  ghost predicate ChannelOk(req: Requests, s: State, c: Client, v: Server) {
    && (forall n: Serial {:trigger IssueOk(s, c, v, n)} :: n < W.Chan(s.win, c, v).issued ==> IssueOk(s, c, v, n))
    && |AnswersOf(s, c, v)| == |W.Chan(s.win, c, v).answered|
    && (forall n: Serial {:trigger AnswerOk(req, s, c, v, n)} :: n < |AnswersOf(s, c, v)| ==> AnswerOk(req, s, c, v, n))
  }

  ghost predicate Inv(req: Requests, s: State) {
    && W.Inv(s.win)
    && (forall v {:trigger ServerOk(req, s, v)} :: ServerOk(req, s, v))
    && (forall c, v {:trigger ChannelOk(req, s, c, v)} :: ChannelOk(req, s, c, v))
  }

  // ------------------------------------------------------------------ one server, one round

  lemma ServiceRound(x: Service, x': Service)
    requires ServiceOk(x) && Processes(x, x')
    ensures ServiceOk(x') && SameRequest(x'.older, x.newer)
    ensures S.Answers(x.older, S.StageTwo(x'.store, x.older), x.store.table, x'.store.table)
  {
    S.StageOneKeeps(x.store, x'.store, x.newer, x'.older);
    S.StageTwoAnswers(x.store, x'.store, x.newer, x.older);
  }

  /** The answer of a round is fair to a request issued before. */
  lemma AnswerIsFair(x: Service, x': Service, item: S.Item, i: nat)
    requires ServiceOk(x) && Processes(x, x') && SameRequest(x.older, item) && i < |x.tables| - 1
    ensures Fair(item, S.StageTwo(x'.store, x.older), x'.tables, i, |x'.tables| - 1)
  {
    ServiceRound(x, x');
    var r := |x.tables| - 1;
    assert x'.tables[r] == x.store.table && x'.tables[r + 1] == x'.store.table;
  }

  lemma FairLater(item: S.Item, out: S.Response, tables: seq<Table>, i: nat, k: nat, more: Table)
    requires Fair(item, out, tables, i, k)
    ensures Fair(item, out, tables + [more], i, k)
  {
    if item.kind.Put? {
      HadLater(tables, i + 1, k, item.key, item.value, more);
    } else if item.kind.Get? && out.Found? && HadBetween(tables, i, k, item.key, out.value) {
      HadLater(tables, i, k, item.key, out.value, more);
    }
  }

  lemma HadLater(tables: seq<Table>, i: nat, k: nat, key: S.Key, value: S.Value, more: Table)
    requires HadBetween(tables, i, k, key, value)
    ensures HadBetween(tables + [more], i, k, key, value)
  {
    var r :| i <= r <= k && r < |tables| && key in tables[r] && tables[r][key] == value;
    assert (tables + [more])[r] == tables[r];
  }

  // ------------------------------------------------------------------ what a round does to
  // the windows

  predicate IsRound(step: W.Step, v: Server) {
    (step.Poll? && step.v == v) || (step.PollNothing? && step.v == v)
  }

  /** What a round of server v does to its channel with client d and to its pipeline. */
  ghost predicate Turned(s: W.State, t: W.State, v: Server, d: Client) {
    var a, b, p := W.Chan(s, d, v), W.Chan(t, d, v), W.PipeOf(s, v);
    && b.issued == a.issued && a.picked <= b.picked <= a.picked + 1 && b.picked <= b.issued
    && b.answered == a.answered + W.OnlyIf(p.older, d)
    && W.PipeOf(t, v).older == p.newer
    && (p.older.Request? && p.older.c == d ==> p.older.n == |a.answered| < a.picked)
  }

  lemma RoundTurns(s: W.State, step: W.Step, v: Server, d: Client)
    requires W.Inv(s) && W.Enabled(s, step) && IsRound(step, v)
    ensures Turned(s, W.Apply(s, step), v, d)
  {
    assert W.PairOk(s, d, v);
    W.PipeOrder(W.Chan(s, d, v), W.PipeOf(s, v), d);
    W.StepKeeps(s, step);
    assert W.PairOk(W.Apply(s, step), d, v);
    if step.PollNothing? {
      W.AdvancedChan(s, v, W.Idle, d);
    } else if step.c == d {
      W.PickChan(W.Chan(s, d, v), W.PipeOf(s, v), d);
      W.PollLeaves(s, v, d);
    } else {
      assert W.PairOk(s, step.c, v);
      W.PollOther(s, v, step.c, d);
    }
  }

  lemma RoundPicks(s: W.State, v: Server, c: Client)
    requires W.Inv(s) && W.Enabled(s, W.Poll(v, c))
    ensures W.PipeOf(W.Apply(s, W.Poll(v, c)), v).newer == W.Request(c, W.Chan(s, c, v).picked)
  {
    assert W.PairOk(s, c, v);
    W.PickChan(W.Chan(s, c, v), W.PipeOf(s, v), c);
    W.PollLeaves(s, v, c);
  }

  /** A step changes no channel and no pipeline of a server that has no round in it, as far
      as answers go. */
  ghost predicate Still(s: W.State, t: W.State, v: Server, d: Client) {
    var a, b := W.Chan(s, d, v), W.Chan(t, d, v);
    b.issued == a.issued && b.picked == a.picked && b.answered == a.answered && W.PipeOf(t, v) == W.PipeOf(s, v)
  }

  lemma OthersStill(s: W.State, step: W.Step, v: Server, d: Client)
    requires W.Enabled(s, step) && !IsRound(step, v) && !(step.Issue? && step.c == d && step.v == v)
    ensures Still(s, W.Apply(s, step), v, d)
  {}

  // ------------------------------------------------------------------ every step

  lemma EmptyIsOk(size: nat)
    requires 1 <= size <= S.MARGIN
    ensures S.StoreOk(S.EmptyStore(size))
  {
    var s := S.EmptyStore(size);
    S.InvalidSlot();
    ModIs(0, size, 0, 0);
    forall b | 0 <= b < |s.index|
      ensures S.BucketOk(b, s.index[b], s.hist)
    {
      assert s.index[b] == S.EMPTY_BKT;
    }
  }

  /** A channel that a step leaves alone, of a server whose tables at most grow. */
  lemma ChannelStill(req: Requests, s: State, t: State, c: Client, v: Server)
    requires ChannelOk(req, s, c, v) && Still(s.win, t.win, v, c) && ServiceOf(t, v) == ServiceOf(s, v)
    requires AnswersOf(t, c, v) == AnswersOf(s, c, v)
    requires forall n: Serial :: (c, v, n) in s.issuedIn ==> (c, v, n) in t.issuedIn && t.issuedIn[(c, v, n)] == s.issuedIn[(c, v, n)]
    requires forall n: Serial :: (c, v, n) in s.answeredIn ==>
                                   (c, v, n) in t.answeredIn && t.answeredIn[(c, v, n)] == s.answeredIn[(c, v, n)]
    ensures ChannelOk(req, t, c, v)
  {
    forall n: Serial | n < W.Chan(t.win, c, v).issued
      ensures IssueOk(t, c, v, n)
    {
      assert IssueOk(s, c, v, n);
    }
    forall n: Serial | n < |AnswersOf(t, c, v)|
      ensures AnswerOk(req, t, c, v, n)
    {
      assert AnswerOk(req, s, c, v, n);
    }
  }

  lemma IssueKeeps(req: Requests, s: State, c: Client, v: Server, t: State)
    requires Inv(req, s) && Next(req, s, W.Issue(c, v), t)
    ensures Inv(req, t)
  {
    W.StepKeeps(s.win, W.Issue(c, v));
    forall w: Server
      ensures ServerOk(req, t, w)
    {
      assert ServerOk(req, s, w);
    }
    forall d: Client, w: Server
      ensures ChannelOk(req, t, d, w)
    {
      assert ChannelOk(req, s, d, w) && W.PairOk(s.win, d, w);
      if d == c && w == v {
        IssueOwn(req, s, c, v, t);
      } else {
        OthersStill(s.win, W.Issue(c, v), w, d);
        ChannelStill(req, s, t, d, w);
      }
    }
  }

  /** A step of the windows that does no more to a channel than issue a request. */
  ghost predicate Issued(s: W.State, t: W.State, c: Client, v: Server) {
    var a, b := W.Chan(s, c, v), W.Chan(t, c, v);
    b.issued == a.issued + 1 && b.picked == a.picked <= a.issued && b.answered == a.answered
  }

  lemma IssueOwn(req: Requests, s: State, c: Client, v: Server, t: State)
    requires ChannelOk(req, s, c, v) && Issued(s.win, t.win, c, v) && |W.Chan(s.win, c, v).answered| <= W.Chan(s.win, c, v).issued
    requires t == s.(win := t.win, issuedIn := s.issuedIn[(c, v, W.Chan(s.win, c, v).issued) := Round(s, v)])
    ensures ChannelOk(req, t, c, v)
  {
    forall n: Serial | n < W.Chan(t.win, c, v).issued
      ensures IssueOk(t, c, v, n)
    {
      assert n < W.Chan(s.win, c, v).issued ==> IssueOk(s, c, v, n);
    }
    forall n: Serial | n < |AnswersOf(t, c, v)|
      ensures AnswerOk(req, t, c, v, n)
    {
      assert AnswerOk(req, s, c, v, n);
    }
  }

  lemma MoveKeeps(req: Requests, s: State, step: W.Step, t: State)
    requires Inv(req, s) && Next(req, s, step, t) && (step.Arrive? || step.Receive?)
    ensures Inv(req, t)
  {
    W.StepKeeps(s.win, step);
    forall w: Server
      ensures ServerOk(req, t, w)
    {
      assert ServerOk(req, s, w);
      OthersStill(s.win, step, w, 0);
    }
    forall d: Client, w: Server
      ensures ChannelOk(req, t, d, w)
    {
      assert ChannelOk(req, s, d, w);
      OthersStill(s.win, step, w, d);
      ChannelStill(req, s, t, d, w);
    }
  }

  /** The channels of the server that has the round: one more answer, if the older request
      was this client's. */
  lemma RoundChannel(req: Requests, s: State, v: Server, t: State, d: Client)
    requires ServerOk(req, s, v) && ChannelOk(req, s, d, v) && ServerRound(s, v, t) && Turned(s.win, t.win, v, d)
    requires W.Chan(s.win, d, v).picked <= W.Chan(s.win, d, v).issued
    ensures ChannelOk(req, t, d, v)
  {
    forall n: Serial | n < W.Chan(t.win, d, v).issued
      ensures IssueOk(t, d, v, n)
    {
      assert IssueOk(s, d, v, n);
    }
    forall n: Serial | n < |AnswersOf(t, d, v)|
      ensures AnswerOk(req, t, d, v, n)
    {
      if n < |AnswersOf(s, d, v)| {
        OldAnswer(req, s, v, t, d, n);
      } else {
        NewAnswer(req, s, v, t, d);
      }
    }
  }

  lemma OldAnswer(req: Requests, s: State, v: Server, t: State, d: Client, n: Serial)
    requires ServerOk(req, s, v) && ServerRound(s, v, t) && n < |AnswersOf(s, d, v)| && AnswerOk(req, s, d, v, n)
    requires var p := W.PipeOf(s.win, v); p.older.Request? && p.older.c == d ==> p.older.n == |AnswersOf(s, d, v)|
    ensures n < |AnswersOf(t, d, v)| && AnswerOk(req, t, d, v, n)
  {
    var k, x := (d, v, n), ServiceOf(s, v);
    FairLater(req(d, v, n), AnswersOf(s, d, v)[n], x.tables, s.issuedIn[k], s.answeredIn[k], ServiceOf(t, v).store.table);
  }

  lemma NewAnswer(req: Requests, s: State, v: Server, t: State, d: Client)
    requires ServerOk(req, s, v) && ServerRound(s, v, t)
    requires var p := W.PipeOf(s.win, v);
             && p.older.Request? && p.older.c == d && p.older.n == |AnswersOf(s, d, v)| < W.Chan(s.win, d, v).picked
             && IssueOk(s, d, v, p.older.n)
    ensures |AnswersOf(t, d, v)| == |AnswersOf(s, d, v)| + 1 && AnswerOk(req, t, d, v, |AnswersOf(s, d, v)|)
  {
    var k := (d, v, W.PipeOf(s.win, v).older.n);
    AnswerIsFair(ServiceOf(s, v), ServiceOf(t, v), req(d, v, k.2), s.issuedIn[k]);
  }

  lemma RoundServer(req: Requests, s: State, step: W.Step, v: Server, t: State)
    requires Inv(req, s) && Next(req, s, step, t) && IsRound(step, v)
    ensures ServerOk(req, t, v)
  {
    assert ServerOk(req, s, v);
    ServiceRound(ServiceOf(s, v), ServiceOf(t, v));
    RoundTurns(s.win, step, v, 0);
    if step.Poll? {
      RoundPicks(s.win, v, step.c);
    }
  }

  lemma RoundKeeps(req: Requests, s: State, step: W.Step, v: Server, t: State)
    requires Inv(req, s) && Next(req, s, step, t) && IsRound(step, v)
    ensures Inv(req, t)
  {
    W.StepKeeps(s.win, step);
    forall w: Server
      ensures ServerOk(req, t, w)
    {
      assert ServerOk(req, s, w);
      if w == v {
        RoundServer(req, s, step, v, t);
      } else {
        OthersStill(s.win, step, w, 0);
      }
    }
    forall d: Client, w: Server
      ensures ChannelOk(req, t, d, w)
    {
      if w == v {
        RoundOwn(req, s, step, v, t, d);
      } else {
        assert ChannelOk(req, s, d, w);
        RoundOther(req, s, step, v, t, d, w);
      }
    }
  }

  lemma RoundOwn(req: Requests, s: State, step: W.Step, v: Server, t: State, d: Client)
    requires Inv(req, s) && Next(req, s, step, t) && IsRound(step, v)
    ensures ChannelOk(req, t, d, v)
  {
    assert ServerOk(req, s, v) && ChannelOk(req, s, d, v) && W.PairOk(s.win, d, v);
    RoundTurns(s.win, step, v, d);
    RoundChannel(req, s, v, t, d);
  }

  lemma RoundOther(req: Requests, s: State, step: W.Step, v: Server, t: State, d: Client, w: Server)
    requires ChannelOk(req, s, d, w) && Next(req, s, step, t) && IsRound(step, v) && w != v
    ensures ChannelOk(req, t, d, w)
  {
    OthersStill(s.win, step, w, d);
    ChannelStill(req, s, t, d, w);
  }

  lemma StepKeeps(req: Requests, s: State, step: W.Step, t: State)
    requires Inv(req, s) && Next(req, s, step, t)
    ensures Inv(req, t)
  {
    match step
    case Issue(c, v) => IssueKeeps(req, s, c, v, t);
    case Poll(v, c) => RoundKeeps(req, s, step, v, t);
    case PollNothing(v) => RoundKeeps(req, s, step, v, t);
    case _ => MoveKeeps(req, s, step, t);
  }

  lemma StartIsOk(req: Requests, size: nat)
    requires 1 <= size <= S.MARGIN
    ensures Inv(req, State(size, W.START, map[], map[], map[], map[]))
  {
    EmptyIsOk(size);
    W.RunKeepsInv([]);
  }

  lemma {:induction false} RunKeeps(req: Requests, size: nat, states: seq<State>, steps: seq<W.Step>)
    requires 1 <= size <= S.MARGIN && Runs(req, size, states, steps)
    ensures Inv(req, states[|steps|])
  {
    if steps == [] {
      StartIsOk(req, size);
    } else {
      var n := |steps| - 1;
      RunKeeps(req, size, states[..n + 1], steps[..n]);
      StepKeeps(req, states[n], steps[n], states[n + 1]);
    }
  }

  // ------------------------------------------------------------------ the theorem

  /** After any run, every response that a client has received answers the request it was
      sent for, from a state of the server between the two: a GET of a key whose tag is not
      0 fails, or finds a value that the last PUT of exactly this key had left at some
      moment after the GET was issued and not after it was answered; a PUT took effect at
      such a moment. */
  lemma ReceivedAnswersAreFair(req: Requests, size: nat, states: seq<State>, steps: seq<W.Step>, c: Client, v: Server, i: nat)
    requires 1 <= size <= S.MARGIN && Runs(req, size, states, steps)
    requires i < |W.Chan(states[|steps|].win, c, v).received|
    ensures
      var s := states[|steps|];
      var k := (c, v, W.Chan(s.win, c, v).received[i]);
      && k.2 == i < |AnswersOf(s, c, v)| && k in s.issuedIn && k in s.answeredIn
      && s.issuedIn[k] < s.answeredIn[k] < |ServiceOf(s, v).tables|
      && Fair(req(c, v, i), AnswersOf(s, c, v)[i], ServiceOf(s, v).tables, s.issuedIn[k], s.answeredIn[k])
  {
    RunKeeps(req, size, states, steps);
    var s := states[|steps|];
    assert ServerOk(req, s, v) && ChannelOk(req, s, c, v) && W.PairOk(s.win, c, v);
    assert AnswerOk(req, s, c, v, i);
  }
}
