/** Epoch-based reclamation: the global tick, the per-core guards and the ticker thread
    of silo/ticker.h, and the deferred-free queues of silo/rcu.cc and silo/rcu.h.

    Each core runs one thread.  Every access to a shared word is a step of its own. */
module Epoch {
  import opened Common
  import opened Arithmetic

  datatype Holder = Free | ByThread | ByTicker

  /** Where a core's thread is in the guard's constructor or destructor. */
  datatype Thread =
    | Outside
    | Bumped             // depth_ is 1, the lock not yet taken
    | Locked             // lock taken, global tick not yet read
    | Read(tick: nat)    // global tick read, not yet stored
    | Inside(depth: nat) // the guard's constructor has completed
    | Leaving            // depth_ is 0 again, the lock not yet released

  /** The use of an outermost guard on a core, numbered from 1 on each core. */
  datatype Session = Session(core: nat, number: nat)

  /** A deferred free: the tick of the guard that made it, and the guards that were
      active at that moment.  `tick` and `seen` only serve to state the property;
      the queue itself stores `rcuTick`. */
  datatype Entry = Entry(rcuTick: nat, tick: nat, seen: set<Session>)

  datatype Core = Core(lock: Holder, tick: nat, thread: Thread, session: nat,
                       queue: seq<Entry>, scratch: seq<Entry>, lastReaped: nat)

  datatype Ticker = Idle | Sweep(i: nat) | Saw(i: nat) | Held(i: nat) | Stored(i: nat)

  /** `mult` is EpochTimeMultiplier, any number >= 1. */
  datatype State = State(mult: nat, current: nat, last: nat, ticker: Ticker, cores: seq<Core>)

  /** A step of a core's thread: guard and scoped_rcu_base; free_with_fn or dealloc_rcu
      (Defer); do_cleanup (Reap); and the call of one deleter. */
  datatype Action =
    | BumpDepth | TakeLock | ReadTick | StoreTick
    | Nest | Unnest | DropDepth | DropLock
    | Defer | Reap | RunDeleter

  /** A step of tickerloop. */
  datatype Beat = Tick | Look | LockCore | StoreCore | UnlockCore | Finish

  datatype Step = OnCore(c: nat, action: Action) | OnTicker(beat: Beat)

  function ToRcuTicks(mult: nat, tick: nat): nat
    requires mult >= 1
  {
    tick / mult
  }

  predicate IsActive(x: Core) { x.thread.Read? || x.thread.Inside? }

  /** The tick an active guard stands for. */
  function GuardTick(x: Core): nat
    requires IsActive(x)
  {
    if x.thread.Read? then x.thread.tick else x.tick
  }

  predicate Active(s: State, g: Session) {
    g.core < |s.cores| && IsActive(s.cores[g.core]) && s.cores[g.core].session == g.number
  }

  function ActiveSessions(s: State): set<Session> {
    set c | 0 <= c < |s.cores| && IsActive(s.cores[c]) :: Session(c, s.cores[c].session)
  }

  /** empty_accept_from: the entries up to the cleaning tick are a prefix of the queue. */
  function Ripe(q: seq<Entry>, clean: nat): nat
    ensures Ripe(q, clean) <= |q|
    ensures forall i :: 0 <= i < Ripe(q, clean) ==> q[i].rcuTick <= clean
  {
    if q == [] || q[0].rcuTick > clean then 0 else 1 + Ripe(q[1..], clean)
  }

  predicate CoreGuard(x: Core, a: Action) {
    match a
    case BumpDepth => x.thread.Outside?
    case TakeLock => x.thread.Bumped? && x.lock.Free?
    case ReadTick => x.thread.Locked?
    case StoreTick => x.thread.Read?
    case Nest => x.thread.Inside?
    case Unnest => x.thread.Inside? && x.thread.depth > 1
    case DropDepth => x.thread.Inside? && x.thread.depth == 1
    case DropLock => x.thread.Leaving?
    case Defer => x.thread.Inside?
    case Reap => x.thread.Outside? && x.scratch == []
    case RunDeleter => x.thread.Inside? && x.scratch != []
  }

  predicate TickerGuard(s: State, b: Beat) {
    match b
    case Tick => s.ticker.Idle?
    case Look => s.ticker.Sweep? && s.ticker.i < |s.cores|
    case LockCore => s.ticker.Saw? && s.ticker.i < |s.cores| && s.cores[s.ticker.i].lock.Free?
    case StoreCore => s.ticker.Held? && s.ticker.i < |s.cores|
    case UnlockCore => s.ticker.Stored? && s.ticker.i < |s.cores|
    case Finish => s.ticker.Sweep? && s.ticker.i == |s.cores| && s.current >= 1
  }

  predicate Enabled(s: State, step: Step) {
    match step
    case OnCore(c, a) => c < |s.cores| && CoreGuard(s.cores[c], a)
    case OnTicker(b) => TickerGuard(s, b)
  }

  /** do_cleanup up to the point where the ripe entries are in scratch_. */
  function Reaped(s: State, x: Core): Core
    requires s.mult >= 1
  {
    var exclusive := ToRcuTicks(s.mult, s.last + 1);
    if exclusive == 0 || x.lastReaped == exclusive - 1 then x
    else
      var n := Ripe(x.queue, exclusive - 1);
      x.(lastReaped := exclusive - 1, scratch := x.queue[..n], queue := x.queue[n..])
  }

  function CoreAfter(s: State, x: Core, a: Action): Core
    requires s.mult >= 1 && CoreGuard(x, a)
  {
    match a
    case BumpDepth => x.(thread := Bumped)
    case TakeLock => x.(lock := ByThread, thread := Locked)
    case ReadTick => x.(thread := Read(s.current), session := x.session + 1)
    case StoreTick => x.(tick := x.thread.tick, thread := Inside(1))
    case Nest => x.(thread := Inside(x.thread.depth + 1))
    case Unnest => x.(thread := Inside(x.thread.depth - 1))
    case DropDepth => x.(thread := Leaving)
    case DropLock => x.(lock := Free, thread := Outside)
    case Defer => x.(queue := x.queue + [Entry(ToRcuTicks(s.mult, x.tick + 1), x.tick, ActiveSessions(s))])
    case Reap => Reaped(s, x)
    case RunDeleter => x.(scratch := x.scratch[1..])
  }

  function TickerAfter(s: State, b: Beat): State
    requires TickerGuard(s, b)
  {
    match b
    case Tick => s.(current := s.current + 1, ticker := Sweep(0))
    case Look =>
      s.(ticker := if s.cores[s.ticker.i].tick == s.current then Sweep(s.ticker.i + 1) else Saw(s.ticker.i))
    case LockCore => SetCore(s, s.ticker.i, s.cores[s.ticker.i].(lock := ByTicker)).(ticker := Held(s.ticker.i))
    case StoreCore => SetCore(s, s.ticker.i, s.cores[s.ticker.i].(tick := s.current)).(ticker := Stored(s.ticker.i))
    case UnlockCore => SetCore(s, s.ticker.i, s.cores[s.ticker.i].(lock := Free)).(ticker := Sweep(s.ticker.i + 1))
    case Finish => s.(last := s.current - 1, ticker := Idle)
  }

  function SetCore(s: State, c: nat, x: Core): State
    requires c < |s.cores|
  {
    s.(cores := s.cores[c := x])
  }

  function Apply(s: State, step: Step): State
    requires s.mult >= 1 && Enabled(s, step)
  {
    match step
    case OnCore(c, a) => SetCore(s, c, CoreAfter(s, s.cores[c], a))
    case OnTicker(b) => TickerAfter(s, b)
  }

  predicate Initial(s: State) {
    && s.mult >= 1 && s.current == 1 && s.last == 0 && s.ticker == Idle
    && forall c :: 0 <= c < |s.cores| ==> s.cores[c] == Core(Free, 1, Outside, 0, [], [], 0)
  }

  function Run(s: State, steps: seq<Step>): Option<State>
    requires s.mult >= 1
    ensures Run(s, steps).Some? ==> Run(s, steps).value.mult == s.mult && |Run(s, steps).value.cores| == |s.cores|
  {
    if steps == [] then Some(s)
    else
      var r := Run(s, steps[..|steps| - 1]);
      if r.Some? && Enabled(r.value, steps[|steps| - 1]) then Some(Apply(r.value, steps[|steps| - 1])) else None
  }

  // ------------------------------------------------------------------ the invariant

  predicate LockOk(s: State, c: nat)
    requires c < |s.cores|
  {
    var x := s.cores[c];
    && (x.lock.ByThread? <==> x.thread.Locked? || x.thread.Read? || x.thread.Inside? || x.thread.Leaving?)
    && (x.lock.ByTicker? <==> (s.ticker.Held? || s.ticker.Stored?) && s.ticker.i == c)
    && (x.thread.Inside? ==> x.thread.depth >= 1)
  }

  /** The cores the ticker has already moved to the current tick. */
  predicate Swept(s: State, c: nat) {
    match s.ticker
    case Idle => true
    case Sweep(i) => c < i
    case Saw(i) => c < i
    case Held(i) => c < i
    case Stored(i) => c <= i
  }

  predicate TickOk(s: State, c: nat)
    requires c < |s.cores|
  {
    var x := s.cores[c];
    && x.tick <= s.current <= x.tick + 1
    && (Swept(s, c) ==> x.tick == s.current)
    && (x.thread.Read? ==> x.tick <= x.thread.tick <= s.current)
  }

  predicate TickerOk(s: State) {
    && s.mult >= 1
    && (s.ticker.Idle? ==> s.current == s.last + 1)
    && (!s.ticker.Idle? ==> s.current == s.last + 2 && s.ticker.i <= |s.cores|)
  }

  /** A guard that a deferred free has to outwait holds a tick the free accounts for. */
  predicate PendingOk(s: State, e: Entry) {
    && e.rcuTick == ToRcuTicks(if s.mult >= 1 then s.mult else 1, e.tick + 1)
    && forall g :: g in e.seen ==> Started(s, g) && (Active(s, g) ==> GuardTick(s.cores[g.core]) <= e.tick + 1)
  }

  predicate Started(s: State, g: Session) { g.core < |s.cores| && g.number <= s.cores[g.core].session }

  predicate ReadyOk(s: State, e: Entry) {
    forall g :: g in e.seen ==> Started(s, g) && !Active(s, g)
  }

  ghost predicate Ordered(q: seq<Entry>, tick: nat) {
    && (forall i :: 0 <= i < |q| ==> q[i].tick <= tick)
    && (forall i, j :: 0 <= i < j < |q| ==> q[i].tick <= q[j].tick)
  }

  ghost predicate QueuesOk(s: State, c: nat)
    requires c < |s.cores|
  {
    var x := s.cores[c];
    && (forall i :: 0 <= i < |x.queue| ==> PendingOk(s, x.queue[i]))
    && (forall i :: 0 <= i < |x.scratch| ==> ReadyOk(s, x.scratch[i]))
    && Ordered(x.queue, x.tick)
    && (x.lastReaped == 0 || x.lastReaped < ToRcuTicks(if s.mult >= 1 then s.mult else 1, s.last + 1))
  }

  ghost predicate Inv(s: State) {
    && TickerOk(s)
    && (forall c :: 0 <= c < |s.cores| ==> LockOk(s, c) && TickOk(s, c))
    && (forall c :: 0 <= c < |s.cores| ==> QueuesOk(s, c))
  }

  // ------------------------------------------------------------------ every step keeps it

  lemma TickerKept(s: State, step: Step)
    requires TickerOk(s) && Enabled(s, step)
    ensures TickerOk(Apply(s, step))
  {
  }

  lemma LockKept(s: State, step: Step, c: nat)
    requires TickerOk(s) && Enabled(s, step) && c < |s.cores|
    requires forall d :: 0 <= d < |s.cores| ==> LockOk(s, d)
    ensures LockOk(Apply(s, step), c)
  {
    assert LockOk(s, c);
    if step.OnCore? && step.c != c {
      assert Apply(s, step).cores[c] == s.cores[c];
    }
  }

  lemma TickKept(s: State, step: Step, c: nat)
    requires TickerOk(s) && Enabled(s, step) && c < |s.cores|
    requires LockOk(s, c) && TickOk(s, c)
    ensures TickOk(Apply(s, step), c)
  {
    if step.OnCore? && step.c != c {
      assert Apply(s, step).cores[c] == s.cores[c];
    }
  }

  /** A session that has started is active later only if it was active before, and its
      guard still stands for the same tick: sessions never resume. */
  lemma SessionKept(s: State, step: Step, g: Session)
    requires TickerOk(s) && Enabled(s, step) && Started(s, g)
    requires LockOk(s, g.core)
    ensures Started(Apply(s, step), g)
    ensures Active(Apply(s, step), g) ==> Active(s, g)
    ensures Active(Apply(s, step), g) ==> GuardTick(Apply(s, step).cores[g.core]) == GuardTick(s.cores[g.core])
  {
  }

  lemma PendingKept(s: State, step: Step, e: Entry)
    requires TickerOk(s) && Enabled(s, step) && PendingOk(s, e)
    requires forall d :: 0 <= d < |s.cores| ==> LockOk(s, d)
    ensures PendingOk(Apply(s, step), e)
  {
    forall g | g in e.seen
      ensures Started(Apply(s, step), g)
      ensures Active(Apply(s, step), g) ==> GuardTick(Apply(s, step).cores[g.core]) <= e.tick + 1
    {
      SessionKept(s, step, g);
    }
  }

  lemma ReadyKept(s: State, step: Step, e: Entry)
    requires TickerOk(s) && Enabled(s, step) && ReadyOk(s, e)
    requires forall d :: 0 <= d < |s.cores| ==> LockOk(s, d)
    ensures ReadyOk(Apply(s, step), e)
  {
    forall g | g in e.seen
      ensures Started(Apply(s, step), g) && !Active(Apply(s, step), g)
    {
      SessionKept(s, step, g);
    }
  }

  /** The heart of the grace period: the rounded comparison of do_cleanup implies that
      the unrounded tick of the free is below the last tick every core has left. */
  lemma RoundedComparison(mult: nat, tick: nat, last: nat)
    requires mult >= 1
    requires ToRcuTicks(mult, last + 1) > 0
    requires ToRcuTicks(mult, tick + 1) <= ToRcuTicks(mult, last + 1) - 1
    ensures tick + 1 <= last
  {
    if last + 1 <= tick + 1 {
      DivMonotone(last + 1, tick + 1, mult);
    }
  }

  /** An active guard is above the last tick that has passed. */
  lemma ActiveAboveLast(s: State, g: Session)
    requires TickerOk(s) && g.core < |s.cores| && LockOk(s, g.core) && TickOk(s, g.core)
    requires Active(s, g)
    ensures s.last < GuardTick(s.cores[g.core]) <= s.current <= s.last + 2
  {
  }

  lemma RipeIsReady(s: State, e: Entry)
    requires TickerOk(s) && PendingOk(s, e)
    requires forall d :: 0 <= d < |s.cores| ==> LockOk(s, d) && TickOk(s, d)
    requires ToRcuTicks(s.mult, s.last + 1) > 0
    requires e.rcuTick <= ToRcuTicks(s.mult, s.last + 1) - 1
    ensures ReadyOk(s, e)
  {
    RoundedComparison(s.mult, e.tick, s.last);
    forall g | g in e.seen
      ensures !Active(s, g)
    {
      if Active(s, g) {
        ActiveAboveLast(s, g);
      }
    }
  }

  lemma NewEntryOk(s: State, c: nat)
    requires TickerOk(s) && c < |s.cores|
    requires forall d :: 0 <= d < |s.cores| ==> TickOk(s, d)
    ensures PendingOk(s, Entry(ToRcuTicks(s.mult, s.cores[c].tick + 1), s.cores[c].tick, ActiveSessions(s)))
  {
    assert TickOk(s, c);
    forall g | g in ActiveSessions(s)
      ensures Started(s, g) && Active(s, g) && GuardTick(s.cores[g.core]) <= s.cores[c].tick + 1
    {
      assert TickOk(s, g.core);
    }
  }

  /** What a step makes of one core's queues, before the other cores' guards move. */
  lemma QueuesNow(s: State, step: Step, c: nat)
    requires Inv(s) && Enabled(s, step) && c < |s.cores|
    ensures forall e :: e in Apply(s, step).cores[c].queue ==> PendingOk(s, e)
    ensures forall e :: e in Apply(s, step).cores[c].scratch ==> ReadyOk(s, e)
  {
    assert QueuesOk(s, c);
    if step == OnCore(c, Defer) {
      NewEntryOk(s, c);
    } else if step == OnCore(c, Reap) {
      var n := Ripe(s.cores[c].queue, if ToRcuTicks(s.mult, s.last + 1) > 0 then ToRcuTicks(s.mult, s.last + 1) - 1 else 0);
      forall i | 0 <= i < n && ToRcuTicks(s.mult, s.last + 1) > 0
        ensures ReadyOk(s, s.cores[c].queue[i])
      {
        assert PendingOk(s, s.cores[c].queue[i]);
        RipeIsReady(s, s.cores[c].queue[i]);
      }
    }
  }

  lemma QueuesSorted(s: State, step: Step, c: nat)
    requires TickerOk(s) && Enabled(s, step) && c < |s.cores|
    requires Ordered(s.cores[c].queue, s.cores[c].tick) && LockOk(s, c) && TickOk(s, c)
    ensures Ordered(Apply(s, step).cores[c].queue, Apply(s, step).cores[c].tick)
  {
    var x, y := s.cores[c], Apply(s, step).cores[c];
    if step == OnCore(c, Defer) {
      OrderedAppend(x.queue, x.tick, y.queue[|x.queue|]);
    } else if step == OnCore(c, Reap) {
      assert y.queue == x.queue || y.queue == x.queue[|y.scratch|..];
    } else {
      assert y.queue == x.queue && x.tick <= y.tick;
    }
  }

  lemma OrderedAppend(q: seq<Entry>, tick: nat, e: Entry)
    requires Ordered(q, tick) && e.tick == tick
    ensures Ordered(q + [e], tick)
  {
  }

  lemma ReapedKept(s: State, step: Step, c: nat)
    requires TickerOk(s) && Enabled(s, step) && c < |s.cores| && QueuesOk(s, c)
    ensures
      var s' := Apply(s, step);
      s'.cores[c].lastReaped == 0 || s'.cores[c].lastReaped < ToRcuTicks(s'.mult, s'.last + 1)
  {
    var s' := Apply(s, step);
    DivMonotone(s.last + 1, s'.last + 1, s.mult);
  }

  lemma QueuesKept(s: State, step: Step, c: nat)
    requires Inv(s) && Enabled(s, step) && c < |s.cores|
    ensures QueuesOk(Apply(s, step), c)
  {
    var x := Apply(s, step).cores[c];
    TickerKept(s, step);
    assert QueuesOk(s, c) && LockOk(s, c) && TickOk(s, c);
    QueuesNow(s, step, c);
    QueuesSorted(s, step, c);
    ReapedKept(s, step, c);
    forall i | 0 <= i < |x.queue|
      ensures PendingOk(Apply(s, step), x.queue[i])
    {
      PendingKept(s, step, x.queue[i]);
    }
    forall i | 0 <= i < |x.scratch|
      ensures ReadyOk(Apply(s, step), x.scratch[i])
    {
      ReadyKept(s, step, x.scratch[i]);
    }
  }

  lemma StepKeepsInv(s: State, step: Step)
    requires Inv(s) && Enabled(s, step)
    ensures Inv(Apply(s, step))
  {
    TickerKept(s, step);
    forall c | 0 <= c < |s.cores|
      ensures LockOk(Apply(s, step), c) && TickOk(Apply(s, step), c) && QueuesOk(Apply(s, step), c)
    {
      LockKept(s, step, c);
      TickKept(s, step, c);
      QueuesKept(s, step, c);
    }
  }

  lemma {:induction false} RunKeepsInv(s: State, steps: seq<Step>)
    requires Initial(s) && Run(s, steps).Some?
    ensures Inv(Run(s, steps).value)
  {
    if steps != [] {
      RunKeepsInv(s, steps[..|steps| - 1]);
      StepKeepsInv(Run(s, steps[..|steps| - 1]).value, steps[|steps| - 1]);
    }
  }

  // ------------------------------------------------------------------ the theorems

  /** The facts the ticker relies on, in every reachable state: the global tick is at most
      two above the last one, a core's tick is never behind by more than one, and every
      active guard is above the last tick. */
  lemma TicksAreTight(s: State, steps: seq<Step>)
    requires Initial(s) && Run(s, steps).Some?
    ensures
      var t := Run(s, steps).value;
      && t.last + 1 <= t.current <= t.last + 2
      && (forall c :: 0 <= c < |t.cores| ==> t.cores[c].tick == t.current || t.cores[c].tick + 1 == t.current)
      && (forall g :: Active(t, g) ==> t.last < GuardTick(t.cores[g.core]) <= t.current)
  {
    RunKeepsInv(s, steps);
    var t := Run(s, steps).value;
    forall c | 0 <= c < |t.cores|
      ensures t.cores[c].tick == t.current || t.cores[c].tick + 1 == t.current
    {
      assert TickOk(t, c);
    }
    forall g | Active(t, g)
      ensures t.last < GuardTick(t.cores[g.core]) <= t.current
    {
      ActiveAboveLast(t, g);
    }
  }

  /** The grace period.  A deleter runs only after every guard that was active when its
      object was handed to free has ended. */
  lemma NoEarlyDelete(s: State, steps: seq<Step>, c: nat)
    requires Initial(s) && Run(s, steps).Some?
    requires Enabled(Run(s, steps).value, OnCore(c, RunDeleter))
    ensures
      var t := Run(s, steps).value;
      forall g :: g in t.cores[c].scratch[0].seen ==> !Active(t, g)
  {
    RunKeepsInv(s, steps);
    assert QueuesOk(Run(s, steps).value, c);
    assert ReadyOk(Run(s, steps).value, Run(s, steps).value.cores[c].scratch[0]);
  }

  /** What `seen` records: exactly the guards active at the moment of the free. */
  lemma FreeRecordsGuards(s: State, c: nat, g: Session)
    requires s.mult >= 1 && Enabled(s, OnCore(c, Defer))
    ensures
      var q := Apply(s, OnCore(c, Defer)).cores[c].queue;
      q != [] && (g in q[|q| - 1].seen <==> Active(s, g))
  {
    if Active(s, g) {
      assert g == Session(g.core, s.cores[g.core].session);
    }
  }

  /** The queues' own invariants: entries are enqueued in order of their rcu tick, and the
      cleaning tick never goes back, so the test against last_reaped_epoch_ is safe. */
  lemma QueuesAreOrdered(s: State, steps: seq<Step>, c: nat)
    requires Initial(s) && Run(s, steps).Some? && c < |s.cores|
    ensures
      var t := Run(s, steps).value;
      && (forall i, j :: 0 <= i < j < |t.cores[c].queue| ==> t.cores[c].queue[i].rcuTick <= t.cores[c].queue[j].rcuTick)
      && (ToRcuTicks(t.mult, t.last + 1) > 0 ==> t.cores[c].lastReaped <= ToRcuTicks(t.mult, t.last + 1) - 1)
  {
    RunKeepsInv(s, steps);
    var t := Run(s, steps).value;
    assert QueuesOk(t, c);
    var q := t.cores[c].queue;
    forall i, j | 0 <= i < j < |q|
      ensures q[i].rcuTick <= q[j].rcuTick
    {
      assert PendingOk(t, q[i]) && PendingOk(t, q[j]);
      DivMonotone(q[i].tick + 1, q[j].tick + 1, t.mult);
    }
  }
}
