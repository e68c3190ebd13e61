/** The slab allocator (silo/allocator.cc, silo/allocator.h and the arenas of silo/rcu.cc).

    Memory is divided into one region for each CPU.  A region hands out huge pages, which
    are carved into blocks of one arena's size.  Free blocks are in linked lists threaded
    through the blocks themselves: one list for each thread and arena, one for each region
    and arena, and the temporary lists of ReleaseArenas. */
module Allocator {
  import opened Common
  import opened Arithmetic

  const MAX_ARENAS: nat := 32
  const ALIGNMENT: nat := 16

  type Addr = nat     // 0 is the null pointer

  /** A huge page holds at least one block of the largest arena wherever that is aligned. */
  datatype Config = Config(hugepg: nat, ncpus: nat, maxpercore: nat, memstart: nat)

  predicate ConfigOk(g: Config) {
    && g.hugepg >= 2 * MAX_ARENAS * ALIGNMENT && g.ncpus >= 1 && g.maxpercore >= 1
    && g.memstart >= 1
  }

  function Unit(arena: nat): nat { (arena + 1) * ALIGNMENT }

  /** ArenaSize: the size a request is rounded up to, and its arena. */
  function ArenaSize(sz: nat): (nat, int) {
    var allocsz := (sz + ALIGNMENT - 1) / ALIGNMENT * ALIGNMENT;
    (allocsz, allocsz / ALIGNMENT - 1)
  }

  /** A block of the chosen arena is large enough, and less than one step too large. */
  lemma ArenaFits(sz: nat)
    requires sz >= 1
    ensures
      var (allocsz, arena) := ArenaSize(sz);
      arena >= 0 && Unit(arena) == allocsz && sz <= allocsz < sz + ALIGNMENT
  {
  }

  function RegionStart(g: Config, cpu: nat): nat { g.memstart + cpu * g.maxpercore }

  /** PointerToCpu */
  function CpuOf(g: Config, p: Addr): nat
    requires g.maxpercore >= 1 && g.memstart <= p
  {
    (p - g.memstart) / g.maxpercore
  }

  /** PointerToCpu is right: it names the region that contains the pointer. */
  lemma CpuOfRegion(g: Config, p: Addr, cpu: nat)
    requires g.maxpercore >= 1 && g.memstart <= p
    ensures CpuOf(g, p) == cpu <==> RegionStart(g, cpu) <= p < RegionStart(g, cpu + 1)
  {
    var d, m := p - g.memstart, g.maxpercore;
    var q := d / m;
    assert d == m * q + d % m;
    assert (cpu + 1) * m == cpu * m + m;
    if q < cpu {
      assert m * (q + 1) <= m * cpu;
    } else if q > cpu {
      assert m * (cpu + 1) <= m * q;
    }
  }

  lemma RegionsApart(g: Config, a: nat, b: nat)
    requires a < b
    ensures RegionStart(g, a + 1) <= RegionStart(g, b)
  {
    assert (a + 1) * g.maxpercore <= b * g.maxpercore;
  }

  // ------------------------------------------------------------------ the state

  /** Where a block is: in use, or in one of the free lists. */
  datatype Place =
    | Live(arena: nat)
    | OnThread(thread: nat, arena: nat)     // arenas_ of a thread
    | OnRegion(cpu: nat, arena: nat)        // regionctx::arenas
    | InTransit(cpu: nat, arena: nat)       // the map of ReleaseArenas

  /** `next` is the link stored in a free block.  `lists` and `place` only serve to state
      the properties: the contents of each list, and where each carved block is. */
  datatype State = State(next: map<Addr, Addr>, heads: map<Place, Addr>, begin: seq<Addr>,
                         lists: map<Place, seq<Addr>>, place: map<Addr, Place>)

  function Head(s: State, l: Place): Addr { if l in s.heads then s.heads[l] else 0 }

  function List(s: State, l: Place): seq<Addr> { if l in s.lists then s.lists[l] else [] }

  /** The list starting at p is exactly bs. */
  ghost predicate Chain(next: map<Addr, Addr>, p: Addr, bs: seq<Addr>)
    decreases |bs|
  {
    if bs == [] then p == 0
    else p != 0 && p == bs[0] && p in next && p !in bs[1..] && Chain(next, next[p], bs[1..])
  }

  lemma {:induction false} ChainFrame(next: map<Addr, Addr>, next': map<Addr, Addr>, p: Addr, bs: seq<Addr>)
    requires Chain(next, p, bs) && forall b :: b in bs ==> b in next' && b in next && next'[b] == next[b]
    ensures Chain(next', p, bs)
    decreases |bs|
  {
    if bs != [] {
      ChainFrame(next, next', next[p], bs[1..]);
    }
  }

  /** A carved block: inside its region, and in the list of its own region if it is in a
      region's list at all. */
  predicate BlockOk(g: Config, s: State, b: Addr)
    requires b in s.place && ConfigOk(g)
  {
    var l := s.place[b];
    && l.arena < MAX_ARENAS && g.memstart <= b && CpuOf(g, b) < |s.begin|
    && b + Unit(l.arena) <= s.begin[CpuOf(g, b)]
    && (l.OnRegion? || l.InTransit? ==> l.cpu == CpuOf(g, b))
  }

  predicate Disjoint(s: State, b: Addr, c: Addr)
    requires b in s.place && c in s.place
  {
    b != c ==> b + Unit(s.place[b].arena) <= c || c + Unit(s.place[c].arena) <= b
  }

  ghost predicate BlocksOk(g: Config, s: State) {
    && ConfigOk(g) && |s.begin| == g.ncpus
    && (forall c :: 0 <= c < g.ncpus ==> RegionStart(g, c) <= s.begin[c] <= RegionStart(g, c + 1))
    && (forall b {:trigger BlockOk(g, s, b)} :: b in s.place ==> BlockOk(g, s, b))
    && (forall b, c {:trigger Disjoint(s, b, c)} :: b in s.place && c in s.place ==> Disjoint(s, b, c))
  }

  ghost predicate ListOk(s: State, l: Place) {
    && !(l.Live? && List(s, l) != [])
    && Chain(s.next, Head(s, l), List(s, l))
    && (forall b :: b in List(s, l) ==> b in s.place && s.place[b] == l)
  }

  ghost predicate ListsOk(s: State) {
    && (forall l :: ListOk(s, l))
    && (forall b :: b in s.place && !s.place[b].Live? ==> b in List(s, s.place[b]))
  }

  ghost predicate Inv(g: Config, s: State) { BlocksOk(g, s) && ListsOk(s) }

  /** The same blocks, in other places. */
  ghost predicate Moved(g: Config, s: State, t: State)
    requires ConfigOk(g)
  {
    && t.begin == s.begin && t.place.Keys == s.place.Keys
    && forall b :: b in t.place ==> StillOwn(g, s, t, b)
  }

  predicate StillOwn(g: Config, s: State, t: State, b: Addr)
    requires ConfigOk(g) && b in t.place
  {
    && b in s.place && t.place[b].arena == s.place[b].arena
    && (t.place[b].OnRegion? || t.place[b].InTransit? ==> g.memstart <= b && t.place[b].cpu == CpuOf(g, b))
  }

  lemma BlocksKept(g: Config, s: State, t: State)
    requires BlocksOk(g, s) && Moved(g, s, t)
    ensures BlocksOk(g, t)
  {
    forall b | b in t.place
      ensures BlockOk(g, t, b)
    {
      assert BlockOk(g, s, b) && StillOwn(g, s, t, b);
    }
    forall b, c | b in t.place && c in t.place
      ensures Disjoint(t, b, c)
    {
      assert Disjoint(s, b, c) && StillOwn(g, s, t, b) && StillOwn(g, s, t, c);
    }
  }

  // ------------------------------------------------------------------ list steps

  /** Takes the first block off a list. */
  function Popped(s: State, l: Place): State
    requires Head(s, l) in s.next && List(s, l) != []
  {
    var b := Head(s, l);
    s.(heads := s.heads[l := s.next[b]], lists := s.lists[l := List(s, l)[1..]], place := s.place[b := Live(l.arena)])
  }

  /** Puts a block in use at the front of a list. */
  function Pushed(s: State, l: Place, b: Addr): State {
    s.(next := s.next[b := Head(s, l)], heads := s.heads[l := b], lists := s.lists[l := [b] + List(s, l)],
       place := s.place[b := l])
  }

  /** Links the last block of one list to the first of another, which takes them all. */
  function Spliced(s: State, from: Place, to: Place): State {
    var bs := List(s, from);
    s.(next := if bs == [] then s.next else s.next[bs[|bs| - 1] := Head(s, to)],
       heads := s.heads[to := if bs == [] then Head(s, to) else Head(s, from)][from := 0],
       lists := s.lists[to := bs + List(s, to)][from := []],
       place := map b | b in s.place :: if b in bs then to else s.place[b])
  }

  lemma PopKeeps(g: Config, s: State, l: Place)
    requires Inv(g, s) && Head(s, l) != 0
    ensures Head(s, l) in s.next && List(s, l) != []
    ensures Inv(g, Popped(s, l)) && Moved(g, s, Popped(s, l))
  {
    assert ListOk(s, l);
    var t := Popped(s, l);
    forall m
      ensures ListOk(t, m)
    {
      assert ListOk(s, m);
    }
    forall b | b in t.place
      ensures StillOwn(g, s, t, b)
    {
      assert BlockOk(g, s, b);
    }
    BlocksKept(g, s, t);
  }

  lemma PushKeeps(g: Config, s: State, l: Place, b: Addr)
    requires Inv(g, s) && !l.Live? && b in s.place && s.place[b] == Live(l.arena) && b != 0 && g.memstart <= b
    requires l.OnRegion? || l.InTransit? ==> l.cpu == CpuOf(g, b)
    ensures Inv(g, Pushed(s, l, b)) && Moved(g, s, Pushed(s, l, b))
  {
    forall m
      ensures ListOk(Pushed(s, l, b), m)
    {
      assert ListOk(s, m);
      PushOneList(s, l, b, m);
    }
    PushMoved(g, s, l, b);
    BlocksKept(g, s, Pushed(s, l, b));
  }

  lemma PushMoved(g: Config, s: State, l: Place, b: Addr)
    requires BlocksOk(g, s) && b in s.place && s.place[b] == Live(l.arena) && g.memstart <= b
    requires l.OnRegion? || l.InTransit? ==> l.cpu == CpuOf(g, b)
    ensures Moved(g, s, Pushed(s, l, b))
  {
    forall c | c in s.place
      ensures StillOwn(g, s, Pushed(s, l, b), c)
    {
      assert BlockOk(g, s, c);
    }
  }

  lemma PushOneList(s: State, l: Place, b: Addr, m: Place)
    requires ListOk(s, m) && !l.Live? && b in s.place && s.place[b] == Live(l.arena) && b != 0
    ensures ListOk(Pushed(s, l, b), m)
  {
    var t := Pushed(s, l, b);
    assert b !in List(s, m);
    InChain(s.next, Head(s, m), List(s, m));
    ChainFrame(s.next, t.next, Head(s, m), List(s, m));
    if m == l {
      assert List(t, l)[1..] == List(s, l);
    }
  }

  lemma {:induction false} InChain(next: map<Addr, Addr>, p: Addr, bs: seq<Addr>)
    requires Chain(next, p, bs)
    ensures forall b :: b in bs ==> b in next
    decreases |bs|
  {
    if bs != [] {
      InChain(next, next[p], bs[1..]);
    }
  }

  lemma {:induction false} ChainSplice(next: map<Addr, Addr>, p: Addr, a: seq<Addr>, q: Addr, b: seq<Addr>)
    requires Chain(next, p, a) && Chain(next, q, b) && a != [] && forall x :: x in a ==> x !in b
    ensures Chain(next[a[|a| - 1] := q], p, a + b)
    decreases |a|
  {
    var next' := next[a[|a| - 1] := q];
    InChain(next, q, b);
    if |a| == 1 {
      ChainFrame(next, next', q, b);
      assert (a + b)[1..] == b;
    } else {
      ChainSplice(next, next[p], a[1..], q, b);
      assert a[1..][|a| - 2] == a[|a| - 1] && a[|a| - 1] in a[1..];
      assert (a + b)[1..] == a[1..] + b;
    }
  }

  ghost predicate CanSplice(g: Config, s: State, from: Place, to: Place)
    requires ConfigOk(g)
  {
    && from != to && !from.Live? && !to.Live? && from.arena == to.arena
    && forall b :: b in List(s, from) ==> g.memstart <= b && (to.OnRegion? || to.InTransit? ==> to.cpu == CpuOf(g, b))
  }

  lemma SpliceOneList(g: Config, s: State, from: Place, to: Place, m: Place)
    requires ConfigOk(g) && ListsOk(s) && CanSplice(g, s, from, to)
    ensures ListOk(Spliced(s, from, to), m)
  {
    var t, bs := Spliced(s, from, to), List(s, from);
    assert ListOk(s, m) && ListOk(s, from) && ListOk(s, to);
    if bs != [] {
      if m == to {
        ChainSplice(s.next, Head(s, from), bs, Head(s, to), List(s, to));
      } else if m != from {
        assert bs[|bs| - 1] !in List(s, m);
        InChain(s.next, Head(s, m), List(s, m));
        ChainFrame(s.next, t.next, Head(s, m), List(s, m));
      }
    } else {
      assert bs + List(s, to) == List(s, to);
    }
  }

  lemma SpliceKeeps(g: Config, s: State, from: Place, to: Place)
    requires Inv(g, s) && CanSplice(g, s, from, to)
    ensures Inv(g, Spliced(s, from, to)) && Moved(g, s, Spliced(s, from, to))
  {
    var t := Spliced(s, from, to);
    assert ListOk(s, from);
    forall m
      ensures ListOk(t, m)
    {
      SpliceOneList(g, s, from, to, m);
    }
    forall b | b in t.place
      ensures StillOwn(g, s, t, b)
      ensures !t.place[b].Live? ==> b in List(t, t.place[b])
    {
      assert BlockOk(g, s, b);
    }
    BlocksKept(g, s, t);
  }

  // ------------------------------------------------------------------ carving a page

  /** The blocks of a page: inside it and apart. */
  predicate PageBlocks(page: Addr, pagesize: nat, unit: nat, bs: seq<Addr>)
    requires unit >= 1
  {
    && (forall i :: 0 <= i < |bs| ==> page <= bs[i] && bs[i] + unit <= page + pagesize)
    && (forall i, j {:trigger Clear(unit, bs[i], bs[j])} :: 0 <= i < j < |bs| ==> Clear(unit, bs[i], bs[j]))
  }

  predicate Clear(unit: nat, a: Addr, b: Addr) { a + unit <= b }

  /** util::iceil: the first multiple at or after an address. */
  function Ceil(page: Addr, unit: nat): (r: Addr)
    requires unit >= 1
    ensures page <= r < page + unit && r % unit == 0
  {
    var q := (page + unit - 1) / unit;
    assert page + unit - 1 == unit * q + (page + unit - 1) % unit;
    ModIs(q * unit, unit, q, 0);
    q * unit
  }

  /** All blocks but the last are linked, each to the next. */
  predicate LinkedUp(next: map<Addr, Addr>, bs: seq<Addr>) {
    forall i :: 0 <= i < |bs| - 1 ==> LinkAt(next, bs, i)
  }

  predicate LinkAt(next: map<Addr, Addr>, bs: seq<Addr>, i: int)
    requires 0 <= i < |bs| - 1
  {
    bs[i] in next && next[bs[i]] == bs[i + 1]
  }

  /** Neighbours in a page, with no gap between them. */
  predicate Packed(unit: nat, bs: seq<Addr>) {
    forall i :: 0 <= i < |bs| - 1 ==> PackedAt(unit, bs, i)
  }

  predicate PackedAt(unit: nat, bs: seq<Addr>, i: int)
    requires 0 <= i < |bs| - 1
  {
    bs[i + 1] == bs[i] + unit
  }

  ghost predicate Same(next: map<Addr, Addr>, next': map<Addr, Addr>, bs: seq<Addr>) {
    forall b :: b !in bs ==> (b in next' <==> b in next) && (b in next ==> next'[b] == next[b])
  }

  /** The state of the loop of initialize_page. */
  ghost predicate Carved(next: map<Addr, Addr>, next': map<Addr, Addr>, page: Addr, pagesize: nat, unit: nat, bs: seq<Addr>) {
    unit >= 1 && PageBlocks(page, pagesize, unit, bs) && LinkedUp(next', bs) && Packed(unit, bs) && Same(next, next', bs)
  }

  lemma OneMore(next: map<Addr, Addr>, next': map<Addr, Addr>, page: Addr, pagesize: nat, unit: nat, bs: seq<Addr>)
    requires Carved(next, next', page, pagesize, unit, bs) && bs != []
    requires bs[|bs| - 1] + 2 * unit <= page + pagesize
    ensures
      var last := bs[|bs| - 1];
      Carved(next, next'[last := last + unit], page, pagesize, unit, bs + [last + unit])
  {
    var last := bs[|bs| - 1];
    var more := bs + [last + unit];
    var links := next'[last := last + unit];
    forall i, j | 0 <= i < j < |more|
      ensures Clear(unit, more[i], more[j])
    {
      var k := if j < |bs| then j else |bs| - 1;
      assert i < k ==> Clear(unit, bs[i], bs[k]);
    }
    forall i | 0 <= i < |more| - 1
      ensures LinkAt(links, more, i) && PackedAt(unit, more, i)
    {
      if i < |bs| - 1 {
        assert LinkAt(next', bs, i) && PackedAt(unit, bs, i);
        assert Clear(unit, bs[i], last);
      }
    }
    assert LinkedUp(links, more) && Packed(unit, more);
  }

  /** Blocks packed behind an aligned one are aligned. */
  lemma {:induction false} PackedAligned(unit: nat, bs: seq<Addr>, k: nat)
    requires unit >= 1 && Packed(unit, bs) && k < |bs| && bs[0] % unit == 0
    ensures bs[k] % unit == 0
  {
    if k > 0 {
      assert PackedAt(unit, bs, k - 1);
      PackedAligned(unit, bs, k - 1);
      NextMultiple(bs[k - 1], unit);
    }
  }

  /** The loop of initialize_page. */
  method LinkBlocks(next: map<Addr, Addr>, first: Addr, page: Addr, pagesize: nat, unit: nat)
    returns (next': map<Addr, Addr>, ghost bs: seq<Addr>)
    requires unit >= 1 && 1 <= page <= first && first + unit <= page + pagesize
    ensures PageBlocks(page, pagesize, unit, bs) && Packed(unit, bs) && bs != [] && bs[0] == first
    ensures Chain(next', first, bs) && Same(next, next', bs)
    ensures bs[|bs| - 1] + 2 * unit > page + pagesize
  {
    var p, nxt := first, first + unit;
    next', bs := next, [first];
    while nxt + unit <= page + pagesize
      invariant bs != [] && bs[0] == first && p == bs[|bs| - 1] && nxt == p + unit
      invariant Carved(next, next', page, pagesize, unit, bs)
      decreases page + pagesize - nxt
    {
      OneMore(next, next', page, pagesize, unit, bs);
      next' := next'[p := nxt];
      bs := bs + [nxt];
      p, nxt := nxt, nxt + unit;
    }
    EndLinks(next, next', page, pagesize, unit, bs);
    next' := next'[p := 0];
  }

  lemma EndLinked(next: map<Addr, Addr>, page: Addr, pagesize: nat, unit: nat, bs: seq<Addr>)
    requires LinkedUp(next, bs) && bs != [] && unit >= 1 && PageBlocks(page, pagesize, unit, bs)
    ensures LinkedUp(next[bs[|bs| - 1] := 0], bs)
  {
    var links := next[bs[|bs| - 1] := 0];
    forall i | 0 <= i < |bs| - 1
      ensures LinkAt(links, bs, i)
    {
      assert LinkAt(next, bs, i) && Clear(unit, bs[i], bs[|bs| - 1]);
    }
  }

  lemma EndLinks(next: map<Addr, Addr>, next': map<Addr, Addr>, page: Addr, pagesize: nat, unit: nat, bs: seq<Addr>)
    requires Carved(next, next', page, pagesize, unit, bs) && bs != [] && page >= 1
    ensures PageBlocks(page, pagesize, unit, bs) && Packed(unit, bs)
    ensures Chain(next'[bs[|bs| - 1] := 0], bs[0], bs) && Same(next, next'[bs[|bs| - 1] := 0], bs)
  {
    EndLinked(next', page, pagesize, unit, bs);
    forall i, j | 0 <= i < j < |bs|
      ensures bs[i] != bs[j]
    {
      assert Clear(unit, bs[i], bs[j]);
    }
    LinkedIsChain(next'[bs[|bs| - 1] := 0], bs, 0);
    assert bs[0..] == bs;
  }

  /** initialize_page: links the blocks of a page, as many as fit from the first aligned
      address on. */
  method InitializePage(next: map<Addr, Addr>, page: Addr, pagesize: nat, unit: nat)
    returns (first: Addr, next': map<Addr, Addr>, ghost bs: seq<Addr>)
    requires 1 <= unit && 2 * unit <= pagesize && page >= 1
    ensures PageBlocks(page, pagesize, unit, bs) && Packed(unit, bs) && bs != []
    ensures Chain(next', first, bs) && Same(next, next', bs)
    ensures bs[0] < page + unit && bs[0] % unit == 0 && bs[|bs| - 1] + 2 * unit > page + pagesize
  {
    first := Ceil(page, unit);
    next', bs := LinkBlocks(next, first, page, pagesize, unit);
  }

  lemma {:induction false} LinkedIsChain(next: map<Addr, Addr>, bs: seq<Addr>, k: nat)
    requires k < |bs| && LinkedUp(next, bs) && bs[|bs| - 1] in next && next[bs[|bs| - 1]] == 0
    requires (forall i :: 0 <= i < |bs| ==> bs[i] != 0) && forall i, j :: 0 <= i < j < |bs| ==> bs[i] != bs[j]
    ensures Chain(next, bs[k], bs[k..])
    decreases |bs| - k
  {
    assert bs[k..][1..] == bs[k + 1..];
    if k + 1 < |bs| {
      assert LinkAt(next, bs, k);
      LinkedIsChain(next, bs, k + 1);
    }
    var rest := bs[k + 1..];
    forall j | 0 <= j < |rest|
      ensures rest[j] != bs[k]
    {
      assert rest[j] == bs[k + 1 + j];
    }
  }

  /** The state after a new page was carved into an empty list. */
  function WithPage(g: Config, s: State, cpu: nat, l: Place, bs: seq<Addr>, next': map<Addr, Addr>): State
    requires cpu < |s.begin| && bs != []
  {
    State(next', s.heads[l := bs[0]], s.begin[cpu := s.begin[cpu] + g.hugepg], s.lists[l := bs],
          s.place + map b | b in bs :: l)
  }

  ghost predicate PageReady(g: Config, s: State, cpu: nat, l: Place, bs: seq<Addr>, next': map<Addr, Addr>) {
    && Inv(g, s) && cpu < g.ncpus && l.OnThread? && l.arena < MAX_ARENAS && List(s, l) == [] && bs != []
    && s.begin[cpu] + g.hugepg <= RegionStart(g, cpu + 1)
    && PageBlocks(s.begin[cpu], g.hugepg, Unit(l.arena), bs) && Chain(next', bs[0], bs) && Same(s.next, next', bs)
  }

  /** A new block lies beyond everything carved from its region, and in no other region. */
  lemma NewBlock(g: Config, s: State, cpu: nat, l: Place, bs: seq<Addr>, next': map<Addr, Addr>, i: nat)
    requires PageReady(g, s, cpu, l, bs, next') && i < |bs|
    ensures g.memstart <= bs[i] && CpuOf(g, bs[i]) == cpu
    ensures forall b :: b in s.place ==> b + Unit(s.place[b].arena) <= bs[i] || bs[i] + Unit(l.arena) <= b
    ensures bs[i] !in s.place
  {
    CpuOfRegion(g, bs[i], cpu);
    forall b | b in s.place
      ensures b + Unit(s.place[b].arena) <= bs[i] || bs[i] + Unit(l.arena) <= b
    {
      assert BlockOk(g, s, b);
      var c := CpuOf(g, b);
      CpuOfRegion(g, b, c);
      if c < cpu {
        RegionsApart(g, c, cpu);
      } else if cpu < c {
        RegionsApart(g, cpu, c);
      }
    }
  }

  lemma PageBlockOk(g: Config, s: State, cpu: nat, l: Place, bs: seq<Addr>, next': map<Addr, Addr>, b: Addr)
    requires PageReady(g, s, cpu, l, bs, next') && b in WithPage(g, s, cpu, l, bs, next').place
    ensures BlockOk(g, WithPage(g, s, cpu, l, bs, next'), b)
  {
    if b in bs {
      var i :| 0 <= i < |bs| && bs[i] == b;
      NewBlock(g, s, cpu, l, bs, next', i);
    } else {
      assert BlockOk(g, s, b);
    }
  }

  lemma PageBlocksKept(g: Config, s: State, cpu: nat, l: Place, bs: seq<Addr>, next': map<Addr, Addr>)
    requires PageReady(g, s, cpu, l, bs, next')
    ensures BlocksOk(g, WithPage(g, s, cpu, l, bs, next'))
  {
    var t := WithPage(g, s, cpu, l, bs, next');
    forall b | b in t.place
      ensures BlockOk(g, t, b)
    {
      PageBlockOk(g, s, cpu, l, bs, next', b);
    }
    forall b, c | b in t.place && c in t.place
      ensures Disjoint(t, b, c)
    {
      PageDisjoint(g, s, cpu, l, bs, next', b, c);
    }
  }

  lemma PageDisjoint(g: Config, s: State, cpu: nat, l: Place, bs: seq<Addr>, next': map<Addr, Addr>, b: Addr, c: Addr)
    requires PageReady(g, s, cpu, l, bs, next')
    requires b in WithPage(g, s, cpu, l, bs, next').place && c in WithPage(g, s, cpu, l, bs, next').place
    ensures Disjoint(WithPage(g, s, cpu, l, bs, next'), b, c)
  {
    if b in bs {
      var i :| 0 <= i < |bs| && bs[i] == b;
      NewBlock(g, s, cpu, l, bs, next', i);
      if c in bs {
        var j :| 0 <= j < |bs| && bs[j] == c;
        assert i < j ==> Clear(Unit(l.arena), bs[i], bs[j]);
        assert j < i ==> Clear(Unit(l.arena), bs[j], bs[i]);
      }
    } else if c in bs {
      var j :| 0 <= j < |bs| && bs[j] == c;
      NewBlock(g, s, cpu, l, bs, next', j);
    } else {
      assert Disjoint(s, b, c);
    }
  }

  lemma PageKeeps(g: Config, s: State, cpu: nat, l: Place, bs: seq<Addr>, next': map<Addr, Addr>)
    requires PageReady(g, s, cpu, l, bs, next')
    ensures Inv(g, WithPage(g, s, cpu, l, bs, next'))
    ensures forall b :: b in bs ==> b !in s.place
  {
    var t := WithPage(g, s, cpu, l, bs, next');
    PageBlocksKept(g, s, cpu, l, bs, next');
    forall b | b in bs
      ensures b !in s.place
    {
      var i :| 0 <= i < |bs| && bs[i] == b;
      NewBlock(g, s, cpu, l, bs, next', i);
    }
    forall m
      ensures ListOk(t, m)
    {
      assert ListOk(s, m);
      if m != l {
        InChain(s.next, Head(s, m), List(s, m));
        ChainFrame(s.next, next', Head(s, m), List(s, m));
      }
    }
  }

  // ------------------------------------------------------------------ the allocator

  lemma {:induction false} LastLink(next: map<Addr, Addr>, p: Addr, bs: seq<Addr>)
    requires Chain(next, p, bs) && bs != []
    ensures bs[|bs| - 1] in next && next[bs[|bs| - 1]] == 0
    decreases |bs|
  {
    if |bs| > 1 {
      LastLink(next, next[p], bs[1..]);
    }
  }

  /** Between operations no block is in transit. */
  ghost predicate Settled(g: Config, s: State) {
    Inv(g, s) && forall b :: b in s.place ==> !s.place[b].InTransit?
  }

  /** Blocks in use stay in use, and carved blocks stay carved. */
  ghost predicate Undisturbed(s: State, t: State) {
    forall b :: b in s.place ==> b in t.place && (s.place[b].Live? ==> t.place[b] == s.place[b])
  }

  /** The next page of a region, carved for an empty list; t is the state it leads to. */
  method CarveRegion(g: Config, ghost s: State, next: map<Addr, Addr>, page: Addr, cpu: nat, l: Place)
    returns (first: Addr, next': map<Addr, Addr>, ghost t: State)
    requires Settled(g, s) && cpu < g.ncpus && l.OnThread? && l.arena < MAX_ARENAS && Head(s, l) == 0
    requires next == s.next && page == s.begin[cpu] && page + g.hugepg <= RegionStart(g, cpu + 1)
    ensures Settled(g, t) && Undisturbed(s, t) && first != 0
    ensures t == State(next', s.heads[l := first], s.begin[cpu := page + g.hugepg], t.lists, t.place)
  {
    ghost var bs;
    first, next', bs := CarveBlocks(g, s, next, page, cpu, l);
    t := WithPage(g, s, cpu, l, bs, next');
    PageSettles(g, s, cpu, l, bs, next');
  }

  method CarveBlocks(g: Config, ghost s: State, next: map<Addr, Addr>, page: Addr, cpu: nat, l: Place)
    returns (first: Addr, next': map<Addr, Addr>, ghost bs: seq<Addr>)
    requires Inv(g, s) && cpu < g.ncpus && l.OnThread? && l.arena < MAX_ARENAS && Head(s, l) == 0
    requires next == s.next && page == s.begin[cpu] && page + g.hugepg <= RegionStart(g, cpu + 1)
    ensures PageReady(g, s, cpu, l, bs, next') && first == bs[0]
  {
    assert ListOk(s, l);
    first, next', bs := InitializePage(next, page, g.hugepg, Unit(l.arena));
  }

  /** The regions of all CPUs and the arenas of all threads. */
  class Slab {
    const g: Config
    var next: map<Addr, Addr>
    var heads: map<Place, Addr>
    var begin: seq<Addr>                // region_begin of each CPU
    ghost var lists: map<Place, seq<Addr>>
    ghost var place: map<Addr, Place>

    ghost function Contents(): State
      reads this
    {
      State(next, heads, begin, lists, place)
    }

    ghost predicate Valid()
      reads this
    {
      Settled(g, Contents())
    }

    constructor (g: Config)
      requires ConfigOk(g)
      ensures Valid() && this.g == g && place == map[]
    {
      this.g, next, heads, lists, place := g, map[], map[], map[], map[];
      begin := seq(g.ncpus, c requires 0 <= c < g.ncpus => RegionStart(g, c));
      new;
      forall c | 0 <= c < g.ncpus
        ensures RegionStart(g, c) <= RegionStart(g, c + 1)
      {
        RegionsApart(g, c, c + 1);
      }
    }

    function Head(l: Place): Addr
      reads this
    {
      if l in heads then heads[l] else 0
    }

    /** AllocateArenas for a thread whose list is empty: claim the region's list, or carve a
        page.  False means that the region is exhausted. */
    method AllocateArenas(cpu: nat, l: Place) returns (ok: bool)
      requires Valid() && cpu < g.ncpus && l.OnThread? && l.arena < MAX_ARENAS && Head(l) == 0
      modifies this
      ensures Valid() && Undisturbed(old(Contents()), Contents())
      ensures ok ==> Head(l) != 0
      ensures !ok ==> old(Contents()) == Contents() && begin[cpu] + g.hugepg > RegionStart(g, cpu + 1)
    {
      ghost var s := Contents();
      var from := OnRegion(cpu, l.arena);
      assert ListOk(s, from) && ListOk(s, l);
      if Head(from) != 0 {
        Claim(from, l);
        return true;
      }
      if begin[cpu] + g.hugepg > RegionStart(g, cpu + 1) {
        return false;
      }
      CarvePage(cpu, l);
      return true;
    }

    method Claim(from: Place, l: Place)
      requires Valid() && l.OnThread? && from.OnRegion? && from.arena == l.arena && Head(l) == 0 && Head(from) != 0
      modifies this
      ensures Valid() && Undisturbed(old(Contents()), Contents()) && Head(l) != 0
    {
      ghost var s := Contents();
      assert ListOk(s, from) && ListOk(s, l);
      forall b | b in List(s, from)
        ensures g.memstart <= b
      {
        assert BlockOk(g, s, b);
      }
      SpliceKeeps(g, s, from, l);
      LastLink(next, Head(from), List(s, from));
      heads := heads[l := Head(from)][from := 0];
      lists, place := Spliced(s, from, l).lists, Spliced(s, from, l).place;
      assert Contents() == Spliced(s, from, l);
    }

    method CarvePage(cpu: nat, l: Place)
      requires Valid() && cpu < g.ncpus && l.OnThread? && l.arena < MAX_ARENAS && Head(l) == 0
      requires begin[cpu] + g.hugepg <= RegionStart(g, cpu + 1)
      modifies this
      ensures Valid() && Undisturbed(old(Contents()), Contents()) && Head(l) != 0
    {
      var page := begin[cpu];
      var first, next', t := CarveRegion(g, Contents(), next, page, cpu, l);
      begin := begin[cpu := page + g.hugepg];
      next, heads, lists, place := next', heads[l := first], t.lists, t.place;
      assert Contents() == t;
    }

    /** Takes the first block off a list that is not empty. */
    method Pop(l: Place) returns (p: Addr)
      requires Inv(g, Contents()) && Head(l) != 0
      modifies this`heads, this`lists, this`place
      ensures Inv(g, Contents()) && Moved(g, old(Contents()), Contents())
      ensures p in old(place) && old(place[p]) == l && place == old(place)[p := Live(l.arena)] && g.memstart <= p && p != 0
      ensures p == old(Head(l)) && List(old(Contents()), l) == [p] + List(Contents(), l)
      ensures lists == old(lists)[l := List(Contents(), l)]
    {
      ghost var s := Contents();
      PopKeeps(g, s, l);
      p := Head(l);
      assert ListOk(s, l) && BlockOk(g, s, p);
      heads := heads[l := next[p]];
      lists, place := Popped(s, l).lists, Popped(s, l).place;
      assert Contents() == Popped(s, l);
    }

    /** Puts a block in use at the front of a list. */
    method Push(l: Place, p: Addr)
      requires Inv(g, Contents()) && !l.Live? && p in place && place[p] == Live(l.arena) && p != 0 && g.memstart <= p
      requires l.OnRegion? || l.InTransit? ==> l.cpu == CpuOf(g, p)
      modifies this`next, this`heads, this`lists, this`place
      ensures Inv(g, Contents()) && Moved(g, old(Contents()), Contents())
      ensures place == old(place)[p := l] && lists == old(lists)[l := [p] + List(old(Contents()), l)]
    {
      ghost var s := Contents();
      PushKeeps(g, s, l, p);
      next := next[p := Head(l)];
      heads := heads[l := p];
      lists, place := Pushed(s, l, p).lists, Pushed(s, l, p).place;
      assert Contents() == Pushed(s, l, p);
    }

    /** ensure_arena */
    method EnsureArena(cpu: nat, l: Place) returns (ok: bool)
      requires Valid() && cpu < g.ncpus && l.OnThread? && l.arena < MAX_ARENAS
      modifies this
      ensures Valid() && Undisturbed(old(Contents()), Contents())
      ensures if ok then Head(l) != 0 else place == old(place)
      ensures old(Head(l)) != 0 ==> ok && Contents() == old(Contents())
    {
      ok := true;
      if Head(l) == 0 {
        ok := AllocateArenas(cpu, l);
      }
    }

    /** alloc: a block that was not in use.  None means that the region is exhausted. */
    method Alloc(thread: nat, cpu: nat, arena: nat) returns (r: Option<Addr>)
      requires Valid() && cpu < g.ncpus && arena < MAX_ARENAS
      modifies this
      ensures Valid() && Undisturbed(old(Contents()), Contents())
      ensures r.Some? ==> r.value in place && place[r.value] == Live(arena)
      ensures r.Some? ==> !(r.value in old(place) && old(place)[r.value].Live?)
      ensures r.None? ==> place == old(place)
      ensures
        var free := List(old(Contents()), OnThread(thread, arena));
        free != [] ==> r == Some(free[0]) && List(Contents(), OnThread(thread, arena)) == free[1..]
    {
      var l := OnThread(thread, arena);
      assert ListOk(Contents(), l);
      var ok := EnsureArena(cpu, l);
      if !ok {
        return None;
      }
      var p := Pop(l);
      return Some(p);
    }

    /** dealloc, with the size the block was allocated with. */
    method Dealloc(thread: nat, p: Addr, arena: nat)
      requires Valid() && p in place && place[p] == Live(arena)
      modifies this`next, this`heads, this`lists, this`place
      ensures Valid() && place == old(place)[p := OnThread(thread, arena)]
      ensures var l := OnThread(thread, arena); lists == old(lists)[l := [p] + List(old(Contents()), l)]
    {
      assert BlockOk(g, Contents(), p);
      Push(OnThread(thread, arena), p);
    }

    /** The state during ReleaseArenas. */
    ghost predicate Releasing(tails: map<Place, Addr>)
      reads this
    {
      Inv(g, Contents()) && TailsOk(lists, tails)
    }

    /** ReleaseArenas, one block: off the thread's list, onto the list for its CPU. */
    method SortOne(l: Place, tails: map<Place, Addr>) returns (tails': map<Place, Addr>)
      requires Releasing(tails) && l.OnThread? && Head(l) != 0
      modifies this`next, this`heads, this`lists, this`place
      ensures Releasing(tails')
      ensures
        var p := old(Head(l));
        p in old(place) && old(place[p]) == l && place == old(place)[p := Sorted(g, p, l.arena)]
      ensures |List(Contents(), l)| < |List(old(Contents()), l)|
    {
      ghost var s := Contents();
      SortKeeps(g, s, l, tails);
      var p := Head(l);
      var pnext := next[p];
      var to := InTransit(CpuOf(g, p), l.arena);
      tails' := if Head(to) == 0 then tails[to := p] else tails;
      next := next[p := Head(to)];
      heads := heads[l := pnext][to := p];
      lists, place := SortedOne(g, s, l).lists, SortedOne(g, s, l).place;
      assert Contents() == SortedOne(g, s, l);
    }

    /** ReleaseArenas, first loop: one arena of the thread, sorted by CPU. */
    method SortArena(l: Place, tails: map<Place, Addr>) returns (tails': map<Place, Addr>)
      requires Releasing(tails) && l.OnThread?
      modifies this`next, this`heads, this`lists, this`place
      ensures Releasing(tails')
      ensures SortedFrom(g, l, old(place), place)
    {
      tails' := tails;
      while Head(l) != 0
        invariant Releasing(tails')
        invariant place.Keys == old(place).Keys
        invariant forall b :: b in place ==> SortedOrNot(g, l, b, old(place)[b], place[b])
        decreases |List(Contents(), l)|
      {
        tails' := SortOne(l, tails');
      }
      assert ListOk(Contents(), l);
    }

    /** ReleaseArenas, second loop: one local list goes to the front of its region's list. */
    method SpliceBack(cpu: nat, arena: nat, tails: map<Place, Addr>)
      requires Releasing(tails)
      modifies this`next, this`heads, this`lists, this`place
      ensures Releasing(tails) && MovedBack(cpu, arena, old(place), place)
    {
      var from, to := InTransit(cpu, arena), OnRegion(cpu, arena);
      ghost var s := Contents();
      SpliceBackKeeps(g, s, cpu, arena, tails);
      if Head(from) != 0 {
        next := next[tails[from] := Head(to)];
        heads := heads[to := Head(from)][from := 0];
        lists, place := Spliced(s, from, to).lists, Spliced(s, from, to).place;
        assert Contents() == Spliced(s, from, to);
      }
    }

    /** The first loop of ReleaseArenas. */
    method SortAll(thread: nat) returns (tails: map<Place, Addr>)
      requires Valid()
      modifies this`next, this`heads, this`lists, this`place
      ensures Releasing(tails) && SplicedTo(g, thread, 0, 0, old(place), place)
    {
      tails := map[];
      NoneInTransit(g, Contents());
      BlockBounds(g, Contents());
      ghost var was := place;
      for arena := 0 to MAX_ARENAS
        invariant Releasing(tails) && SortedTo(g, thread, arena, was, place)
      {
        ghost var before := place;
        tails := SortArena(OnThread(thread, arena), tails);
        SortStep(g, thread, arena, was, before, place);
      }
      AllSorted(g, thread, was, place);
    }

    method SpliceNext(thread: nat, cpu: nat, arena: nat, tails: map<Place, Addr>, ghost was: map<Addr, Place>)
      requires Releasing(tails) && Bounded(g, was) && SplicedTo(g, thread, cpu, arena, was, place)
      modifies this`next, this`heads, this`lists, this`place
      ensures Releasing(tails) && SplicedTo(g, thread, cpu, arena + 1, was, place)
    {
      ghost var before := place;
      SpliceBack(cpu, arena, tails);
      SpliceStep(g, thread, cpu, arena, was, before, place);
    }

    /** The second loop of ReleaseArenas, for one CPU. */
    method SpliceCpu(thread: nat, cpu: nat, tails: map<Place, Addr>, ghost was: map<Addr, Place>)
      requires Releasing(tails) && Bounded(g, was)
      requires SplicedTo(g, thread, cpu, 0, was, place)
      modifies this`next, this`heads, this`lists, this`place
      ensures Releasing(tails) && SplicedTo(g, thread, cpu + 1, 0, was, place)
    {
      for arena := 0 to MAX_ARENAS
        invariant Releasing(tails) && SplicedTo(g, thread, cpu, arena, was, place)
      {
        SpliceNext(thread, cpu, arena, tails, was);
      }
      CpuDone(g, thread, cpu, was, place);
    }

    /** ReleaseArenas: every block of the thread's lists goes to the region of the CPU that
        owns it, in the list of its arena; no other block moves, and none is lost. */
    method ReleaseArenas(thread: nat)
      requires Valid()
      modifies this`next, this`heads, this`lists, this`place
      ensures Valid() && place.Keys == old(place).Keys
      ensures forall b :: b in place ==> place[b] == Released(g, thread, b, old(place)[b])
    {
      ghost var was := place;
      BlockBounds(g, Contents());
      var tails := SortAll(thread);
      for cpu := 0 to g.ncpus
        invariant Releasing(tails) && SplicedTo(g, thread, cpu, 0, was, place)
      {
        SpliceCpu(thread, cpu, tails, was);
      }
      AllDone(g, thread, was, place);
    }
  }

  predicate Bounded(g: Config, was: map<Addr, Place>) {
    forall b :: b in was ==> was[b].arena < MAX_ARENAS && !was[b].InTransit? && Sorted(g, b, was[b].arena).cpu < g.ncpus
  }

  predicate SplicedTo(g: Config, thread: nat, cpu: nat, arena: nat, was: map<Addr, Place>, now: map<Addr, Place>) {
    now.Keys == was.Keys && forall b :: b in now ==> now[b] == AfterSplice(g, thread, cpu, arena, b, was[b])
  }

  predicate MovedBack(cpu: nat, arena: nat, before: map<Addr, Place>, now: map<Addr, Place>) {
    && now.Keys == before.Keys
    && forall b :: b in now ==> now[b] == if before[b] == InTransit(cpu, arena) then OnRegion(cpu, arena) else before[b]
  }

  predicate SortedFrom(g: Config, l: Place, before: map<Addr, Place>, now: map<Addr, Place>) {
    now.Keys == before.Keys && forall b :: b in now ==> now[b] == if before[b] == l then Sorted(g, b, l.arena) else before[b]
  }

  predicate SortedTo(g: Config, thread: nat, arena: nat, was: map<Addr, Place>, now: map<Addr, Place>) {
    now.Keys == was.Keys && forall b :: b in now ==> now[b] == AfterSort(g, thread, arena, b, was[b])
  }

  lemma SortStep(g: Config, thread: nat, arena: nat, was: map<Addr, Place>, before: map<Addr, Place>, now: map<Addr, Place>)
    requires SortedTo(g, thread, arena, was, before) && SortedFrom(g, OnThread(thread, arena), before, now)
    ensures SortedTo(g, thread, arena + 1, was, now)
  {
  }

  lemma AllSorted(g: Config, thread: nat, was: map<Addr, Place>, now: map<Addr, Place>)
    requires Bounded(g, was) && SortedTo(g, thread, MAX_ARENAS, was, now)
    ensures SplicedTo(g, thread, 0, 0, was, now)
  {
  }

  lemma SpliceStep(g: Config, thread: nat, cpu: nat, arena: nat, was: map<Addr, Place>, before: map<Addr, Place>, now: map<Addr, Place>)
    requires Bounded(g, was) && SplicedTo(g, thread, cpu, arena, was, before) && MovedBack(cpu, arena, before, now)
    ensures SplicedTo(g, thread, cpu, arena + 1, was, now)
  {
  }

  lemma CpuDone(g: Config, thread: nat, cpu: nat, was: map<Addr, Place>, now: map<Addr, Place>)
    requires Bounded(g, was) && SplicedTo(g, thread, cpu, MAX_ARENAS, was, now)
    ensures SplicedTo(g, thread, cpu + 1, 0, was, now)
  {
  }

  lemma AllDone(g: Config, thread: nat, was: map<Addr, Place>, now: map<Addr, Place>)
    requires Bounded(g, was) && SplicedTo(g, thread, g.ncpus, 0, was, now)
    ensures forall b :: b in now ==> now[b] == Released(g, thread, b, was[b]) && !now[b].InTransit?
  {
  }

  lemma BlockBounds(g: Config, s: State)
    requires Settled(g, s)
    ensures Bounded(g, s.place)
  {
    forall b | b in s.place
      ensures s.place[b].arena < MAX_ARENAS && Sorted(g, b, s.place[b].arena).cpu < g.ncpus
    {
      assert BlockOk(g, s, b);
    }
  }

  /** Where a block is after ReleaseArenas. */
  function Released(g: Config, thread: nat, b: Addr, was: Place): Place {
    if was.OnThread? && was.thread == thread then OnRegion(Sorted(g, b, was.arena).cpu, was.arena) else was
  }

  function AfterSort(g: Config, thread: nat, k: nat, b: Addr, was: Place): Place {
    if was.OnThread? && was.thread == thread && was.arena < k then Sorted(g, b, was.arena) else was
  }

  /** Where a block is when the local lists before (cpu, arena) have been spliced. */
  function AfterSplice(g: Config, thread: nat, cpu: nat, arena: nat, b: Addr, was: Place): Place {
    if was.OnThread? && was.thread == thread then
      var c := Sorted(g, b, was.arena).cpu;
      if c < cpu || (c == cpu && was.arena < arena) then OnRegion(c, was.arena) else Sorted(g, b, was.arena)
    else was
  }

  lemma HasFirst<T>(s: seq<T>)
    requires s != []
    ensures s[0] in s
  {}

  lemma NoneInTransit(g: Config, s: State)
    requires Settled(g, s)
    ensures TailsOk(s.lists, map[])
  {
    forall l | l in s.lists && l.InTransit?
      ensures s.lists[l] == []
    {
      assert ListOk(s, l) && s.lists[l] == List(s, l);
      if s.lists[l] != [] {
        HasFirst(s.lists[l]);
        assert false;
      }
    }
  }

  lemma SpliceBackKeeps(g: Config, s: State, cpu: nat, arena: nat, tails: map<Place, Addr>)
    requires Inv(g, s) && TailsOk(s.lists, tails)
    ensures
      var from, to := InTransit(cpu, arena), OnRegion(cpu, arena);
      var t := Spliced(s, from, to);
      && Inv(g, t) && TailsOk(t.lists, tails)
      && (Head(s, from) == 0 <==> List(s, from) == [])
      && (List(s, from) != [] ==> from in tails && tails[from] == List(s, from)[|List(s, from)| - 1])
      && (forall b :: b in s.place && s.place[b] == from <==> b in List(s, from))
  {
    var from, to := InTransit(cpu, arena), OnRegion(cpu, arena);
    assert ListOk(s, from);
    forall b | b in List(s, from)
      ensures g.memstart <= b && cpu == CpuOf(g, b)
    {
      assert BlockOk(g, s, b);
    }
    SpliceKeeps(g, s, from, to);
  }

  /** The local list of ReleaseArenas for a block. */
  function Sorted(g: Config, b: Addr, arena: nat): Place {
    InTransit(if g.maxpercore >= 1 && g.memstart <= b then CpuOf(g, b) else 0, arena)
  }

  predicate SortedOrNot(g: Config, l: Place, b: Addr, was: Place, now: Place) {
    now == was || (was == l && now == Sorted(g, b, l.arena))
  }

  /** The second of each pair: the last block of a local list. */
  ghost predicate TailsOk(lists: map<Place, seq<Addr>>, tails: map<Place, Addr>) {
    forall l :: l in lists && l.InTransit? && lists[l] != [] ==> l in tails && tails[l] == lists[l][|lists[l]| - 1]
  }

  function SortedOne(g: Config, s: State, l: Place): State
    requires Head(s, l) in s.next && List(s, l) != []
  {
    Pushed(Popped(s, l), Sorted(g, Head(s, l), l.arena), Head(s, l))
  }

  lemma SortKeeps(g: Config, s: State, l: Place, tails: map<Place, Addr>)
    requires Inv(g, s) && l.OnThread? && Head(s, l) != 0 && TailsOk(s.lists, tails)
    ensures Head(s, l) in s.next && List(s, l) != [] && g.memstart <= Head(s, l)
    ensures Head(s, l) in s.place && s.place[Head(s, l)] == l
    ensures
      var t, p, to := SortedOne(g, s, l), Head(s, l), Sorted(g, Head(s, l), l.arena);
      && Inv(g, t) && t.place == s.place[p := to] && |List(t, l)| < |List(s, l)|
      && TailsOk(t.lists, if Head(s, to) == 0 then tails[to := p] else tails)
  {
    var p := Head(s, l);
    assert ListOk(s, l);
    assert BlockOk(g, s, p);
    PopKeeps(g, s, l);
    var mid, to := Popped(s, l), Sorted(g, p, l.arena);
    PushKeeps(g, mid, to, p);
    assert ListOk(s, to);
    TailsKept(s.lists, mid.lists, l, to, p, tails, if Head(s, to) == 0 then tails[to := p] else tails);
  }

  lemma TailsKept(before: map<Place, seq<Addr>>, mid: map<Place, seq<Addr>>, l: Place, to: Place, p: Addr,
                  tails: map<Place, Addr>, tails': map<Place, Addr>)
    requires TailsOk(before, tails) && l.OnThread? && to.InTransit? && l in mid && mid == before[l := mid[l]]
    requires tails' == if to in mid && mid[to] != [] then tails else tails[to := p]
    ensures TailsOk(mid[to := [p] + if to in mid then mid[to] else []], tails')
  {
  }

  lemma PageSettles(g: Config, s: State, cpu: nat, l: Place, bs: seq<Addr>, next': map<Addr, Addr>)
    requires PageReady(g, s, cpu, l, bs, next') && Settled(g, s)
    ensures
      var t := WithPage(g, s, cpu, l, bs, next');
      Settled(g, t) && Undisturbed(s, t) && bs[0] != 0
  {
    PageKeeps(g, s, cpu, l, bs, next');
  }

  /** Each carved block is in exactly one place: in use, or in one list, once. */
  lemma ExactlyOnePlace(g: Config, s: State, b: Addr, l: Place)
    requires Inv(g, s)
    ensures b in List(s, l) <==> b in s.place && s.place[b] == l && !l.Live?
    ensures forall i, j :: 0 <= i < j < |List(s, l)| ==> List(s, l)[i] != List(s, l)[j]
  {
    assert ListOk(s, l);
    NoRepeats(s.next, Head(s, l), List(s, l));
  }

  lemma {:induction false} NoRepeats(next: map<Addr, Addr>, p: Addr, bs: seq<Addr>)
    requires Chain(next, p, bs)
    ensures forall i, j :: 0 <= i < j < |bs| ==> bs[i] != bs[j]
    decreases |bs|
  {
    if bs != [] {
      NoRepeats(next, next[p], bs[1..]);
      forall i, j | 0 <= i < j < |bs|
        ensures bs[i] != bs[j]
      {
        if i == 0 {
          assert bs[j] in bs[1..];
        } else {
          assert bs[1..][i - 1] != bs[1..][j - 1];
        }
      }
    }
  }

  /** No two carved blocks share a byte, whatever their arenas and regions. */
  lemma NoOverlap(g: Config, s: State, b: Addr, c: Addr, x: Addr)
    requires Inv(g, s) && b in s.place && c in s.place
    requires b <= x < b + Unit(s.place[b].arena) && c <= x < c + Unit(s.place[c].arena)
    ensures b == c
  {
    assert Disjoint(s, b, c);
  }
}
