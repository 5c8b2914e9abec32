/** The pooled allocator of buffer_pool.hpp: a specification on values, what it refines, and the class itself. */
module BufferPools {
  import opened Arithmetic

  /** An address returned by malloc. */
  type Ptr = nat

  datatype Use = Live | Pooled
  datatype Block = Block(size: nat, use: Use)

  /** BUFFER_POOL_INITIAL_POOL_SIZE */
  const INITIAL_POOL_SIZE: nat := 128

  /** A std::vector<char*> with its capacity. */
  datatype Vec = Vec(items: seq<Ptr>, capacity: nat)

  /** The free lists by buffer size, every block obtained and not yet freed, and the traffic with malloc and free. */
  datatype Pool = Pool(vecs: map<nat, Vec>, blocks: map<Ptr, Block>, mallocs: nat, frees: nat)

  ghost predicate NoDuplicates<T>(s: seq<T>) {
    forall i, j :: 0 <= i < j < |s| ==> s[i] != s[j]
  }

  /** One free list: no buffer twice, within capacity, and exactly the pooled blocks of that size. */
  ghost predicate Lists(size: nat, vec: Vec, blocks: map<Ptr, Block>) {
    && NoDuplicates(vec.items)
    && |vec.items| <= vec.capacity
    && forall p :: p in vec.items <==> p in blocks && blocks[p] == Block(size, Pooled)
  }

  ghost predicate WellKept(vecs: map<nat, Vec>, blocks: map<Ptr, Block>) {
    && (forall s :: s in vecs ==> Lists(s, vecs[s], blocks))
    && (forall p :: p in blocks && blocks[p].use == Pooled ==> blocks[p].size in vecs)
  }

  ghost predicate Valid(pool: Pool) {
    WellKept(pool.vecs, pool.blocks)
  }

  /** Every block obtained is freed or still accounted for. */
  ghost predicate Balanced(pool: Pool) {
    pool.mallocs == pool.frees + |pool.blocks.Keys|
  }

  predicate Reuses(pool: Pool, size: nat) {
    size in pool.vecs && pool.vecs[size].items != []
  }

  /** The buffer handed out: the last one returned to the free list of that size, else what malloc gives. */
  function Chosen(pool: Pool, size: nat, spare: Ptr): Ptr {
    if Reuses(pool, size) then pool.vecs[size].items[|pool.vecs[size].items| - 1] else spare
  }

  predicate MayAllocate(pool: Pool, size: nat, spare: Ptr) {
    Reuses(pool, size) || spare !in pool.blocks
  }

  function AfterAllocate(pool: Pool, size: nat, spare: Ptr): Pool
    requires MayAllocate(pool, size, spare)
  {
    var p := Chosen(pool, size, spare);
    if Reuses(pool, size) then
      var vec := pool.vecs[size];
      pool.(vecs := pool.vecs[size := vec.(items := vec.items[..|vec.items| - 1])],
            blocks := pool.blocks[p := Block(size, Live)])
    else
      pool.(blocks := pool.blocks[p := Block(size, Live)], mallocs := pool.mallocs + 1)
  }

  predicate MayDeallocate(pool: Pool, p: Ptr, size: nat) {
    p in pool.blocks && pool.blocks[p] == Block(size, Live)
  }

  predicate Keeps(pool: Pool, size: nat) {
    size in pool.vecs && |pool.vecs[size].items| < pool.vecs[size].capacity
  }

  function AfterDeallocate(pool: Pool, p: Ptr, size: nat): Pool
    requires MayDeallocate(pool, p, size)
  {
    if Keeps(pool, size) then
      var vec := pool.vecs[size];
      pool.(vecs := pool.vecs[size := vec.(items := vec.items + [p])],
            blocks := pool.blocks[p := Block(size, Pooled)])
    else
      pool.(blocks := pool.blocks - {p}, frees := pool.frees + 1)
  }

  // ---- What a caller sees: a plain allocator ----

  /** The buffers callers hold, with the sizes they asked for. */
  function LiveView(pool: Pool): map<Ptr, nat> {
    map p | p in pool.blocks && pool.blocks[p].use == Live :: pool.blocks[p].size
  }

  lemma PopKeepsValid(pool: Pool, size: nat)
    requires Valid(pool) && Reuses(pool, size)
    ensures var p := Chosen(pool, size, 0);
            p in pool.blocks && pool.blocks[p] == Block(size, Pooled)
    ensures Valid(AfterAllocate(pool, size, 0))
  {
    var r := AfterAllocate(pool, size, 0);
    var items := pool.vecs[size].items;
    var p, rest := items[|items| - 1], items[..|items| - 1];
    assert items == rest + [p];
    forall s | s in r.vecs ensures Lists(s, r.vecs[s], r.blocks) {
      assert Lists(s, pool.vecs[s], pool.blocks);
      if s == size { assert p !in rest; }
    }
  }

  /** push_back on a free list, growing a full vector. */
  function Push(vec: Vec, p: Ptr): Vec {
    Vec(vec.items + [p], if |vec.items| < vec.capacity then vec.capacity else if vec.capacity == 0 then 1 else 2 * vec.capacity)
  }

  /** A pool after a block that was not in it goes to the end of a free list. */
  function Pushed(pool: Pool, size: nat, p: Ptr): Pool
    requires size in pool.vecs
  {
    pool.(vecs := pool.vecs[size := Push(pool.vecs[size], p)], blocks := pool.blocks[p := Block(size, Pooled)])
  }

  lemma PushKeepsValid(pool: Pool, size: nat, p: Ptr)
    requires Valid(pool) && size in pool.vecs
    requires p in pool.blocks ==> pool.blocks[p].use == Live
    ensures Valid(Pushed(pool, size, p))
  {
    var r := Pushed(pool, size, p);
    forall s | s in r.vecs ensures Lists(s, r.vecs[s], r.blocks) {
      assert Lists(s, pool.vecs[s], pool.blocks);
    }
  }

  /** A fresh buffer of the size asked for; the buffers already held are untouched. */
  lemma AllocateRefinesMalloc(pool: Pool, size: nat, spare: Ptr)
    requires Valid(pool) && MayAllocate(pool, size, spare)
    ensures Valid(AfterAllocate(pool, size, spare))
    ensures Chosen(pool, size, spare) !in LiveView(pool)
    ensures LiveView(AfterAllocate(pool, size, spare)) == LiveView(pool)[Chosen(pool, size, spare) := size]
  {
    if Reuses(pool, size) { PopKeepsValid(pool, size); }
  }

  lemma DeallocateRefinesFree(pool: Pool, p: Ptr, size: nat)
    requires Valid(pool) && MayDeallocate(pool, p, size)
    ensures Valid(AfterDeallocate(pool, p, size))
    ensures LiveView(AfterDeallocate(pool, p, size)) == LiveView(pool) - {p}
  {
    if Keeps(pool, size) {
      PushKeepsValid(pool, size, p);
      assert AfterDeallocate(pool, p, size) == Pushed(pool, size, p);
    } else {
      FreeKeepsValid(pool, p, size);
    }
    NoLongerLive(pool, AfterDeallocate(pool, p, size), p, size);
  }

  lemma NoLongerLive(pool: Pool, next: Pool, p: Ptr, size: nat)
    requires MayDeallocate(pool, p, size)
    requires next.blocks == pool.blocks[p := Block(size, Pooled)] || next.blocks == pool.blocks - {p}
    ensures LiveView(next) == LiveView(pool) - {p}
  {
  }

  lemma FreeKeepsValid(pool: Pool, p: Ptr, size: nat)
    requires Valid(pool) && MayDeallocate(pool, p, size)
    ensures WellKept(pool.vecs, pool.blocks - {p})
  {
    forall s | s in pool.vecs ensures Lists(s, pool.vecs[s], pool.blocks - {p}) {
      assert Lists(s, pool.vecs[s], pool.blocks);
    }
  }

  // ---- Whole runs of calls ----

  datatype Call = Alloc(size: nat, spare: Ptr) | Dealloc(p: Ptr, size: nat)

  predicate LegalCall(pool: Pool, call: Call) {
    match call
    case Alloc(size, spare) => MayAllocate(pool, size, spare)
    case Dealloc(p, size) => MayDeallocate(pool, p, size)
  }

  function Do(pool: Pool, call: Call): Pool
    requires LegalCall(pool, call)
  {
    match call
    case Alloc(size, spare) => AfterAllocate(pool, size, spare)
    case Dealloc(p, size) => AfterDeallocate(pool, p, size)
  }

  predicate LegalCalls(pool: Pool, calls: seq<Call>)
    decreases |calls|
  {
    calls == [] || (LegalCall(pool, calls[0]) && LegalCalls(Do(pool, calls[0]), calls[1..]))
  }

  function DoAll(pool: Pool, calls: seq<Call>): Pool
    requires LegalCalls(pool, calls)
    decreases |calls|
  {
    if calls == [] then pool else DoAll(Do(pool, calls[0]), calls[1..])
  }

  lemma CallKeepsValid(pool: Pool, call: Call)
    requires Valid(pool) && LegalCall(pool, call)
    ensures Valid(Do(pool, call))
  {
    match call
    case Alloc(size, spare) => AllocateRefinesMalloc(pool, size, spare);
    case Dealloc(p, size) => DeallocateRefinesFree(pool, p, size);
  }

  lemma CallKeepsBalanced(pool: Pool, call: Call)
    requires Valid(pool) && Balanced(pool) && LegalCall(pool, call)
    ensures Balanced(Do(pool, call))
  {
    var keys := pool.blocks.Keys;
    match call
    case Alloc(size, spare) =>
      if Reuses(pool, size) {
        PopKeepsValid(pool, size);
        assert Do(pool, call).blocks.Keys == keys;
      } else {
        assert Do(pool, call).blocks.Keys == keys + {spare};
      }
    case Dealloc(p, size) =>
      assert Do(pool, call).blocks.Keys == if Keeps(pool, size) then keys else keys - {p};
  }

  function Holding(pool: Pool, size: nat, use: Use): set<Ptr> {
    set p | p in pool.blocks && pool.blocks[p] == Block(size, use)
  }

  /** Blocks of one size, held by callers or waiting in the pool. */
  function Total(pool: Pool, size: nat): nat {
    |Holding(pool, size, Live)| + |Holding(pool, size, Pooled)|
  }

  /** The most buffers of that size callers hold at any moment after the first call. */
  function PeakLive(pool: Pool, calls: seq<Call>, size: nat): nat
    requires LegalCalls(pool, calls)
    decreases |calls|
  {
    if calls == [] then 0
    else
      var next := Do(pool, calls[0]);
      var later := PeakLive(next, calls[1..], size);
      if |Holding(next, size, Live)| > later then |Holding(next, size, Live)| else later
  }

  lemma AllocateMovesTotal(pool: Pool, s: nat, spare: Ptr, size: nat)
    requires Valid(pool) && MayAllocate(pool, s, spare)
    ensures var next := AfterAllocate(pool, s, spare);
            Total(next, size) <= Total(pool, size) || Total(next, size) == |Holding(next, size, Live)|
  {
    if Reuses(pool, s) {
      PopMovesOne(pool, s, spare, size);
    } else if s == size {
      assert Holding(AfterAllocate(pool, s, spare), size, Pooled) == {};
    } else {
      assert Holding(AfterAllocate(pool, s, spare), size, Live) == Holding(pool, size, Live);
      assert Holding(AfterAllocate(pool, s, spare), size, Pooled) == Holding(pool, size, Pooled);
    }
  }

  lemma PopMovesOne(pool: Pool, s: nat, spare: Ptr, size: nat)
    requires Valid(pool) && Reuses(pool, s)
    ensures Total(AfterAllocate(pool, s, spare), size) == Total(pool, size)
  {
    PopKeepsValid(pool, s);
    HandedOut(pool, AfterAllocate(pool, s, spare), Chosen(pool, s, spare), s, size);
  }

  lemma HandedOut(pool: Pool, next: Pool, p: Ptr, s: nat, size: nat)
    requires p in pool.blocks && pool.blocks[p] == Block(s, Pooled) && next.blocks == pool.blocks[p := Block(s, Live)]
    ensures Total(next, size) == Total(pool, size)
  {
    if s == size {
      assert Holding(next, size, Live) == Holding(pool, size, Live) + {p};
      assert Holding(next, size, Pooled) == Holding(pool, size, Pooled) - {p};
    } else {
      assert Holding(next, size, Live) == Holding(pool, size, Live);
      assert Holding(next, size, Pooled) == Holding(pool, size, Pooled);
    }
  }

  lemma DeallocateMovesTotal(pool: Pool, p: Ptr, s: nat, size: nat)
    requires Valid(pool) && MayDeallocate(pool, p, s)
    ensures Total(AfterDeallocate(pool, p, s), size) <= Total(pool, size)
  {
    if Keeps(pool, s) {
      TakenBack(pool, AfterDeallocate(pool, p, s), p, s, size);
    } else {
      GivenAway(pool, AfterDeallocate(pool, p, s), p, s, size);
    }
  }

  lemma TakenBack(pool: Pool, next: Pool, p: Ptr, s: nat, size: nat)
    requires p in pool.blocks && pool.blocks[p] == Block(s, Live) && next.blocks == pool.blocks[p := Block(s, Pooled)]
    ensures Total(next, size) == Total(pool, size)
  {
    if s == size {
      assert Holding(next, size, Live) == Holding(pool, size, Live) - {p};
      assert Holding(next, size, Pooled) == Holding(pool, size, Pooled) + {p};
    } else {
      assert Holding(next, size, Live) == Holding(pool, size, Live);
      assert Holding(next, size, Pooled) == Holding(pool, size, Pooled);
    }
  }

  lemma GivenAway(pool: Pool, next: Pool, p: Ptr, s: nat, size: nat)
    requires p in pool.blocks && pool.blocks[p] == Block(s, Live) && next.blocks == pool.blocks - {p}
    ensures Total(next, size) <= Total(pool, size)
  {
    assert Holding(next, size, Live) == Holding(pool, size, Live) - {p};
    assert Holding(next, size, Pooled) == Holding(pool, size, Pooled);
  }

  /**
   Over any legal run of calls the pool stays well formed and balanced, and the memory it holds of one size
   never grows past what it started with or what callers needed at their peak.
   */
  lemma {:induction false} PoolStaysSmall(pool: Pool, calls: seq<Call>, size: nat)
    requires Valid(pool) && Balanced(pool) && LegalCalls(pool, calls)
    ensures Valid(DoAll(pool, calls)) && Balanced(DoAll(pool, calls))
    ensures Total(DoAll(pool, calls), size) <= Total(pool, size) ||
            Total(DoAll(pool, calls), size) <= PeakLive(pool, calls, size)
    decreases |calls|
  {
    if calls != [] {
      CallKeepsValid(pool, calls[0]);
      CallKeepsBalanced(pool, calls[0]);
      match calls[0] {
        case Alloc(s, spare) => AllocateMovesTotal(pool, s, spare, size);
        case Dealloc(p, s) => DeallocateMovesTotal(pool, p, s, size);
      }
      PoolStaysSmall(Do(pool, calls[0]), calls[1..], size);
    }
  }

  // ---- Reuse ----

  /** A buffer kept is the next one handed out, and handing it out again leaves the pool as it was. */
  lemma LastReturnedFirst(pool: Pool, p: Ptr, size: nat, spare: Ptr)
    requires MayDeallocate(pool, p, size) && size in pool.vecs && |pool.vecs[size].items| < pool.vecs[size].capacity
    ensures var kept := AfterDeallocate(pool, p, size);
            && MayAllocate(kept, size, spare) && Chosen(kept, size, spare) == p
            && AfterAllocate(kept, size, spare) == pool
  {
    var kept := AfterDeallocate(pool, p, size);
    assert kept.vecs[size].items == pool.vecs[size].items + [p];
    assert AfterAllocate(kept, size, spare).vecs == pool.vecs;
    assert AfterAllocate(kept, size, spare).blocks == pool.blocks;
  }

  lemma PooledAreListed(pool: Pool, size: nat)
    requires Valid(pool) && size in pool.vecs
    ensures |Holding(pool, size, Pooled)| == |pool.vecs[size].items|
  {
    var items := pool.vecs[size].items;
    assert Lists(size, pool.vecs[size], pool.blocks);
    assert Holding(pool, size, Pooled) == Elements(items);
    DistinctCount(items);
  }

  /** Of each listed size there are at least so many buffers, all of which fit the free list, and there are no others. */
  ghost predicate Ample(pool: Pool, sizes: set<nat>, initial: nat) {
    && Valid(pool)
    && (forall s :: s in sizes ==> s in pool.vecs && initial <= Total(pool, s) <= pool.vecs[s].capacity)
    && (forall p :: p in pool.blocks ==> pool.blocks[p].size in sizes)
  }

  /** As long as callers hold fewer than that, a buffer is reused and nothing is asked of malloc. */
  lemma AmpleAllocates(pool: Pool, sizes: set<nat>, initial: nat, size: nat, spare: Ptr)
    requires Ample(pool, sizes, initial) && size in sizes && |Holding(pool, size, Live)| < initial
    requires MayAllocate(pool, size, spare)
    ensures var next := AfterAllocate(pool, size, spare);
            && Ample(next, sizes, initial) && next.mallocs == pool.mallocs && next.frees == pool.frees
  {
    PooledAreListed(pool, size);
    assert Reuses(pool, size);
    AllocateRefinesMalloc(pool, size, spare);
    var next := AfterAllocate(pool, size, spare);
    forall s | s in sizes ensures s in next.vecs && initial <= Total(next, s) <= next.vecs[s].capacity {
      PopMovesOne(pool, size, spare, s);
    }
  }

  lemma HeldIsHeld(pool: Pool, p: Ptr, size: nat)
    requires MayDeallocate(pool, p, size)
    ensures |Holding(pool, size, Live)| >= 1
  {
    assert {p} <= Holding(pool, size, Live);
    assert |Holding(pool, size, Live)| == |Holding(pool, size, Live) - {p}| + 1;
  }

  /** And a buffer returned is kept, nothing is given to free. */
  lemma AmpleDeallocates(pool: Pool, sizes: set<nat>, initial: nat, p: Ptr, size: nat)
    requires Ample(pool, sizes, initial) && MayDeallocate(pool, p, size)
    ensures var next := AfterDeallocate(pool, p, size);
            && Ample(next, sizes, initial) && next.mallocs == pool.mallocs && next.frees == pool.frees
  {
    PooledAreListed(pool, size);
    HeldIsHeld(pool, p, size);
    assert Keeps(pool, size);
    DeallocateRefinesFree(pool, p, size);
    var next := AfterDeallocate(pool, p, size);
    forall s | s in sizes ensures s in next.vecs && initial <= Total(next, s) <= next.vecs[s].capacity {
      TakenBack(pool, next, p, size, s);
    }
  }

  /** Callers ask for listed sizes only, and only while they hold fewer than that many buffers of the size. */
  ghost predicate Modest(pool: Pool, calls: seq<Call>, sizes: set<nat>, initial: nat)
    requires LegalCalls(pool, calls)
    decreases |calls|
  {
    calls == []
    || ((calls[0].Alloc? ==> calls[0].size in sizes && |Holding(pool, calls[0].size, Live)| < initial)
        && Modest(Do(pool, calls[0]), calls[1..], sizes, initial))
  }

  lemma {:induction false} AmpleStaysAmple(pool: Pool, calls: seq<Call>, sizes: set<nat>, initial: nat)
    requires LegalCalls(pool, calls) && Ample(pool, sizes, initial) && Modest(pool, calls, sizes, initial)
    ensures var end := DoAll(pool, calls);
            Ample(end, sizes, initial) && end.mallocs == pool.mallocs && end.frees == pool.frees
    decreases |calls|
  {
    if calls != [] {
      match calls[0] {
        case Alloc(size, spare) => AmpleAllocates(pool, sizes, initial, size, spare);
        case Dealloc(p, size) => AmpleDeallocates(pool, sizes, initial, p, size);
      }
      AmpleStaysAmple(Do(pool, calls[0]), calls[1..], sizes, initial);
    }
  }

  /** The blocks waiting in the free lists. */
  function Idle(pool: Pool): set<Ptr> {
    set p | p in pool.blocks && pool.blocks[p].use == Pooled
  }

  /** Every block obtained was freed, is pooled, or is held by a caller. */
  lemma NothingLost(pool: Pool)
    requires Balanced(pool)
    ensures pool.mallocs == pool.frees + |LiveView(pool).Keys| + |Idle(pool)|
  {
    assert pool.blocks.Keys == LiveView(pool).Keys + Idle(pool);
  }

  // ---- What the constructor builds ----

  /** pools[size].reserve(capacity), creating the entry if it is missing. */
  function Reserved(pool: Pool, size: nat, capacity: nat): Pool {
    var vec := if size in pool.vecs then pool.vecs[size] else Vec([], 0);
    pool.(vecs := pool.vecs[size := if vec.capacity < capacity then vec.(capacity := capacity) else vec])
  }

  /** A free list after the blocks ps, new from malloc, were pushed on it one by one. */
  function Stocked(pool: Pool, size: nat, ps: seq<Ptr>): (r: Pool)
    requires size in pool.vecs
    ensures size in r.vecs
  {
    if ps == [] then pool
    else
      var before := Stocked(pool, size, ps[..|ps| - 1]);
      Pushed(before, size, ps[|ps| - 1]).(mallocs := before.mallocs + 1)
  }

  ghost predicate AllNew(pool: Pool, ps: seq<Ptr>) {
    NoDuplicates(ps) && forall p :: p in ps ==> p !in pool.blocks
  }

  /** The constructor's outer loop, backwards: what a pool looks like after the listed sizes. */
  ghost predicate BuiltFrom(pool: Pool, sizes: seq<nat>, initial: nat)
    decreases |sizes|
  {
    if sizes == [] then pool == Pool(map[], map[], 0, 0)
    else
      var size := sizes[|sizes| - 1];
      exists before: Pool, ps: seq<Ptr> ::
        && BuiltFrom(before, sizes[..|sizes| - 1], initial)
        && |ps| == initial && AllNew(before, ps)
        && pool == Stocked(Reserved(before, size, initial), size, ps)
  }

  /** A pool nobody has drawn from yet: every block is pooled, none freed. */
  ghost predicate Untouched(pool: Pool) {
    Valid(pool) && Balanced(pool) && pool.frees == 0 && forall p :: p in pool.blocks ==> pool.blocks[p].use == Pooled
  }

  lemma ReserveKeepsUntouched(pool: Pool, size: nat, capacity: nat)
    requires Untouched(pool)
    ensures Untouched(Reserved(pool, size, capacity))
  {
  }

  lemma {:induction false} StockedShape(pool: Pool, size: nat, ps: seq<Ptr>)
    requires size in pool.vecs
    ensures var r := Stocked(pool, size, ps);
            && r.blocks.Keys == pool.blocks.Keys + Elements(ps)
            && r.vecs == pool.vecs[size := r.vecs[size]]
            && r.vecs[size].items == pool.vecs[size].items + ps
    decreases |ps|
  {
    if ps != [] {
      assert ps == ps[..|ps| - 1] + [ps[|ps| - 1]];
      StockedShape(pool, size, ps[..|ps| - 1]);
    }
  }

  lemma StockOneMore(start: Pool, size: nat, ps: seq<Ptr>, p: Ptr)
    requires size in start.vecs && AllNew(start, ps) && p !in Stocked(start, size, ps).blocks
    ensures AllNew(start, ps + [p])
    ensures var before := Stocked(start, size, ps);
            Stocked(start, size, ps + [p]) == Pushed(before, size, p).(mallocs := before.mallocs + 1)
  {
    StockedShape(start, size, ps);
    assert (ps + [p])[..|ps|] == ps;
    assert p !in start.blocks.Keys + Elements(ps);
  }

  lemma PushNewKeepsUntouched(pool: Pool, size: nat, p: Ptr)
    requires Untouched(pool) && size in pool.vecs && p !in pool.blocks
    ensures Untouched(Pushed(pool, size, p).(mallocs := pool.mallocs + 1))
  {
    PushKeepsValid(pool, size, p);
    PushNewAddsOne(pool, size, p);
  }

  lemma PushNewAddsOne(pool: Pool, size: nat, p: Ptr)
    requires size in pool.vecs && p !in pool.blocks
    ensures |Pushed(pool, size, p).blocks.Keys| == |pool.blocks.Keys| + 1
    ensures forall q :: q in Pushed(pool, size, p).blocks ==> q == p || (q in pool.blocks && Pushed(pool, size, p).blocks[q] == pool.blocks[q])
  {
    assert Pushed(pool, size, p).blocks.Keys == pool.blocks.Keys + {p};
  }

  lemma {:induction false} StockKeepsUntouched(pool: Pool, size: nat, ps: seq<Ptr>)
    requires Untouched(pool) && size in pool.vecs && AllNew(pool, ps)
    ensures Untouched(Stocked(pool, size, ps))
    decreases |ps|
  {
    if ps != [] {
      var front, p := ps[..|ps| - 1], ps[|ps| - 1];
      assert AllNew(pool, front) && p !in front;
      StockKeepsUntouched(pool, size, front);
      StockedShape(pool, size, front);
      assert p !in Stocked(pool, size, front).blocks.Keys;
      PushNewKeepsUntouched(Stocked(pool, size, front), size, p);
    }
  }

  lemma LastSize(pool: Pool, sizes: seq<nat>, initial: nat) returns (before: Pool, ps: seq<Ptr>)
    requires sizes != [] && BuiltFrom(pool, sizes, initial)
    ensures BuiltFrom(before, sizes[..|sizes| - 1], initial) && |ps| == initial && AllNew(before, ps)
    ensures pool == Stocked(Reserved(before, sizes[|sizes| - 1], initial), sizes[|sizes| - 1], ps)
  {
    before, ps :|
      && BuiltFrom(before, sizes[..|sizes| - 1], initial) && |ps| == initial && AllNew(before, ps)
      && pool == Stocked(Reserved(before, sizes[|sizes| - 1], initial), sizes[|sizes| - 1], ps);
  }

  lemma {:induction false} BuiltIsUntouched(pool: Pool, sizes: seq<nat>, initial: nat)
    requires BuiltFrom(pool, sizes, initial)
    ensures Untouched(pool)
    decreases |sizes|
  {
    if sizes != [] {
      var size := sizes[|sizes| - 1];
      var before, ps := LastSize(pool, sizes, initial);
      BuiltIsUntouched(before, sizes[..|sizes| - 1], initial);
      ReserveKeepsUntouched(before, size, initial);
      StockKeepsUntouched(Reserved(before, size, initial), size, ps);
    }
  }

  function Listed(pool: Pool, size: nat): nat {
    if size in pool.vecs then |pool.vecs[size].items| else 0
  }

  function Listings(sizes: seq<nat>, s: nat): nat {
    multiset(sizes)[s]
  }

  lemma {:induction false} BuiltSizes(pool: Pool, sizes: seq<nat>, initial: nat, s: nat)
    requires BuiltFrom(pool, sizes, initial)
    ensures s in pool.vecs <==> s in sizes
    decreases |sizes|
  {
    if sizes != [] {
      var front, size := sizes[..|sizes| - 1], sizes[|sizes| - 1];
      assert sizes == front + [size];
      var before, ps := LastSize(pool, sizes, initial);
      BuiltSizes(before, front, initial, s);
      ListedAfter(before, size, initial, ps, s);
    }
  }

  /** The buffers of one size that the listed sizes bring, one after the other. */
  function Brought(sizes: seq<nat>, initial: nat, s: nat): nat {
    if sizes == [] then 0
    else Brought(sizes[..|sizes| - 1], initial, s) + if sizes[|sizes| - 1] == s then initial else 0
  }

  lemma {:induction false} BuiltListed(pool: Pool, sizes: seq<nat>, initial: nat, s: nat)
    requires BuiltFrom(pool, sizes, initial)
    ensures Listed(pool, s) == Brought(sizes, initial, s)
    decreases |sizes|
  {
    if sizes != [] {
      var front, size := sizes[..|sizes| - 1], sizes[|sizes| - 1];
      var before, ps := LastSize(pool, sizes, initial);
      BuiltListed(before, front, initial, s);
      ListedAfter(before, size, initial, ps, s);
    }
  }

  lemma {:induction false} BroughtPerListing(sizes: seq<nat>, initial: nat, s: nat)
    ensures Brought(sizes, initial, s) == Listings(sizes, s) * initial
    decreases |sizes|
  {
    if sizes != [] {
      var front, size := sizes[..|sizes| - 1], sizes[|sizes| - 1];
      BroughtPerListing(front, initial, s);
      assert sizes == front + [size];
      ListingsAppend(front, size, s);
      Distribute(Listings(front, s), if s == size then 1 else 0, initial);
    }
  }

  /** What a new pool holds: initial buffers per listing of a size, so a size listed twice gets twice as many. */
  lemma BuiltCounts(pool: Pool, sizes: seq<nat>, initial: nat, s: nat)
    requires BuiltFrom(pool, sizes, initial)
    ensures s in pool.vecs <==> s in sizes
    ensures Listed(pool, s) == Listings(sizes, s) * initial
  {
    BuiltSizes(pool, sizes, initial, s);
    BuiltListed(pool, sizes, initial, s);
    BroughtPerListing(sizes, initial, s);
  }

  lemma BuiltSizesOnly(pool: Pool, sizes: seq<nat>, initial: nat)
    requires BuiltFrom(pool, sizes, initial)
    ensures forall p :: p in pool.blocks ==> pool.blocks[p].size in sizes
  {
    BuiltIsUntouched(pool, sizes, initial);
    forall p | p in pool.blocks ensures pool.blocks[p].size in sizes { BuiltSizes(pool, sizes, initial, pool.blocks[p].size); }
  }

  lemma ListedAtLeastOnce(sizes: seq<nat>, s: nat, initial: nat)
    requires s in sizes
    ensures Listings(sizes, s) * initial >= initial
  {
    AtMost(1, Listings(sizes, s), initial);
  }

  /** What the constructor builds is ample. */
  lemma BuiltIsAmple(pool: Pool, sizes: seq<nat>, initial: nat)
    requires BuiltFrom(pool, sizes, initial)
    ensures Ample(pool, Elements(sizes), initial) && pool.frees == 0
  {
    BuiltIsUntouched(pool, sizes, initial);
    BuiltSizesOnly(pool, sizes, initial);
    forall s | s in sizes ensures s in pool.vecs && initial <= Total(pool, s) <= pool.vecs[s].capacity {
      BuiltCounts(pool, sizes, initial, s);
      ListedAtLeastOnce(sizes, s, initial);
      PooledAreListed(pool, s);
      assert Holding(pool, s, Live) == {};
      assert Lists(s, pool.vecs[s], pool.blocks);
    }
  }

  /**
   From a pool as it is built, as long as callers ask for listed sizes and hold at most the initial number of buffers
   of each, malloc and free are never called again.
   */
  lemma NoTrafficAfterBuilding(pool: Pool, sizes: seq<nat>, initial: nat, calls: seq<Call>)
    requires BuiltFrom(pool, sizes, initial) && LegalCalls(pool, calls)
    requires Modest(pool, calls, Elements(sizes), initial)
    ensures DoAll(pool, calls).mallocs == pool.mallocs && DoAll(pool, calls).frees == 0
  {
    BuiltIsAmple(pool, sizes, initial);
    AmpleStaysAmple(pool, calls, Elements(sizes), initial);
  }

  lemma ListingsAppend(sizes: seq<nat>, size: nat, s: nat)
    ensures Listings(sizes + [size], s) == Listings(sizes, s) + if s == size then 1 else 0
  {
  }

  lemma ListedAfter(pool: Pool, size: nat, initial: nat, ps: seq<Ptr>, s: nat)
    ensures var r := Stocked(Reserved(pool, size, initial), size, ps);
            && Listed(r, s) == Listed(pool, s) + (if s == size then |ps| else 0)
            && (s in r.vecs <==> s in pool.vecs || s == size)
  {
    StockedShape(Reserved(pool, size, initial), size, ps);
  }

  lemma {:induction false} Unused(s: set<nat>) returns (top: nat)
    ensures forall x :: x in s ==> x < top
  {
    if s == {} {
      top := 0;
    } else {
      var x :| x in s;
      var below := Unused(s - {x});
      top := if x >= below then x + 1 else below;
      assert s == (s - {x}) + {x};
    }
  }

  /** The blocks one pool obtained from malloc; the tag telling live from pooled is the pool's. */
  class Heap {
    var blocks: map<Ptr, Block>
    var mallocs: nat
    var frees: nat

    constructor ()
      ensures blocks == map[] && mallocs == frees == 0
    {
      blocks, mallocs, frees := map[], 0, 0;
    }

    /** Any address not in use. */
    method Malloc(size: nat) returns (p: Ptr)
      modifies this
      ensures p !in old(blocks) && blocks == old(blocks)[p := Block(size, Live)]
      ensures mallocs == old(mallocs) + 1 && frees == old(frees)
    {
      ghost var top := Unused(blocks.Keys);
      assert top !in blocks.Keys;
      p :| p !in blocks;
      blocks, mallocs := blocks[p := Block(size, Live)], mallocs + 1;
    }

    method Free(p: Ptr)
      requires p in blocks
      modifies this
      ensures blocks == old(blocks) - {p}
      ensures frees == old(frees) + 1 && mallocs == old(mallocs)
    {
      blocks, frees := blocks - {p}, frees + 1;
    }
  }

  class BufferPool {
    const heap: Heap
    var pools: map<nat, Vec>

    function View(): Pool
      reads this, heap
    {
      Pool(pools, heap.blocks, heap.mallocs, heap.frees)
    }

    constructor (bufferSizes: seq<nat>, initialCapacity: nat)
      ensures fresh(heap) && BuiltFrom(View(), bufferSizes, initialCapacity)
    {
      heap := new Heap();
      pools := map[];
      new;
      for i := 0 to |bufferSizes|
        invariant fresh(heap) && BuiltFrom(View(), bufferSizes[..i], initialCapacity)
      {
        ghost var before := View();
        ghost var ps := AddSize(bufferSizes[i], initialCapacity);
        assert bufferSizes[..i + 1][..i] == bufferSizes[..i];
      }
      assert bufferSizes[..|bufferSizes|] == bufferSizes;
    }

    /** One turn of the constructor's outer loop: reserve, then push that many new buffers. */
    method AddSize(size: nat, initialCapacity: nat) returns (ghost ps: seq<Ptr>)
      modifies this, heap
      ensures |ps| == initialCapacity && AllNew(old(View()), ps)
      ensures View() == Stocked(Reserved(old(View()), size, initialCapacity), size, ps)
    {
      var vec := if size in pools then pools[size] else Vec([], 0);
      if vec.capacity < initialCapacity { vec := vec.(capacity := initialCapacity); }
      pools := pools[size := vec];
      ps := [];
      ghost var start := View();
      assert start == Reserved(old(View()), size, initialCapacity);
      for j := 0 to initialCapacity
        invariant |ps| == j && AllNew(start, ps)
        invariant size in start.vecs && View() == Stocked(start, size, ps)
      {
        ghost var before := View();
        var p := PushNew(size);
        StockOneMore(start, size, ps, p);
        ps := ps + [p];
      }
    }

    /** One push_back of a new buffer. */
    method PushNew(size: nat) returns (p: Ptr)
      requires size in pools
      modifies this, heap
      ensures p !in old(heap.blocks)
      ensures View() == Pushed(old(View()), size, p).(mallocs := old(heap.mallocs) + 1)
    {
      p := heap.Malloc(size);
      heap.blocks := heap.blocks[p := Block(size, Pooled)];
      pools := pools[size := Push(pools[size], p)];
    }

    method Allocate(size: nat) returns (buffer: Ptr)
      modifies this, heap
      ensures MayAllocate(old(View()), size, buffer) && buffer == Chosen(old(View()), size, buffer)
      ensures View() == AfterAllocate(old(View()), size, buffer)
      ensures size in old(pools) && old(pools)[size].items != [] ==>
                && old(pools)[size].items == pools[size].items + [buffer]
                && heap.mallocs == old(heap.mallocs)
      ensures !(size in old(pools) && old(pools)[size].items != []) ==>
                pools == old(pools) && heap.mallocs == old(heap.mallocs) + 1 && buffer !in old(heap.blocks)
    {
      if size in pools {
        var vec := pools[size];
        if vec.items != [] {
          buffer := vec.items[|vec.items| - 1];
          pools := pools[size := vec.(items := vec.items[..|vec.items| - 1])];
          heap.blocks := heap.blocks[buffer := Block(size, Live)];
          return;
        }
      }
      buffer := heap.Malloc(size);
    }

    method Deallocate(buffer: Ptr, size: nat)
      requires MayDeallocate(View(), buffer, size)
      modifies this, heap
      ensures View() == AfterDeallocate(old(View()), buffer, size)
      ensures size in old(pools) && |old(pools)[size].items| < old(pools)[size].capacity ==>
                && pools[size].items == old(pools)[size].items + [buffer] && pools[size].capacity == old(pools)[size].capacity
                && heap.frees == old(heap.frees) && buffer in heap.blocks
      ensures !(size in old(pools) && |old(pools)[size].items| < old(pools)[size].capacity) ==>
                pools == old(pools) && heap.frees == old(heap.frees) + 1 && buffer !in heap.blocks
    {
      if size in pools {
        var vec := pools[size];
        if |vec.items| < vec.capacity {
          pools := pools[size := vec.(items := vec.items + [buffer])];
          heap.blocks := heap.blocks[buffer := Block(size, Pooled)];
          return;
        }
      }
      heap.Free(buffer);
    }

    /** The destructor: every pooled buffer goes back to the heap, once; buffers still held by callers stay. */
    method Destroy()
      requires Valid(View())
      modifies heap
      ensures heap.blocks == Remaining(old(heap.blocks), {}) && heap.blocks.Keys == LiveView(old(View())).Keys
      ensures heap.mallocs == old(heap.mallocs)
      ensures heap.frees + |heap.blocks.Keys| == old(heap.frees + |heap.blocks.Keys|)
      ensures old(Balanced(View())) ==> heap.mallocs == heap.frees + |heap.blocks.Keys|
    {
      ghost var start := heap.blocks;
      var left := pools.Keys;
      assert Remaining(start, left) == start;
      while left != {}
        invariant left <= pools.Keys
        invariant heap.blocks == Remaining(start, left)
        invariant heap.mallocs == old(heap.mallocs)
        invariant heap.frees + |heap.blocks.Keys| == old(heap.frees + |heap.blocks.Keys|)
        decreases left
      {
        var size :| size in left;
        RemainingWithout(start, left, size, pools[size].items);
        ghost var before := heap.blocks;
        FreeAll(pools[size].items);
        FreedCount(before, pools[size].items);
        left := left - {size};
      }
    }

    /** One free list of the destructor's loop. */
    method FreeAll(items: seq<Ptr>)
      requires NoDuplicates(items) && Elements(items) <= heap.blocks.Keys
      modifies heap
      ensures heap.blocks == old(heap.blocks) - Elements(items)
      ensures heap.mallocs == old(heap.mallocs) && heap.frees == old(heap.frees) + |items|
    {
      assert Elements([]) == {};
      for i := 0 to |items|
        invariant heap.blocks == old(heap.blocks) - Elements(items[..i])
        invariant heap.mallocs == old(heap.mallocs) && heap.frees == old(heap.frees) + i
      {
        assert items[i] in Elements(items) && items[i] !in Elements(items[..i]);
        heap.Free(items[i]);
        assert Elements(items[..i + 1]) == Elements(items[..i]) + {items[i]};
      }
      assert items[..|items|] == items;
    }
  }

  lemma RemainingWithout(blocks: map<Ptr, Block>, left: set<nat>, size: nat, items: seq<Ptr>)
    requires size in left
    requires forall p :: p in items <==> p in blocks && blocks[p] == Block(size, Pooled)
    ensures Elements(items) <= Remaining(blocks, left).Keys
    ensures Remaining(blocks, left) - Elements(items) == Remaining(blocks, left - {size})
  {
  }

  lemma FreedCount(blocks: map<Ptr, Block>, items: seq<Ptr>)
    requires NoDuplicates(items) && Elements(items) <= blocks.Keys
    ensures |(blocks - Elements(items)).Keys| + |items| == |blocks.Keys|
  {
    DistinctCount(items);
    assert (blocks - Elements(items)).Keys == blocks.Keys - Elements(items);
  }

  lemma {:induction false} DistinctCount(items: seq<Ptr>)
    requires NoDuplicates(items)
    ensures |Elements(items)| == |items|
  {
    if items != [] {
      var front, p := items[..|items| - 1], items[|items| - 1];
      assert items == front + [p] && p !in front;
      DistinctCount(front);
      assert Elements(items) == Elements(front) + {p};
    }
  }

  function Elements(s: seq<Ptr>): set<Ptr> {
    set p | p in s
  }

  /** The blocks not yet freed when the free lists of the sizes in `left` are still to do. */
  function Remaining(blocks: map<Ptr, Block>, left: set<nat>): map<Ptr, Block> {
    map p | p in blocks && (blocks[p].use == Live || blocks[p].size in left) :: blocks[p]
  }
}
