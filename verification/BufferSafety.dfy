/** Ownership, memory safety and content integrity over whole runs of the buffer-level machine. */
module BufferSafety {
  import opened Sequences
  import opened BufferPools
  import P = Protocol
  import PipelineSafety
  import opened Buffers

  /** Both processes before their first turn: two new pools, nothing handed out. */
  ghost predicate Starts(c: P.Config, s: System) {
    && View(c, s) == P.Init()
    && s.client.store.Sane() && LiveView(s.client.store.pool) == map[]
    && s.server.store.Sane() && LiveView(s.server.store.pool) == map[]
  }

  /** What the BufferPool constructor builds is such a pool. */
  lemma NewPoolStarts(c: P.Config, pool: Pool, initial: nat)
    requires BuiltFrom(pool, [PageSize(c), SmallSize()], initial)
    ensures Valid(pool) && LiveView(pool) == map[]
  {
    BuiltIsUntouched(pool, [PageSize(c), SmallSize()], initial);
  }

  /** malloc leaves anything in its blocks, as long as each has room for its size. */
  ghost predicate Backs(memory: map<Ptr, Record>, pool: Pool) {
    forall p :: p in pool.blocks ==> p in memory && |memory[p].buffer| == Slots(pool.blocks[p].size)
  }

  /** Whatever happens to be in memory. */
  datatype Garbage = Garbage(event: Ptr -> EventType, slot: (Ptr, nat) -> int)

  function Unwritten(pool: Pool, garbage: Garbage): (store: Store)
    ensures store.pool == pool && Backs(store.memory, pool)
  {
    Store(pool, map p | p in pool.blocks ::
      Record(garbage.event(p), seq(Slots(pool.blocks[p].size), i requires 0 <= i => garbage.slot(p, i))))
  }

  function FreshClient(store: Store): ClientSide {
    ClientSide(P.Top, 0, 0, 0, 0, [], [], [], [], [], 0, 0, [], store)
  }

  function FreshServer(store: Store): ServerSide {
    ServerSide(false, [], [], [], [], false, store)
  }

  /** Two pools as the constructor builds them, with whatever memory behind their blocks, make a start. */
  lemma BuiltPoolsStart(c: P.Config, client: Store, server: Store, initial: nat)
    requires BuiltFrom(client.pool, [PageSize(c), SmallSize()], initial) && Backs(client.memory, client.pool)
    requires BuiltFrom(server.pool, [PageSize(c), SmallSize()], initial) && Backs(server.memory, server.pool)
    ensures Starts(c, System(FreshClient(client), [], [], FreshServer(server)))
  {
    NewPoolStarts(c, client.pool, initial);
    NewPoolStarts(c, server.pool, initial);
    FreshSidesShow(c, client, server);
  }

  lemma FreshSidesShow(c: P.Config, client: Store, server: Store)
    ensures View(c, System(FreshClient(client), [], [], FreshServer(server))) == P.Init()
  {
    assert ClientView(c, FreshClient(client)) == P.Init().client;
    assert ServerView(FreshServer(server)) == P.Init().server;
  }

  lemma StartsOk(c: P.Config, s: System)
    requires Starts(c, s)
    ensures Ok(c, s)
  {
    var k, v := s.client, s.server;
    assert |k.store.Heads(k.queuedSends)| == 0 && |k.store.Heads(k.sends)| == 0 && |ClientCqView(k)| == 0;
    assert |v.store.Heads(v.writes)| == 0 && |ServerCqView(v)| == 0;
    assert |PageIds(k.received)| == 0 && |PageIds(s.down)| == 0;
  }

  /** A move is memory safe, keeps ownership and types, and is one step of the protocol. */
  ghost predicate Refines(c: P.Config, s: System, move: Move)
    requires Ready(c, s, move)
  {
    && Safe(c, s, move) && Ok(c, AfterMove(c, s, move))
    && P.Enabled(c, View(c, s), StepOf(move))
    && View(c, AfterMove(c, s, move)) == P.Apply(c, View(c, s), StepOf(move))
  }

  lemma ClientMoveRefines(c: P.Config, s: System, spare: Ptr, garbage: Record)
    requires Ok(c, s) && Ready(c, s, ClientMove(spare, garbage))
    ensures Refines(c, s, ClientMove(spare, garbage))
  {
    ClientMovesOk(c, s.client, spare, garbage);
  }

  lemma ServerMoveRefines(c: P.Config, s: System, spare: Ptr, garbage: Record)
    requires c.pageSize >= 1 && Ok(c, s) && Ready(c, s, ServerMove(spare, garbage))
    ensures Refines(c, s, ServerMove(spare, garbage))
  {
    ServerMovesOk(c, s.server, spare, garbage);
    ViewAfterServer(c, s, ServerMoves(c, s.server, spare, garbage));
  }

  lemma ViewAfterServer(c: P.Config, s: System, v: ServerSide)
    requires !s.server.started || s.server.handled || s.server.cq != []
    requires ServerView(v) == P.ServerTurn(c, ServerView(s.server))
    ensures P.Enabled(c, View(c, s), P.ServerStep)
    ensures View(c, s.(server := v)) == P.Apply(c, View(c, s), P.ServerStep)
  {
  }

  lemma CompleteSendRefines(c: P.Config, s: System, i: nat)
    requires Ok(c, s) && Ready(c, s, CompleteSend(i))
    ensures Refines(c, s, CompleteSend(i))
  {
    FinishSendOk(c, s.client, i);
    ViewAfterSend(c, s, i, FinishSend(s.client, i));
  }

  lemma ViewAfterSend(c: P.Config, s: System, i: nat, k: ClientSide)
    requires i < |s.client.sends| && |s.up| < c.upCapacity
    requires var view := ClientView(c, s.client);
             ClientView(c, k) == view.(sends := Without(view.sends, i), cq := view.cq + [P.SendDone])
    ensures P.Enabled(c, View(c, s), P.KernelSend(i))
    ensures View(c, s.(client := k, up := s.up + [ClientView(c, s.client).sends[i]])) == P.Apply(c, View(c, s), P.KernelSend(i))
  {
  }

  lemma CompleteRecvRefines(c: P.Config, s: System, i: nat)
    requires c.pageSize >= 1 && Ok(c, s) && Ready(c, s, CompleteRecv(i))
    ensures Refines(c, s, CompleteRecv(i))
  {
    assert s.down[0] in s.down;
    FinishRecvOk(c, s.client, i, s.down[0]);
    ViewAfterRecv(c, s, FinishRecv(c, s.client, i, s.down[0]));
  }

  lemma ViewAfterRecv(c: P.Config, s: System, k: ClientSide)
    requires s.down != [] && s.client.recvs != []
    requires var view := ClientView(c, s.client);
             ClientView(c, k) == view.(recvs := view.recvs - 1, cq := view.cq + [P.RecvDone(PageId(s.down[0]))])
    ensures P.Enabled(c, View(c, s), P.KernelRecv)
    ensures View(c, s.(client := k, down := s.down[1..])) == P.Apply(c, View(c, s), P.KernelRecv)
  {
    assert PageIds(s.down[1..]) == PageIds(s.down)[1..];
  }

  lemma CompleteReadRefines(c: P.Config, s: System, i: nat)
    requires c.pageSize >= 1 && Ok(c, s) && Ready(c, s, CompleteRead(i))
    ensures Refines(c, s, CompleteRead(i))
  {
    FinishReadOk(c, s.server, i, s.up[0]);
    ViewAfterRead(c, s, FinishRead(s.server, i, s.up[0]));
  }

  lemma ViewAfterRead(c: P.Config, s: System, v: ServerSide)
    requires s.up != [] && s.server.openReads != []
    requires var view := ServerView(s.server);
             ServerView(v) == view.(openReads := view.openReads - 1, cq := view.cq + [P.ReadDone(s.up[0])])
    ensures P.Enabled(c, View(c, s), P.KernelRead)
    ensures View(c, s.(server := v, up := s.up[1..])) == P.Apply(c, View(c, s), P.KernelRead)
  {
  }

  lemma CompleteWriteOk(c: P.Config, s: System, i: nat)
    requires c.pageSize >= 1 && Ok(c, s) && Ready(c, s, CompleteWrite(i))
    ensures Safe(c, s, CompleteWrite(i)) && Ok(c, AfterMove(c, s, CompleteWrite(i)))
  {
    FinishWriteOk(c, s.server, i);
    PageSentOk(c, s, FinishWrite(c, s.server, i), s.server.store.memory[s.server.writes[i]].buffer[..c.pageSize]);
  }

  lemma PageSentOk(c: P.Config, s: System, v: ServerSide, page: Page)
    requires Ok(c, s) && ServerOk(c, v) && Uniform(c, page)
    ensures Ok(c, s.(server := v, down := s.down + [page]))
  {
  }

  lemma CompleteWriteRefines(c: P.Config, s: System, i: nat)
    requires c.pageSize >= 1 && Ok(c, s) && Ready(c, s, CompleteWrite(i))
    ensures Refines(c, s, CompleteWrite(i))
  {
    CompleteWriteOk(c, s, i);
    FinishWriteOk(c, s.server, i);
    ViewAfterWrite(c, s, i, FinishWrite(c, s.server, i), s.server.store.memory[s.server.writes[i]].buffer[..c.pageSize]);
  }

  lemma ViewAfterWrite(c: P.Config, s: System, i: nat, v: ServerSide, page: Page)
    requires i < |s.server.writes| && |s.down| < c.downCapacity && PageId(page) == ServerView(s.server).writes[i]
    requires var view := ServerView(s.server);
             ServerView(v) == view.(writes := Without(view.writes, i), cq := view.cq + [P.WriteDone])
    ensures P.Enabled(c, View(c, s), P.KernelWrite(i))
    ensures View(c, s.(server := v, down := s.down + [page])) == P.Apply(c, View(c, s), P.KernelWrite(i))
  {
    assert PageIds(s.down + [page]) == PageIds(s.down) + [PageId(page)];
  }

  lemma MoveRefines(c: P.Config, s: System, move: Move)
    requires c.pageSize >= 1 && Ok(c, s) && Ready(c, s, move)
    ensures Refines(c, s, move)
  {
    match move
    case ClientMove(spare, garbage) => ClientMoveRefines(c, s, spare, garbage);
    case ServerMove(spare, garbage) => ServerMoveRefines(c, s, spare, garbage);
    case CompleteSend(i) => CompleteSendRefines(c, s, i);
    case CompleteRecv(i) => CompleteRecvRefines(c, s, i);
    case CompleteRead(i) => CompleteReadRefines(c, s, i);
    case CompleteWrite(i) => CompleteWriteRefines(c, s, i);
  }

  // ---- Whole runs ----

  /** The moves can be made one after the other; a run that is not memory safe stops being one. */
  ghost predicate Possible(c: P.Config, s: System, moves: seq<Move>)
    decreases |moves|
  {
    moves == [] || (Ready(c, s, moves[0]) && Safe(c, s, moves[0]) && Possible(c, AfterMove(c, s, moves[0]), moves[1..]))
  }

  ghost function Run(c: P.Config, s: System, moves: seq<Move>): System
    requires Possible(c, s, moves)
    decreases |moves|
  {
    if moves == [] then s else Run(c, AfterMove(c, s, moves[0]), moves[1..])
  }

  /** States some run from new pools leads to. */
  ghost predicate Arises(c: P.Config, s: System) {
    exists start, moves :: Starts(c, start) && Possible(c, start, moves) && Run(c, start, moves) == s
  }

  lemma {:induction false} RunRefines(c: P.Config, s: System, moves: seq<Move>)
    requires c.pageSize >= 1 && Ok(c, s) && Possible(c, s, moves) && P.Reachable(c, View(c, s))
    ensures Ok(c, Run(c, s, moves)) && P.Reachable(c, View(c, Run(c, s, moves)))
    decreases |moves|
  {
    if moves != [] {
      MoveRefines(c, s, moves[0]);
      P.StepReachable(c, View(c, s), StepOf(moves[0]));
      RunRefines(c, AfterMove(c, s, moves[0]), moves[1..]);
    }
  }

  lemma ArisesOk(c: P.Config, s: System)
    requires c.pageSize >= 1 && Arises(c, s)
    ensures Ok(c, s) && P.Reachable(c, View(c, s))
  {
    var start, moves :| Starts(c, start) && Possible(c, start, moves) && Run(c, start, moves) == s;
    StartsOk(c, start);
    P.InitReachable(c);
    RunRefines(c, start, moves);
  }

  lemma StartArises(c: P.Config, s: System)
    requires Starts(c, s)
    ensures Arises(c, s)
  {
    assert Possible(c, s, []) && Run(c, s, []) == s;
  }

  lemma {:induction false} AppendMove(c: P.Config, s: System, moves: seq<Move>, move: Move)
    requires Possible(c, s, moves) && Ready(c, Run(c, s, moves), move) && Safe(c, Run(c, s, moves), move)
    ensures Possible(c, s, moves + [move])
    ensures Run(c, s, moves + [move]) == AfterMove(c, Run(c, s, moves), move)
    decreases |moves|
  {
    if moves == [] {
      assert (moves + [move])[1..] == [];
    } else {
      assert (moves + [move])[1..] == moves[1..] + [move];
      AppendMove(c, AfterMove(c, s, moves[0]), moves[1..], move);
    }
  }

  /** From a state that arises, whatever is ready is safe and leads to a state that arises. */
  lemma MoveArises(c: P.Config, s: System, move: Move)
    requires c.pageSize >= 1 && Arises(c, s) && Ready(c, s, move)
    ensures Safe(c, s, move) && Arises(c, AfterMove(c, s, move))
  {
    NeverUnsafe(c, s, move);
    var start, moves :| Starts(c, start) && Possible(c, start, moves) && Run(c, start, moves) == s;
    AppendMove(c, start, moves, move);
  }

  /** One move made where it could be. */
  ghost predicate Made(c: P.Config, before: System, move: Move, after: System) {
    Ready(c, before, move) && Safe(c, before, move) && after == AfterMove(c, before, move)
  }

  /** Pages the server has queued so far, wherever they are now. */
  function Answered(c: P.Config, s: System): nat {
    PipelineSafety.Answered(View(c, s))
  }

  lemma HeadIsRead(v: ServerSide)
    requires v.cq != []
    ensures |ServerView(v).cq| > 0 && (ServerView(v).cq[0].ReadDone? <==> v.store.Event(v.cq[0].data) == ReadEvent)
  {
  }

  /** A move adds one exactly when it is the server's and finds a read completed. */
  lemma MoveAnswers(c: P.Config, s: System, move: Move)
    requires c.pageSize >= 1 && Arises(c, s) && Ready(c, s, move)
    ensures Safe(c, s, move)
    ensures Answered(c, AfterMove(c, s, move)) == Answered(c, s) + if move.ServerMove? && Answering(s.server) then 1 else 0
  {
    ArisesOk(c, s);
    MoveRefines(c, s, move);
    PipelineSafety.AnsweredOnce(c, View(c, s), StepOf(move));
    if s.server.cq != [] { HeadIsRead(s.server); }
  }

  /** Buffers block nothing: whatever step the protocol allows, some move makes it. */
  lemma EveryStepHasAMove(c: P.Config, s: System, step: P.Step) returns (move: Move)
    requires P.Enabled(c, View(c, s), step)
    ensures Ready(c, s, move)
    ensures StepOf(move) == step
  {
    match step
    case ClientStep =>
      var spare := Unused(s.client.store.pool.blocks.Keys);
      var slots := if s.client.phase == P.Sending then Slots(SmallSize()) else Slots(PageSize(c));
      move := ClientMove(spare, Record(SendEvent, seq(slots, _ => 0)));
    case ServerStep =>
      var spare := Unused(s.server.store.pool.blocks.Keys);
      move := ServerMove(spare, Record(ReadEvent, seq(Slots(PageSize(c)), _ => 0)));
    case KernelSend(i) => move := CompleteSend(i);
    case KernelRecv => move := CompleteRecv(0);
    case KernelRead => move := CompleteRead(0);
    case KernelWrite(i) => move := CompleteWrite(i);
  }

  /** And over whole runs: whatever the protocol can do from a state that arises, the system with buffers can do. */
  lemma {:induction false} EveryRunHasMoves(c: P.Config, s: System, run: seq<P.Step>) returns (t: System)
    requires c.pageSize >= 1 && Arises(c, s) && P.Legal(c, View(c, s), run)
    ensures Arises(c, t) && View(c, t) == P.After(c, View(c, s), run)
    decreases |run|
  {
    if run == [] {
      t := s;
    } else {
      var move := EveryStepHasAMove(c, s, run[0]);
      MoveArises(c, s, move);
      ArisesOk(c, s);
      MoveRefines(c, s, move);
      t := EveryRunHasMoves(c, AfterMove(c, s, move), run[1..]);
    }
  }

  /** So the states of the protocol that can be reached are exactly those the system with buffers can be in. */
  lemma ReachableIffArises(c: P.Config, start: System, state: P.State)
    requires c.pageSize >= 1 && Starts(c, start)
    ensures P.Reachable(c, state) <==> exists t :: Arises(c, t) && View(c, t) == state
  {
    if P.Reachable(c, state) {
      var run :| P.Legal(c, P.Init(), run) && P.After(c, P.Init(), run) == state;
      StartArises(c, start);
      var t := EveryRunHasMoves(c, start, run);
      assert Arises(c, t) && View(c, t) == state;
    }
    if t :| Arises(c, t) && View(c, t) == state {
      ArisesOk(c, t);
    }
  }

  /**
   No run ever reads, writes or frees memory its operation does not hold: whatever the kernel and malloc do next
   is safe. In particular every deallocate passes the size its block was allocated with.
   */
  lemma NeverUnsafe(c: P.Config, s: System, move: Move)
    requires c.pageSize >= 1 && Arises(c, s) && Ready(c, s, move)
    ensures Safe(c, s, move)
  {
    ArisesOk(c, s);
    MoveRefines(c, s, move);
  }

  /** The blocks held from each pool are exactly those of its queued, in-flight and unreaped operations, each of one only. */
  lemma OneOwnerEach(c: P.Config, s: System)
    requires c.pageSize >= 1 && Arises(c, s)
    ensures ClientOwned(s.client) == multiset(LiveView(s.client.store.pool).Keys)
    ensures ServerOwned(s.server) == multiset(LiveView(s.server.store.pool).Keys)
    ensures forall p :: ClientOwned(s.client)[p] <= 1 && ServerOwned(s.server)[p] <= 1
    ensures forall p :: p in ClientOwned(s.client) ==> p in s.client.store.pool.blocks && s.client.store.pool.blocks[p].use == Live
    ensures forall p :: p in ServerOwned(s.server) ==> p in s.server.store.pool.blocks && s.server.store.pool.blocks[p].use == Live
  {
    ArisesOk(c, s);
  }

  lemma HowManyOwned(k: ClientSide, v: ServerSide)
    ensures |ClientOwned(k)| == |k.queuedSends| + |k.queuedRecvs| + |k.sends| + |k.recvs| + |k.cq|
    ensures |ServerOwned(v)| == |v.queuedReads| + |v.openReads| + |v.writes| + |v.cq|
  {
  }

  /** So the windows bound the memory too: however long the run, neither side ever holds more blocks than this. */
  lemma BlocksHeldBounded(c: P.Config, s: System)
    requires c.pageSize >= 1 && Arises(c, s)
    ensures |LiveView(s.client.store.pool).Keys| <= c.ring / 4 + 2 * (c.ring / 2)
    ensures |LiveView(s.server.store.pool).Keys| <= 2 * (c.ring / 4) + c.ring / 2
  {
    OneOwnerEach(c, s);
    HowManyOwned(s.client, s.server);
    OperationsBounded(c, s);
    assert |multiset(LiveView(s.client.store.pool).Keys)| == |LiveView(s.client.store.pool).Keys|;
    assert |multiset(LiveView(s.server.store.pool).Keys)| == |LiveView(s.server.store.pool).Keys|;
  }

  lemma OperationsBounded(c: P.Config, s: System)
    requires c.pageSize >= 1 && Arises(c, s)
    ensures var k, v := s.client, s.server;
            && |k.queuedSends| + |k.queuedRecvs| + |k.sends| + |k.recvs| + |k.cq| <= c.ring / 4 + 2 * (c.ring / 2)
            && |v.queuedReads| + |v.openReads| + |v.writes| + |v.cq| <= 2 * (c.ring / 4) + c.ring / 2
  {
    ArisesOk(c, s);
    PipelineSafety.ClientCompletionsFit(c, View(c, s));
    PipelineSafety.ServerOperationsFit(c, View(c, s));
    ViewSizes(c, s);
  }

  lemma ViewSizes(c: P.Config, s: System)
    ensures var k, view := s.client, View(c, s).client;
            && |view.queuedSends| == |k.queuedSends| && view.queuedRecvs == |k.queuedRecvs|
            && |view.sends| == |k.sends| && view.recvs == |k.recvs| && |view.cq| == |k.cq| && view.count == k.count
    ensures var v, view := s.server, View(c, s).server;
            && view.queuedReads == |v.queuedReads| && view.openReads == |v.openReads|
            && |view.writes| == |v.writes| && |view.cq| == |v.cq|
  {
  }

  // ---- No traffic with malloc and free ----

  function BothSizes(c: P.Config): set<nat> { {PageSize(c), SmallSize()} }

  /** What a move does to a pool: nothing, or one call for one of the two record sizes. */
  ghost predicate OneCall(c: P.Config, pool: Pool, next: Pool) {
    || next == pool
    || (exists size, spare :: size in BothSizes(c) && MayAllocate(pool, size, spare) && next == AfterAllocate(pool, size, spare))
    || (exists p, size :: MayDeallocate(pool, p, size) && next == AfterDeallocate(pool, p, size))
  }

  lemma ClientCallsOnce(c: P.Config, s: System, move: Move)
    requires Ready(c, s, move) && Safe(c, s, move)
    ensures OneCall(c, s.client.store.pool, AfterMove(c, s, move).client.store.pool)
  {
  }

  lemma ServerCallsOnce(c: P.Config, s: System, move: Move)
    requires Ready(c, s, move) && Safe(c, s, move)
    ensures OneCall(c, s.server.store.pool, AfterMove(c, s, move).server.store.pool)
  {
  }

  lemma LiveOfOneSize(pool: Pool, size: nat)
    ensures |Holding(pool, size, Live)| <= |LiveView(pool).Keys|
  {
    Fewer(Holding(pool, size, Live), LiveView(pool).Keys);
  }

  lemma Fewer(a: set<Ptr>, b: set<Ptr>)
    requires a <= b
    ensures |a| <= |b|
  {
    assert b == a + (b - a);
  }

  lemma OneMoreLive(pool: Pool, size: nat, spare: Ptr)
    requires Valid(pool) && MayAllocate(pool, size, spare)
    ensures |Holding(AfterAllocate(pool, size, spare), size, Live)| == |Holding(pool, size, Live)| + 1
  {
    var p := Chosen(pool, size, spare);
    assert p in pool.blocks ==> pool.blocks[p].use == Pooled by { AllocateRefinesMalloc(pool, size, spare); }
    BecomesLive(pool, AfterAllocate(pool, size, spare), p, size);
  }

  lemma BecomesLive(pool: Pool, next: Pool, p: Ptr, size: nat)
    requires p in pool.blocks ==> pool.blocks[p].use == Pooled
    requires next.blocks == pool.blocks[p := Block(size, Live)]
    ensures |Holding(next, size, Live)| == |Holding(pool, size, Live)| + 1
  {
    assert Holding(next, size, Live) == Holding(pool, size, Live) + {p};
  }

  /** A call after which no more buffers are held than there were to begin with is served from the pool. */
  lemma CallStaysAmple(c: P.Config, pool: Pool, next: Pool, initial: nat)
    requires Ample(pool, BothSizes(c), initial) && OneCall(c, pool, next) && |LiveView(next).Keys| <= initial
    ensures Ample(next, BothSizes(c), initial) && next.mallocs == pool.mallocs && next.frees == pool.frees
  {
    if next == pool {
    } else if size, spare :| size in BothSizes(c) && MayAllocate(pool, size, spare) && next == AfterAllocate(pool, size, spare) {
      OneMoreLive(pool, size, spare);
      LiveOfOneSize(next, size);
      AmpleAllocates(pool, BothSizes(c), initial, size, spare);
    } else {
      var p, size :| MayDeallocate(pool, p, size) && next == AfterDeallocate(pool, p, size);
      AmpleDeallocates(pool, BothSizes(c), initial, p, size);
    }
  }

  ghost predicate BothAmple(c: P.Config, s: System, initial: nat) {
    Ample(s.client.store.pool, BothSizes(c), initial) && Ample(s.server.store.pool, BothSizes(c), initial)
  }

  ghost predicate SameTraffic(s: System, t: System) {
    && s.client.store.pool.mallocs == t.client.store.pool.mallocs && s.client.store.pool.frees == t.client.store.pool.frees
    && s.server.store.pool.mallocs == t.server.store.pool.mallocs && s.server.store.pool.frees == t.server.store.pool.frees
  }

  /** Enough buffers to begin with for every operation either side can have. */
  predicate Enough(c: P.Config, initial: nat) {
    c.ring / 4 + 2 * (c.ring / 2) <= initial
  }

  lemma MoveStaysAmple(c: P.Config, s: System, move: Move, initial: nat)
    requires c.pageSize >= 1 && Arises(c, s) && Ready(c, s, move) && BothAmple(c, s, initial) && Enough(c, initial)
    ensures Safe(c, s, move) && BothAmple(c, AfterMove(c, s, move), initial) && SameTraffic(s, AfterMove(c, s, move))
  {
    MoveArises(c, s, move);
    BlocksHeldBounded(c, AfterMove(c, s, move));
    ClientCallsOnce(c, s, move);
    ServerCallsOnce(c, s, move);
    CallStaysAmple(c, s.client.store.pool, AfterMove(c, s, move).client.store.pool, initial);
    CallStaysAmple(c, s.server.store.pool, AfterMove(c, s, move).server.store.pool, initial);
  }

  lemma {:induction false} RunStaysAmple(c: P.Config, s: System, moves: seq<Move>, initial: nat)
    requires c.pageSize >= 1 && Arises(c, s) && Possible(c, s, moves) && BothAmple(c, s, initial) && Enough(c, initial)
    ensures SameTraffic(s, Run(c, s, moves))
    decreases |moves|
  {
    if moves != [] {
      MoveStaysAmple(c, s, moves[0], initial);
      MoveArises(c, s, moves[0]);
      RunStaysAmple(c, AfterMove(c, s, moves[0]), moves[1..], initial);
    }
  }

  /**
   From pools built with enough buffers of each size, neither program ever calls malloc or free again, however long
   it runs. The 128 of the source are enough up to RING_SIZE 102.
   */
  lemma NoTrafficWhileRunning(c: P.Config, s: System, moves: seq<Move>, initial: nat)
    requires c.pageSize >= 1 && Starts(c, s) && Possible(c, s, moves) && Enough(c, initial)
    requires BuiltFrom(s.client.store.pool, [PageSize(c), SmallSize()], initial)
    requires BuiltFrom(s.server.store.pool, [PageSize(c), SmallSize()], initial)
    ensures SameTraffic(s, Run(c, s, moves))
    ensures Run(c, s, moves).client.store.pool.frees == Run(c, s, moves).server.store.pool.frees == 0
    ensures c.ring <= 102 ==> Enough(c, INITIAL_POOL_SIZE)
  {
    StartArises(c, s);
    assert Elements([PageSize(c), SmallSize()]) == BothSizes(c);
    BuiltIsAmple(s.client.store.pool, [PageSize(c), SmallSize()], initial);
    BuiltIsAmple(s.server.store.pool, [PageSize(c), SmallSize()], initial);
    RunStaysAmple(c, s, moves, initial);
  }

  // ---- The sizes of records ----

  /** A request's record is the header and one number, any other the header and a page. */
  lemma HeldSizes(c: P.Config, s: System)
    requires c.pageSize >= 1 && Arises(c, s)
    ensures forall p :: p in s.client.queuedSends || p in s.client.sends ==>
              p in s.client.store.pool.blocks && s.client.store.pool.blocks[p] == Block(44, Live)
    ensures forall p :: p in s.client.queuedRecvs || p in s.client.recvs ==>
              p in s.client.store.pool.blocks && s.client.store.pool.blocks[p] == Block(40 + c.pageSize * 4, Live)
    ensures forall p :: p in s.server.queuedReads || p in s.server.openReads || p in s.server.writes ==>
              p in s.server.store.pool.blocks && s.server.store.pool.blocks[p] == Block(40 + c.pageSize * 4, Live)
  {
    ArisesOk(c, s);
    ClientSizes(c, s.client);
    ServerSizes(c, s.server);
  }

  lemma ClientSizes(c: P.Config, k: ClientSide)
    requires ClientTyped(c, k)
    ensures forall p :: p in k.queuedSends || p in k.sends ==> p in k.store.pool.blocks && k.store.pool.blocks[p] == Block(44, Live)
    ensures forall p :: p in k.queuedRecvs || p in k.recvs ==>
              p in k.store.pool.blocks && k.store.pool.blocks[p] == Block(40 + c.pageSize * 4, Live)
  {
  }

  lemma ServerSizes(c: P.Config, v: ServerSide)
    requires ServerTyped(c, v)
    ensures forall p :: p in v.queuedReads || p in v.openReads || p in v.writes ==>
              p in v.store.pool.blocks && v.store.pool.blocks[p] == Block(40 + c.pageSize * 4, Live)
  {
  }

  /**
   What the thread's pool has still out when its loop is left: a block for each send and each receive not reaped,
   none exactly when every page was received.
   */
  lemma BlocksOutAtExit(c: P.Config, s: System)
    requires c.pageSize >= 1 && Arises(c, s) && s.client.phase == P.Exited
    ensures s.client.iterations <= s.client.sendsReaped <= c.n
    ensures |LiveView(s.client.store.pool).Keys| == (c.n - s.client.sendsReaped) + (c.n - s.client.iterations)
    ensures LiveView(s.client.store.pool) == map[] <==> s.client.iterations == c.n
  {
    ArisesOk(c, s);
    PipelineSafety.OutstandingAtExit(c, View(c, s));
    ViewSizes(c, s);
    HowManyOwned(s.client, s.server);
    OneOwnerEach(c, s);
    assert |multiset(LiveView(s.client.store.pool).Keys)| == |LiveView(s.client.store.pool).Keys|;
    assert LiveView(s.client.store.pool) == map[] <==> LiveView(s.client.store.pool).Keys == {};
  }

  lemma ReceivedPages(c: P.Config, s: System, m: nat)
    requires Ok(c, s) && m < |s.client.received|
    ensures Uniform(c, s.client.received[m])
    ensures View(c, s).client.received[m] == PageId(s.client.received[m])
  {
    assert s.client.received[m] in s.client.received;
  }

  /** Every page that reaches the client is PAGE_SIZE copies of one id, an id it asked for. */
  lemma PagesAreGenuine(c: P.Config, s: System, m: nat) returns (k: nat)
    requires c.pageSize >= 1 && Arises(c, s) && m < |s.client.received|
    ensures k < c.n && s.client.received[m] == seq(c.pageSize, _ => c.Id(k))
  {
    ArisesOk(c, s);
    ReceivedPages(c, s, m);
    k := PipelineSafety.ReceivedWasRequested(c, View(c, s), m);
  }

  /** And no two of them answer the same request. */
  lemma PagesAreDistinct(c: P.Config, s: System, l: nat, m: nat)
    requires c.pageSize >= 1 && c.n <= P.TWO_TO_THE_32 && Arises(c, s)
    requires l < m < |s.client.received|
    ensures s.client.received[l] != s.client.received[m]
  {
    ArisesOk(c, s);
    ReceivedPages(c, s, l);
    ReceivedPages(c, s, m);
    PipelineSafety.ReceivedDistinct(c, View(c, s), l, m);
  }
}
