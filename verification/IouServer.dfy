/** event_loop of simple_iou_server.cpp: one client's handler, over the buffer-level machine. */
module IouServers {
  import opened BufferPools
  import opened Protocol
  import PipelineSafety
  import opened Buffers
  import opened BufferSafety

  /** Nothing anyone else does touches what the handler has queued, its pool, or which completion it is at. */
  lemma OthersLeaveTheHandler(c: Config, s: System, move: Move)
    requires Ready(c, s, move) && Safe(c, s, move) && !move.ServerMove?
    ensures var v, after := s.server, AfterMove(c, s, move).server;
            && after == v.(openReads := after.openReads, writes := after.writes, cq := after.cq,
                           store := Store(v.store.pool, after.store.memory))
            && v.cq <= after.cq
  {
  }

  lemma HeadCompletion(c: Config, v: ServerSide)
    requires ServerTyped(c, v) && v.cq != []
    ensures v.cq[0].res > 0 && v.store.Event(v.cq[0].data) in {ReadEvent, WriteEvent}
  {
    assert v.cq[0] in v.cq;
  }

  lemma RoomToAnswer(c: Config, s: System)
    requires c.pageSize >= 1 && Reachable(c, View(c, s)) && s.server.cq != []
    ensures s.server.started && 2 <= c.ring
  {
    PipelineSafety.ReachableInv(c, View(c, s));
    assert |View(c, s).server.cq| == |s.server.cq|;
    PipelineSafety.ServerSubmissionFits(c, View(c, s));
  }

  /** A completion the handler finds is a read that brought data or a finished write, and two entries are free for the answer. */
  lemma AtCompletion(c: Config, s: System)
    requires c.pageSize >= 1 && Arises(c, s) && s.server.cq != []
    ensures s.server.started && s.server.cq[0].res > 0
    ensures s.server.store.Event(s.server.cq[0].data) in {ReadEvent, WriteEvent}
    ensures 2 <= c.ring
  {
    ArisesOk(c, s);
    HeadCompletion(c, s.server);
    RoomToAnswer(c, s);
  }

  /** The handler from its first statement on: it builds its pool, and with that the machine's start, then loops. */
  method RunHandler(c: Config, client: Store, garbage: Garbage, schedule: seq<seq<Move>>)
    returns (handler: IouServer, clientClosed: bool)
    requires c.pageSize >= 1
    requires BuiltFrom(client.pool, [PageSize(c), SmallSize()], INITIAL_POOL_SIZE) && Backs(client.memory, client.pool)
    ensures fresh(handler) && handler.c == c && handler.Coupled(true, false) && !clientClosed
    ensures handler.schedule == []
  {
    var pool := new BufferPool([PageSize(c), SmallSize()], INITIAL_POOL_SIZE);
    var server := Unwritten(pool.View(), garbage);
    BuiltPoolsStart(c, client, server, INITIAL_POOL_SIZE);
    handler := new IouServer(c, pool, System(FreshClient(client), [], [], FreshServer(server)), schedule);
    clientClosed := handler.EventLoop();
  }

  class IouServer {
    const c: Config
    const pool: BufferPool
    var readReqNum: nat
    var writeReqNum: nat
    /** Entries taken from the submission queue since the last submit. */
    var sqUsed: nat
    var world: System
    var schedule: seq<seq<Move>>

    /** The handler's variables are the machine's, and the machine is in a state it can be in. */
    ghost predicate Coupled(started: bool, handled: bool)
      reads this, pool, pool.heap
    {
      && c.pageSize >= 1
      && Arises(c, world)
      && world.server.started == started && world.server.handled == handled
      && world.server.store.pool == pool.View()
      && writeReqNum == Answered(c, world)
      && readReqNum == (if started then writeReqNum + c.ring / 4 else |world.server.queuedReads|)
      && (!started ==> writeReqNum == 0)
    }

    constructor (c: Config, pool: BufferPool, world: System, schedule: seq<seq<Move>>)
      requires c.pageSize >= 1 && Starts(c, world) && world.server.store.pool == pool.View()
      ensures this.c == c && this.pool == pool && this.world == world && this.schedule == schedule
      ensures Coupled(false, false) && world.server.queuedReads == []
      ensures readReqNum == writeReqNum == sqUsed == 0
    {
      this.c, this.pool, this.world, this.schedule := c, pool, world, schedule;
      readReqNum, writeReqNum, sqUsed := 0, 0, 0;
      StartArises(c, world);
      assert View(c, world) == Init();
    }

    method Happens(move: Move, ghost started: bool, ghost handled: bool)
      requires Coupled(started, handled)
      modifies `world
      ensures Coupled(started, handled)
      ensures world.server.queuedReads == old(world).server.queuedReads && old(world).server.cq <= world.server.cq
      ensures world == old(world) || Made(c, old(world), move, world)
    {
      if !move.ServerMove? && Ready(c, world, move) {
        MoveArises(c, world, move);
        MoveAnswers(c, world, move);
        OthersLeaveTheHandler(c, world, move);
        world := AfterMove(c, world, move);
      }
    }

    /** The next batch of what the kernel and the client do; moves that are not possible are skipped. */
    method Interfere(ghost started: bool, ghost handled: bool)
      requires Coupled(started, handled)
      modifies `world, `schedule
      ensures Coupled(started, handled)
      ensures schedule == if old(schedule) == [] then [] else old(schedule)[1..]
      ensures world.server.queuedReads == old(world).server.queuedReads && old(world).server.cq <= world.server.cq
    {
      if schedule == [] { return; }
      for i := 0 to |schedule[0]|
        invariant Coupled(started, handled) && schedule == old(schedule)
        invariant world.server.queuedReads == old(world).server.queuedReads && old(world).server.cq <= world.server.cq
      {
        Happens(schedule[0][i], started, handled);
      }
      schedule := schedule[1..];
    }

    /** Memory from the pool; a block new from malloc comes with arbitrary contents. */
    method GetBlock() returns (p: Ptr, ghost garbage: Record)
      requires world.server.store.pool == pool.View()
      modifies `world, pool, pool.heap
      ensures MayAllocate(old(world).server.store.pool, PageSize(c), p) && p == old(world).server.store.Got(PageSize(c), p)
      ensures |garbage.buffer| == Slots(PageSize(c))
      ensures world == old(world).(server := old(world).server.(store := old(world).server.store.AfterGet(PageSize(c), p, garbage)))
      ensures world.server.store.pool == pool.View()
    {
      var reused := Reuses(pool.View(), PageSize(c));
      p := pool.Allocate(PageSize(c));
      assert |Record(ReadEvent, seq(Slots(PageSize(c)), _ => 0)).buffer| == Slots(PageSize(c));
      var contents: Record :| |contents.buffer| == Slots(PageSize(c));
      garbage := contents;
      var memory := world.server.store.memory;
      if !reused { memory := memory[p := contents]; }
      world := world.(server := world.server.(store := Store(pool.View(), memory)));
    }

    /** The record part of add_read_request and add_write_request: an unchecked entry, and the record's event type. */
    method PrepareRecord(p: Ptr, event: EventType)
      requires sqUsed < c.ring && p in world.server.store.memory
      modifies `world, `sqUsed
      ensures sqUsed == old(sqUsed) + 1
      ensures var store := old(world).server.store;
              world == old(world).(server := old(world).server.(
                         store := store.Write(p, Record(event, store.memory[p].buffer))))
    {
      sqUsed := sqUsed + 1;
      var store := world.server.store;
      world := world.(server := world.server.(store := store.Write(p, Record(event, store.memory[p].buffer))));
    }

    /** One read of the prologue. */
    method PostRead() returns (p: Ptr, ghost garbage: Record)
      requires Coupled(false, false) && |world.server.queuedReads| < c.ring / 4 && sqUsed == |world.server.queuedReads|
      modifies `world, `readReqNum, `sqUsed, pool, pool.heap
      ensures Coupled(false, false) && Made(c, old(world), ServerMove(p, garbage), world)
      ensures |world.server.queuedReads| == |old(world).server.queuedReads| + 1 && sqUsed == old(sqUsed) + 1
    {
      ghost var before := world;
      p, garbage := GetBlock();
      MoveArises(c, before, ServerMove(p, garbage));
      MoveAnswers(c, before, ServerMove(p, garbage));
      PrepareRecord(p, ReadEvent);
      world := world.(server := world.server.(queuedReads := world.server.queuedReads + [p]));
      readReqNum := readReqNum + 1;
      assert world == AfterMove(c, before, ServerMove(p, garbage));
    }

    /** The prologue: q reads, then one submit. */
    method Prologue()
      requires Coupled(false, false) && world.server.queuedReads == [] && sqUsed == 0
      modifies this, pool, pool.heap
      ensures Coupled(true, false) && sqUsed == 0 && |schedule| <= |old(schedule)|
    {
      for i := 0 to c.ring / 4
        invariant Coupled(false, false) && |world.server.queuedReads| == i == sqUsed
        invariant writeReqNum == old(writeReqNum) && |schedule| <= |old(schedule)|
      {
        Interfere(false, false);
        var _, _ := PostRead();
      }
      SubmitReads();
    }

    method SubmitReads()
      requires Coupled(false, false) && |world.server.queuedReads| == c.ring / 4
      modifies `world, `sqUsed
      ensures Coupled(true, false) && sqUsed == 0 && Made(c, old(world), WithoutMalloc(), world)
    {
      MoveArises(c, world, WithoutMalloc());
      MoveAnswers(c, world, WithoutMalloc());
      ghost var before := world;
      world := world.(server := world.server.(started := true, openReads := world.server.queuedReads, queuedReads := []));
      sqUsed := 0;
      assert world == AfterMove(c, before, WithoutMalloc());
    }

    /** READ_EVENT: a new record filled with the page number is queued for writing, the read record is queued again. */
    method AnswerRequest(cqe: Cqe) returns (response: Ptr, ghost garbage: Record)
      requires Coupled(true, false) && Answering(world.server) && cqe == world.server.cq[0] && sqUsed == 0 && 2 <= c.ring
      modifies `world, `readReqNum, `writeReqNum, `sqUsed, pool, pool.heap
      ensures Coupled(true, true) && sqUsed == 0
      ensures Made(c, old(world), ServerMove(response, garbage), world)
    {
      ghost var before := world;
      var pageNumber := world.server.store.Head(cqe.data);
      response, garbage := GetBlock();
      MoveArises(c, before, ServerMove(response, garbage));
      MoveAnswers(c, before, ServerMove(response, garbage));
      AnswerShape(c, before, response, garbage);
      FillAndQueue(response, pageNumber, cqe.data);
    }

    /** Filling the response, the write and the read that are queued, and the submit. */
    method FillAndQueue(response: Ptr, pageNumber: int, req: Ptr)
      requires world.server.store.Accessible(response, c.pageSize) && response != req && req in world.server.store.memory
      requires world.server.cq != [] && sqUsed == 0 && 2 <= c.ring
      modifies `world, `readReqNum, `writeReqNum, `sqUsed
      ensures readReqNum == old(readReqNum) + 1 && writeReqNum == old(writeReqNum) + 1 && sqUsed == 0
      ensures var v, store := old(world).server, old(world).server.store;
              var filled := seq(c.pageSize, _ => pageNumber) + store.memory[response].buffer[c.pageSize..];
              world == old(world).(server := v.(
                cq := v.cq[1..], handled := true, writes := v.writes + [response], openReads := v.openReads + [req],
                store := store.Write(response, Record(WriteEvent, filled))
                              .Write(req, Record(ReadEvent, store.memory[req].buffer))))
    {
      FillPage(response, pageNumber);
      PrepareRecord(response, WriteEvent);
      writeReqNum := writeReqNum + 1;
      PrepareRecord(req, ReadEvent);
      readReqNum := readReqNum + 1;
      var v := world.server;
      world := world.(server := v.(cq := v.cq[1..], handled := true, writes := v.writes + [response],
                                   openReads := v.openReads + [req]));
      sqUsed := 0;
    }

    /** response->buffer[i] = page_number, for every slot of a page. */
    method FillPage(response: Ptr, pageNumber: int)
      requires world.server.store.Accessible(response, c.pageSize)
      modifies `world
      ensures var store := old(world).server.store;
              world == old(world).(server := old(world).server.(store := store.Write(response,
                store.memory[response].(buffer := seq(c.pageSize, _ => pageNumber) + store.memory[response].buffer[c.pageSize..]))))
    {
      var record := world.server.store.memory[response];
      var buffer := record.buffer;
      for i := 0 to c.pageSize
        invariant buffer == seq(i, _ => pageNumber) + record.buffer[i..]
      {
        buffer := buffer[i := pageNumber];
      }
      world := world.(server := world.server.(store := world.server.store.Write(response, record.(buffer := buffer))));
    }

    /** WRITE_EVENT: the record goes back to the pool. */
    method RetireResponse(cqe: Cqe)
      requires Coupled(true, false) && Retiring(world.server) && cqe == world.server.cq[0]
      modifies `world, pool, pool.heap
      ensures Coupled(true, true) && Made(c, old(world), WithoutMalloc(), world)
    {
      ghost var before := world;
      MoveArises(c, before, WithoutMalloc());
      MoveAnswers(c, before, WithoutMalloc());
      pool.Deallocate(cqe.data, PageSize(c));
      var v := world.server;
      world := world.(server := v.(cq := v.cq[1..], handled := true, store := Store(pool.View(), v.store.memory)));
      assert world == AfterMove(c, before, WithoutMalloc());
    }

    /** io_uring_cqe_seen. */
    method Seen()
      requires Coupled(true, true)
      modifies `world
      ensures Coupled(true, false) && Made(c, old(world), WithoutMalloc(), world)
    {
      ghost var before := world;
      MoveArises(c, world, WithoutMalloc());
      MoveAnswers(c, world, WithoutMalloc());
      world := world.(server := world.server.(handled := false));
      assert world == AfterMove(c, before, WithoutMalloc());
    }

    /** The completion the handler finds, by its event type; true when the client has gone. */
    method Handle(cqe: Cqe) returns (clientClosed: bool, ghost move: Move)
      requires Coupled(true, false) && world.server.cq != [] && cqe == world.server.cq[0] && sqUsed == 0
      modifies `world, `readReqNum, `writeReqNum, `sqUsed, pool, pool.heap
      ensures !clientClosed && Coupled(true, true) && sqUsed == 0
      ensures move.ServerMove? && Made(c, old(world), move, world)
    {
      AtCompletion(c, world);
      clientClosed, move := false, WithoutMalloc();
      match world.server.store.Event(cqe.data) {
        case ReadEvent =>
          if cqe.res == 0 { return true, move; }
          var p, garbage := AnswerRequest(cqe);
          move := ServerMove(p, garbage);
        case WriteEvent =>
          RetireResponse(cqe);
      }
    }

    /** Wait, handle the completion found, mark it seen. */
    method Turn() returns (clientClosed: bool)
      requires Coupled(true, false) && sqUsed == 0 && schedule != []
      modifies this, pool, pool.heap
      ensures !clientClosed && Coupled(true, false) && sqUsed == 0 && |schedule| < |old(schedule)|
    {
      clientClosed := false;
      Interfere(true, false);
      if world.server.cq != [] {
        var closed, _ := Handle(world.server.cq[0]);
        if closed { return true; }
        Interfere(true, true);
        Seen();
      }
    }

    /**
     The handler until the schedule is used up. While the client is there no read comes back empty, so it never
     leaves; every state it passes through is one of the machine's, its write number counts the pages it has queued,
     wherever they are by now, and its read number runs q ahead.
     */
    method EventLoop() returns (clientClosed: bool)
      requires Coupled(false, false) && world.server.queuedReads == [] && sqUsed == 0
      modifies this, pool, pool.heap
      ensures !clientClosed && Coupled(true, false) && sqUsed == 0 && schedule == []
      ensures writeReqNum == Answered(c, world) && readReqNum == writeReqNum + c.ring / 4
    {
      Prologue();
      while schedule != []
        invariant Coupled(true, false) && sqUsed == 0
        decreases |schedule|
      {
        clientClosed := Turn();
        if clientClosed { return; }
      }
      clientClosed := false;
    }
  }

  /** A turn that asks malloc for nothing. */
  function WithoutMalloc(): Move { ServerMove(0, Record(ReadEvent, [])) }

  /** What the machine's answer comes to: fill and mark the response, then mark the read record, untouched since the kernel. */
  lemma AnswerShape(c: Config, s: System, spare: Ptr, garbage: Record)
    requires c.pageSize >= 1 && Arises(c, s) && Answering(s.server)
    requires Ready(c, s, ServerMove(spare, garbage)) && Safe(c, s, ServerMove(spare, garbage))
    ensures var v, store := s.server, s.server.store.AfterGet(PageSize(c), spare, garbage);
            var req, p := v.cq[0].data, v.store.Got(PageSize(c), spare);
            && req in v.store.memory && req != p && p in store.memory && req in store.memory
            && |store.memory[p].buffer| >= c.pageSize
            && var filled := seq(c.pageSize, _ => v.store.Head(req)) + store.memory[p].buffer[c.pageSize..];
               AfterMove(c, s, ServerMove(spare, garbage)) ==
               s.(server := v.(cq := v.cq[1..], handled := true, writes := v.writes + [p], openReads := v.openReads + [req],
                               store := store.Write(p, Record(WriteEvent, filled))
                                             .Write(req, Record(ReadEvent, store.memory[req].buffer))))
  {
    ReadRecordKept(c, s, spare, garbage);
  }

  /** Getting and filling the response leaves the read record as the kernel left it. */
  lemma ReadRecordKept(c: Config, s: System, spare: Ptr, garbage: Record)
    requires c.pageSize >= 1 && Arises(c, s) && Answering(s.server)
    requires MayAllocate(s.server.store.pool, PageSize(c), spare) && |garbage.buffer| == Slots(PageSize(c))
    ensures var req, p := s.server.cq[0].data, s.server.store.Got(PageSize(c), spare);
            && req in s.server.store.memory && req != p
            && req in s.server.store.AfterGet(PageSize(c), spare, garbage).memory
            && s.server.store.AfterGet(PageSize(c), spare, garbage).memory[req] == s.server.store.memory[req]
            && s.server.store.Event(req) == ReadEvent
  {
    ArisesOk(c, s);
    GetOwns(s.server.store, ServerOwned(s.server), PageSize(c), spare, garbage);
    RepostedOk(c, s.server);
  }
}
