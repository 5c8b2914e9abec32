/** send_receive_data of simple_iou_client.cpp: the client thread's loops, over the buffer-level machine. */
module IouClients {
  import opened Arithmetic
  import opened BufferPools
  import opened Protocol
  import PipelineSafety
  import opened Buffers
  import opened BufferSafety

  /** Nothing anyone else does touches the thread's counters, its unsubmitted entries or its pool. */
  lemma OthersLeaveTheThread(c: Config, s: System, move: Move)
    requires Ready(c, s, move) && Safe(c, s, move) && !move.ClientMove?
    ensures var k, after := s.client, AfterMove(c, s, move).client;
            after == k.(sends := after.sends, recvs := after.recvs, cq := after.cq,
                        store := Store(k.store.pool, after.store.memory))
  {
  }

  lemma EntryIsLeft(c: Config, s: System)
    requires c.pageSize >= 1 && Arises(c, s)
    requires var view := ClientView(c, s.client);
             (view.phase == Sending && SendGuard(c, view)) || (view.phase == Receiving && RecvGuard(c, view))
    ensures |s.client.queuedSends| + |s.client.queuedRecvs| < c.ring
  {
    ArisesOk(c, s);
    PipelineSafety.EntryLeft(c, View(c, s));
  }

  lemma NothingQueuedAtTop(c: Config, s: System)
    requires c.pageSize >= 1 && Arises(c, s) && s.client.phase == Top
    ensures s.client.queuedSends == [] && s.client.queuedRecvs == []
  {
    ArisesOk(c, s);
    PipelineSafety.ReachableInv(c, View(c, s));
    assert |View(c, s).client.queuedSends| == |s.client.queuedSends|;
  }

  /** What the counters say when the thread has left its loop. */
  lemma AtExit(c: Config, s: System)
    requires c.pageSize >= 1 && Arises(c, s) && s.client.phase == Exited
    ensures s.client.sendIndex == s.client.recvIndex == c.n
    ensures 0 <= c.n - s.client.iterations <= c.ring / 2
    ensures s.client.totalReceived == s.client.iterations * c.PageBytes()
    ensures |s.client.received| == s.client.iterations
  {
    ArisesOk(c, s);
    PipelineSafety.Windows(c, View(c, s));
    PipelineSafety.ExitShortfall(c, View(c, s));
    PipelineSafety.ReachableInv(c, View(c, s));
  }

  /** The thread from its first statement on: it builds its pool, and with that the machine's start, then loops. */
  method RunThread(c: Config, server: Store, garbage: Garbage, schedule: seq<seq<Move>>)
    returns (thread: IouClient, exited: bool)
    requires c.pageSize >= 1
    requires BuiltFrom(server.pool, [PageSize(c), SmallSize()], INITIAL_POOL_SIZE) && Backs(server.memory, server.pool)
    ensures fresh(thread) && thread.c == c && thread.Coupled(if exited then Exited else Top)
    ensures exited ==> thread.sendIndex == thread.recvIndex == c.n && c.n - thread.iterationsReceived <= c.ring / 2
  {
    var pool := new BufferPool([PageSize(c), SmallSize()], INITIAL_POOL_SIZE);
    var client := Unwritten(pool.View(), garbage);
    BuiltPoolsStart(c, client, server, INITIAL_POOL_SIZE);
    thread := new IouClient(c, pool, System(FreshClient(client), [], [], FreshServer(server)), schedule);
    exited := thread.SendReceiveData();
  }

  class IouClient {
    const c: Config
    const pool: BufferPool
    var sendIndex: nat
    var recvIndex: nat
    var iterationsReceived: nat
    var totalReceived: nat
    /** Memory, rings, socket and server; what others do to it between this thread's actions is `schedule`. */
    var world: System
    var schedule: seq<seq<Move>>

    /** The thread's variables are the machine's, and the machine is in a state it can be in. */
    ghost predicate Coupled(phase: Phase)
      reads this, pool, pool.heap
    {
      && c.pageSize >= 1
      && Arises(c, world)
      && world.client.phase == phase
      && world.client.sendIndex == sendIndex && world.client.recvIndex == recvIndex
      && world.client.iterations == iterationsReceived && world.client.totalReceived == totalReceived
      && world.client.store.pool == pool.View()
    }

    constructor (c: Config, pool: BufferPool, world: System, schedule: seq<seq<Move>>)
      requires c.pageSize >= 1 && Starts(c, world) && world.client.store.pool == pool.View()
      ensures this.c == c && this.pool == pool && this.schedule == schedule && Coupled(Top)
    {
      this.c, this.pool, this.world, this.schedule := c, pool, world, schedule;
      sendIndex, recvIndex, iterationsReceived, totalReceived := 0, 0, 0, 0;
      StartArises(c, world);
    }

    method Happens(move: Move, ghost phase: Phase)
      requires Coupled(phase)
      modifies `world
      ensures Coupled(phase)
      ensures world.client.queuedSends == old(world).client.queuedSends
      ensures world.client.queuedRecvs == old(world).client.queuedRecvs
      ensures world.client.count == old(world).client.count
      ensures world == old(world) || Made(c, old(world), move, world)
    {
      if !move.ClientMove? && Ready(c, world, move) {
        MoveArises(c, world, move);
        OthersLeaveTheThread(c, world, move);
        world := AfterMove(c, world, move);
      }
    }

    /** The next batch of what the kernel and the server do; moves that are not possible are skipped. */
    method Interfere(ghost phase: Phase)
      requires Coupled(phase)
      modifies `world, `schedule
      ensures Coupled(phase)
      ensures schedule == if old(schedule) == [] then [] else old(schedule)[1..]
      ensures old(schedule) == [] ==> world == old(world)
      ensures world.client.queuedSends == old(world).client.queuedSends
      ensures world.client.queuedRecvs == old(world).client.queuedRecvs
      ensures world.client.count == old(world).client.count
    {
      if schedule == [] { return; }
      for i := 0 to |schedule[0]|
        invariant Coupled(phase) && schedule == old(schedule)
        invariant world.client.queuedSends == old(world).client.queuedSends
        invariant world.client.queuedRecvs == old(world).client.queuedRecvs
        invariant world.client.count == old(world).client.count
      {
        Happens(schedule[0][i], phase);
      }
      schedule := schedule[1..];
    }

    /** Memory from the pool; a block new from malloc comes with arbitrary contents. */
    method GetBlock(size: nat) returns (p: Ptr, ghost garbage: Record)
      requires world.client.store.pool == pool.View()
      modifies `world, pool, pool.heap
      ensures MayAllocate(old(world).client.store.pool, size, p) && p == old(world).client.store.Got(size, p)
      ensures |garbage.buffer| == Slots(size)
      ensures world == old(world).(client := old(world).client.(store := old(world).client.store.AfterGet(size, p, garbage)))
      ensures world.client.store.pool == pool.View()
    {
      var reused := Reuses(pool.View(), size);
      p := pool.Allocate(size);
      assert |Record(SendEvent, seq(Slots(size), _ => 0)).buffer| == Slots(size);
      var contents: Record :| |contents.buffer| == Slots(size);
      garbage := contents;
      var memory := world.client.store.memory;
      if !reused { memory := memory[p := contents]; }
      world := world.(client := world.client.(store := Store(pool.View(), memory)));
    }

    /** The thread gets to the next part of its loop body. */
    method Goto(ghost phase: Phase, next: Phase)
      requires Coupled(phase) && (phase == Top || phase == Sending)
      requires ClientTurn(c, ClientView(c, world.client)) == ClientView(c, world.client).(phase := next)
      modifies `world
      ensures Coupled(next)
      ensures world == old(world).(client := old(world).client.(phase := next))
    {
      var idle := WithoutMalloc();
      MoveArises(c, world, idle);
      world := world.(client := world.client.(phase := next));
      assert world == AfterMove(c, old(world), idle);
    }

    /** The first inner loop: one request per turn while the send window is open. */
    method FillSends()
      requires Coupled(Sending)
      modifies this, pool, pool.heap
      ensures Coupled(Receiving) && sendIndex >= old(sendIndex)
      ensures recvIndex == old(recvIndex) && |schedule| <= |old(schedule)|
      ensures |world.client.queuedSends| == |old(world).client.queuedSends| + (sendIndex - old(sendIndex))
      ensures world.client.queuedRecvs == old(world).client.queuedRecvs
      ensures sendIndex == c.n || sendIndex - recvIndex >= c.ring / 4
    {
      while sendIndex < c.n && sendIndex - recvIndex < c.ring / 4
        invariant Coupled(Sending) && sendIndex >= old(sendIndex)
        invariant recvIndex == old(recvIndex) && |schedule| <= |old(schedule)|
        invariant |world.client.queuedSends| == |old(world).client.queuedSends| + (sendIndex - old(sendIndex))
        invariant world.client.queuedRecvs == old(world).client.queuedRecvs
        decreases c.n - sendIndex
      {
        Interfere(Sending);
        var _, _ := QueueSend();
      }
      IndexOrder(c, world);
      Goto(Sending, Receiving);
    }

    /** A small record with the next id, queued for sending. */
    method QueueSend() returns (p: Ptr, ghost garbage: Record)
      requires Coupled(Sending) && SendGuard(c, ClientView(c, world.client))
      modifies `world, `sendIndex, pool, pool.heap
      ensures Coupled(Sending) && Made(c, old(world), ClientMove(p, garbage), world)
      ensures sendIndex == old(sendIndex) + 1
      ensures |world.client.queuedSends| == |old(world).client.queuedSends| + 1
      ensures world.client.queuedRecvs == old(world).client.queuedRecvs
    {
      ghost var before := world;
      p, garbage := GetBlock(SmallSize());
      ghost var move := ClientMove(p, garbage);
      MoveArises(c, before, move);
      EntryIsLeft(c, before);
      var store := world.client.store;
      var buffer := store.memory[p].buffer[0 := Int32(c.start + sendIndex)];
      store := store.Write(p, Record(SendEvent, buffer));
      PushSend(p, store);
      sendIndex := sendIndex + 1;
      assert world == AfterMove(c, before, move);
    }

    /** io_uring_get_sqe, unchecked: there must be an entry left. */
    method PushSend(p: Ptr, store: Store)
      requires |world.client.queuedSends| + |world.client.queuedRecvs| < c.ring
      modifies `world
      ensures world == old(world).(client := old(world).client.(
                         store := store, queuedSends := old(world).client.queuedSends + [p], sendIndex := old(world).client.sendIndex + 1))
    {
      world := world.(client := world.client.(
        store := store, queuedSends := world.client.queuedSends + [p], sendIndex := world.client.sendIndex + 1));
    }

    /** The second inner loop: one page receive per turn while the receive window is open. */
    method FillRecvs()
      requires Coupled(Receiving)
      modifies this, pool, pool.heap
      ensures Coupled(Receiving) && recvIndex >= old(recvIndex)
      ensures sendIndex == old(sendIndex) && |schedule| <= |old(schedule)|
      ensures |world.client.queuedRecvs| == |old(world).client.queuedRecvs| + (recvIndex - old(recvIndex))
      ensures world.client.queuedSends == old(world).client.queuedSends
      ensures recvIndex == sendIndex || recvIndex - iterationsReceived >= c.ring / 2
    {
      while recvIndex < sendIndex && recvIndex - iterationsReceived < c.ring / 2
        invariant Coupled(Receiving) && recvIndex >= old(recvIndex)
        invariant sendIndex == old(sendIndex) && |schedule| <= |old(schedule)|
        invariant |world.client.queuedRecvs| == |old(world).client.queuedRecvs| + (recvIndex - old(recvIndex))
        invariant world.client.queuedSends == old(world).client.queuedSends
        decreases sendIndex - recvIndex
      {
        Interfere(Receiving);
        var _, _ := QueueRecv();
      }
      IndexOrder(c, world);
    }

    /** A record for one page, queued for receiving. */
    method QueueRecv() returns (p: Ptr, ghost garbage: Record)
      requires Coupled(Receiving) && RecvGuard(c, ClientView(c, world.client))
      modifies `world, `recvIndex, pool, pool.heap
      ensures Coupled(Receiving) && Made(c, old(world), ClientMove(p, garbage), world)
      ensures recvIndex == old(recvIndex) + 1
      ensures |world.client.queuedRecvs| == |old(world).client.queuedRecvs| + 1
      ensures world.client.queuedSends == old(world).client.queuedSends
    {
      ghost var before := world;
      p, garbage := GetBlock(PageSize(c));
      ghost var move := ClientMove(p, garbage);
      MoveArises(c, before, move);
      EntryIsLeft(c, before);
      var store := world.client.store;
      store := store.Write(p, Record(RecvEvent, store.memory[p].buffer));
      PushRecv(p, store);
      recvIndex := recvIndex + 1;
      assert world == AfterMove(c, before, move);
    }

    method PushRecv(p: Ptr, store: Store)
      requires |world.client.queuedSends| + |world.client.queuedRecvs| < c.ring
      modifies `world
      ensures world == old(world).(client := old(world).client.(
                         store := store, queuedRecvs := old(world).client.queuedRecvs + [p], recvIndex := old(world).client.recvIndex + 1))
    {
      world := world.(client := world.client.(
        store := store, queuedRecvs := world.client.queuedRecvs + [p], recvIndex := world.client.recvIndex + 1));
    }

    /** io_uring_submit, called only when this turn queued something; otherwise there is nothing to submit. */
    method SubmitQueued(sendsQueued: nat, recvsQueued: nat)
      requires Coupled(Receiving) && !RecvGuard(c, ClientView(c, world.client))
      requires |world.client.queuedSends| == sendsQueued && |world.client.queuedRecvs| == recvsQueued
      modifies `world
      ensures Coupled(Reaping) && Made(c, old(world), WithoutMalloc(), world)
      ensures world == old(world).(client := SubmitAll(old(world).client))
    {
      ghost var move := WithoutMalloc();
      MoveArises(c, world, move);
      var k := world.client;
      if sendsQueued != 0 || recvsQueued != 0 {
        k := k.(sends := k.sends + k.queuedSends, recvs := k.recvs + k.queuedRecvs, queuedSends := [], queuedRecvs := []);
      } else {
        assert k.sends + [] == k.sends && k.recvs + [] == k.recvs;
      }
      world := world.(client := k.(phase := Reaping));
      assert world == AfterMove(c, old(world), move);
    }

    /** io_uring_for_each_cqe: everything completed since the submit or before, and what completes meanwhile. */
    method ReapAll() returns (count: nat)
      requires Coupled(Reaping) && world.client.count == 0
      modifies this, pool, pool.heap
      ensures Coupled(Reaping) && world.client.cq == [] && world.client.count == count
      ensures sendIndex == old(sendIndex) && recvIndex == old(recvIndex) && |schedule| <= |old(schedule)|
    {
      Interfere(Reaping);
      count := 0;
      while world.client.cq != []
        invariant Coupled(Reaping) && world.client.count == count
        invariant sendIndex == old(sendIndex) && recvIndex == old(recvIndex) && |schedule| <= |old(schedule)|
        decreases |schedule|, |world.client.cq|
      {
        ReapNext();
        count := count + 1;
        Interfere(Reaping);
      }
    }

    method ReapNext()
      requires Coupled(Reaping) && world.client.cq != []
      modifies `world, `iterationsReceived, `totalReceived, pool, pool.heap
      ensures Coupled(Reaping) && Made(c, old(world), WithoutMalloc(), world)
      ensures world.client.count == old(world).client.count + 1
      ensures world.client.cq == old(world).client.cq[1..]
    {
      ghost var before := world;
      ghost var move := WithoutMalloc();
      MoveArises(c, before, move);
      var cqe := world.client.cq[0];
      var k := world.client.(cq := world.client.cq[1..], count := world.client.count + 1);
      var event := k.store.Event(cqe.data);
      if event == RecvEvent {
        totalReceived := totalReceived + cqe.res;
        iterationsReceived := iterationsReceived + 1;
        k := k.(totalReceived := totalReceived, iterations := iterationsReceived,
                received := k.received + [k.store.memory[cqe.data].buffer]);
      }
      if event == SendEvent {
        pool.Deallocate(cqe.data, SmallSize());
        k := k.(sendsReaped := k.sendsReaped + 1);
      } else if event == RecvEvent {
        pool.Deallocate(cqe.data, PageSize(c));
      }
      world := world.(client := k.(store := Store(pool.View(), k.store.memory)));
      assert world == AfterMove(c, before, move);
    }

    /** io_uring_cq_advance, then the test that breaks out of the loop. */
    method Advance(count: nat) returns (done: bool)
      requires Coupled(Reaping) && world.client.cq == [] && world.client.count == count
      modifies `world
      ensures done <==> totalReceived >= c.n * c.PageBytes() && sendIndex >= c.n
      ensures Coupled(if done then Exited else Top) && Made(c, old(world), WithoutMalloc(), world)
    {
      ghost var move := WithoutMalloc();
      MoveArises(c, world, move);
      done := totalReceived >= c.n * c.PageBytes() && sendIndex >= c.n;
      world := world.(client := world.client.(count := world.client.count - count, phase := if done then Exited else Top));
      assert world == AfterMove(c, old(world), move);
    }

    /** One turn of the outer loop. */
    method Round() returns (exited: bool)
      requires Coupled(Top) && (sendIndex < c.n || recvIndex < c.n) && schedule != []
      modifies this, pool, pool.heap
      ensures Coupled(if exited then Exited else Top) && |schedule| < |old(schedule)|
    {
      Interfere(Top);
      Fill();
      var count := ReapAll();
      exited := Advance(count);
    }

    /** Both inner loops and the submit. */
    method Fill()
      requires Coupled(Top) && (sendIndex < c.n || recvIndex < c.n)
      modifies this, pool, pool.heap
      ensures Coupled(Reaping) && world.client.count == 0 && |schedule| <= |old(schedule)|
      ensures sendIndex == c.n || sendIndex - old(recvIndex) >= c.ring / 4
      ensures recvIndex == sendIndex || recvIndex - iterationsReceived >= c.ring / 2
    {
      NothingQueuedAtTop(c, world);
      Goto(Top, Sending);
      var sendsQueued, recvsQueued := FillBoth();
      CountAtReaping(c, world);
      SubmitQueued(sendsQueued, recvsQueued);
    }

    /** Both inner loops, and how much each queued. */
    method FillBoth() returns (sendsQueued: nat, recvsQueued: nat)
      requires Coupled(Sending) && world.client.queuedSends == [] && world.client.queuedRecvs == []
      modifies this, pool, pool.heap
      ensures Coupled(Receiving) && |schedule| <= |old(schedule)|
      ensures recvIndex == sendIndex || recvIndex - iterationsReceived >= c.ring / 2
      ensures |world.client.queuedSends| == sendsQueued && |world.client.queuedRecvs| == recvsQueued
      ensures sendIndex == old(sendIndex) + sendsQueued && recvIndex == old(recvIndex) + recvsQueued
      ensures sendIndex == c.n || sendIndex - old(recvIndex) >= c.ring / 4
    {
      var sendIndexPre, recvIndexPre := sendIndex, recvIndex;
      FillSends();
      Interfere(Receiving);
      FillRecvs();
      Interfere(Receiving);
      sendsQueued, recvsQueued := sendIndex - sendIndexPre, recvIndex - recvIndexPre;
    }

    /**
     The end of the thread, where the pool's destructor runs: it frees what is pooled, so what is left in the heap is
     a block for each send and each receive not reaped. The thread leaks nothing exactly when it has received every page.
     */
    method Leave()
      requires Coupled(Exited)
      modifies pool.heap
      ensures |pool.heap.blocks.Keys| == (c.n - world.client.sendsReaped) + (c.n - iterationsReceived)
      ensures pool.heap.blocks.Keys == {} <==> iterationsReceived == c.n
    {
      PoolAtExit(c, world);
      BlocksOutAtExit(c, world);
      pool.Destroy();
    }

    /**
     The outer loop, until it is left or the schedule is used up. Every state it passes through is one of the machine's;
     when it is left, all requests are sent, all receives are posted, and at most h pages are still missing.
     */
    method SendReceiveData() returns (exited: bool)
      requires Coupled(Top)
      modifies this, pool, pool.heap
      ensures Coupled(if exited then Exited else Top)
      ensures exited ==> sendIndex == recvIndex == c.n && 0 <= c.n - iterationsReceived <= c.ring / 2
      ensures totalReceived == iterationsReceived * c.PageBytes() <= c.n * c.PageBytes()
      ensures exited || schedule == []
    {
      exited := false;
      while !exited && (sendIndex < c.n || recvIndex < c.n) && schedule != []
        invariant Coupled(if exited then Exited else Top)
        decreases |schedule|
      {
        exited := Round();
      }
      if !exited && !(sendIndex < c.n || recvIndex < c.n) {
        NothingQueuedAtTop(c, world);
        Goto(Top, Exited);
        exited := true;
      }
      SoFar(c, world);
      if exited { AtExit(c, world); }
    }
  }

  /** A turn that asks malloc for nothing. */
  function WithoutMalloc(): Move { ClientMove(0, Record(SendEvent, [])) }

  lemma IndexOrder(c: Config, s: System)
    requires c.pageSize >= 1 && Arises(c, s)
    ensures s.client.recvIndex <= s.client.sendIndex <= c.n
  {
    ArisesOk(c, s);
    PipelineSafety.Windows(c, View(c, s));
  }

  lemma PoolAtExit(c: Config, s: System)
    requires c.pageSize >= 1 && Arises(c, s)
    ensures Valid(s.client.store.pool)
  {
    ArisesOk(c, s);
  }

  lemma CountAtReaping(c: Config, s: System)
    requires c.pageSize >= 1 && Arises(c, s) && s.client.phase != Reaping
    ensures s.client.count == 0
  {
    ArisesOk(c, s);
    PipelineSafety.ReachableInv(c, View(c, s));
  }

  lemma SoFar(c: Config, s: System)
    requires c.pageSize >= 1 && Arises(c, s)
    ensures s.client.totalReceived == s.client.iterations * c.PageBytes() <= c.n * c.PageBytes()
  {
    ArisesOk(c, s);
    PipelineSafety.ReachableInv(c, View(c, s));
    AtMost(s.client.iterations, c.n, c.PageBytes());
  }
}
