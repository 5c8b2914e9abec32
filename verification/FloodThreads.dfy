/** send_data of max_client.cpp and event_loop of max_server.cpp as the loops they are, over the machine of Flood. */
module FloodThreads {
  import opened Flood

  /** States some run of the flood leads to. */
  ghost predicate Arises(c: Config, counts: seq<nat>, s: State) {
    exists run :: Legal(c, Start(c, counts), run) && After(c, Start(c, counts), run) == s
  }

  lemma StartArises(c: Config, counts: seq<nat>)
    ensures Arises(c, counts, Start(c, counts))
  {
    assert Legal(c, Start(c, counts), []) && After(c, Start(c, counts), []) == Start(c, counts);
  }

  lemma StepArises(c: Config, counts: seq<nat>, s: State, step: Step)
    requires Arises(c, counts, s) && Enabled(c, s, step)
    ensures Arises(c, counts, Apply(c, s, step))
  {
    var run :| Legal(c, Start(c, counts), run) && After(c, Start(c, counts), run) == s;
    AppendStep(c, Start(c, counts), run, step);
  }

  lemma ArisesInv(c: Config, counts: seq<nat>, s: State)
    requires Arises(c, counts, s)
    ensures Inv(c, s, counts)
  {
    var run :| Legal(c, Start(c, counts), run) && After(c, Start(c, counts), run) == s;
    StartInv(c, counts);
    RunKeepsInv(c, Start(c, counts), counts, run);
  }

  /** What everyone else does leaves sender i its counters, its unsubmitted entries and what it has looked at. */
  lemma OthersLeaveTheSender(c: Config, s: State, i: nat, step: Step)
    requires Enabled(c, s, step) && i < |s.connections| && step != SenderStep(i)
    ensures |Apply(c, s, step).connections| == |s.connections|
    ensures var k, after := s.connections[i].sender, Apply(c, s, step).connections[i].sender;
            after == k.(inFlight := after.inFlight, cq := after.cq, pushed := after.pushed) && k.cq <= after.cq
  {
  }

  /** And receiver i whether it goes on, and the completion it is at. */
  lemma OthersLeaveTheReceiver(c: Config, s: State, i: nat, step: Step)
    requires Enabled(c, s, step) && i < |s.connections| && step != ReceiverStep(i)
    ensures |Apply(c, s, step).connections| == |s.connections|
    ensures var r, after := s.connections[i].receiver, Apply(c, s, step).connections[i].receiver;
            after == r.(posted := after.posted, cq := after.cq) && r.cq <= after.cq
  {
  }

  /** One thread of max_client, sender i of the flood; what others do between its actions is `schedule`. */
  class FloodClient {
    const c: Config
    const counts: seq<nat>
    const i: nat
    var requestsSent: nat
    var requestsCompleted: nat
    var world: State
    var schedule: seq<seq<Step>>

    ghost function Mine(): Sender
      requires i < |world.connections|
      reads this
    {
      world.connections[i].sender
    }

    /** The thread's variables are the machine's, and the machine is in a state it can be in. */
    ghost predicate Coupled(phase: Phase)
      reads this
    {
      && c.entries >= c.ring && i < |counts|
      && Arises(c, counts, world) && |world.connections| == |counts|
      && Mine().phase == phase && Mine().n == counts[i]
      && Mine().sent == requestsSent && Mine().completed == requestsCompleted
    }

    constructor (c: Config, counts: seq<nat>, i: nat, schedule: seq<seq<Step>>)
      requires c.entries >= c.ring && i < |counts|
      ensures this.c == c && this.counts == counts && this.i == i && this.schedule == schedule
      ensures Coupled(if counts[i] > 0 then Filling else Done)
    {
      this.c, this.counts, this.i, this.schedule := c, counts, i, schedule;
      requestsSent, requestsCompleted, world := 0, 0, Start(c, counts);
      StartArises(c, counts);
    }

    method Happens(step: Step, ghost phase: Phase)
      requires Coupled(phase)
      modifies `world
      ensures Coupled(phase)
      ensures Mine().queued == old(Mine().queued) && Mine().count == old(Mine().count) && old(Mine().cq) <= Mine().cq
    {
      if step != SenderStep(i) && Enabled(c, world, step) {
        StepArises(c, counts, world, step);
        OthersLeaveTheSender(c, world, i, step);
        world := Apply(c, world, step);
      }
    }

    /** The next batch of what the kernel, the server and the other threads do; steps that are not possible are skipped. */
    method Interfere(ghost phase: Phase)
      requires Coupled(phase)
      modifies `world, `schedule
      ensures Coupled(phase) && schedule == if old(schedule) == [] then [] else old(schedule)[1..]
      ensures Mine().queued == old(Mine().queued) && Mine().count == old(Mine().count) && old(Mine().cq) <= Mine().cq
      ensures old(schedule) == [] ==> world == old(world)
    {
      if schedule == [] { return; }
      for k := 0 to |schedule[0]|
        invariant Coupled(phase) && schedule == old(schedule)
        invariant Mine().queued == old(Mine().queued) && Mine().count == old(Mine().count) && old(Mine().cq) <= Mine().cq
      {
        Happens(schedule[0][k], phase);
      }
      schedule := schedule[1..];
    }

    /** What the thread itself did is one turn of the machine's sender. */
    ghost predicate IsMyTurn(before: State, after: State)
    {
      Enabled(c, before, SenderStep(i)) && after == Apply(c, before, SenderStep(i))
    }

    /** Replaces this thread's part of the world. */
    method Put(sender: Sender)
      requires i < |world.connections|
      modifies `world
      ensures world == old(world).(connections := old(world).connections[i := old(world).connections[i].(sender := sender)])
    {
      world := world.(connections := world.connections[i := world.connections[i].(sender := sender)]);
    }

    /** The inner loop; its null check on the submission entry never fires. */
    method Fill()
      requires Coupled(Filling)
      modifies this
      ensures Coupled(Filling) && |schedule| <= |old(schedule)|
      ensures requestsSent == counts[i] || requestsSent - requestsCompleted >= c.ring
    {
      while requestsSent < counts[i] && requestsSent - requestsCompleted < c.ring
        invariant Coupled(Filling) && |schedule| <= |old(schedule)|
        decreases counts[i] - requestsSent
      {
        Interfere(Filling);
        ArisesInv(c, counts, world);
        if world.connections[i].sender.queued == c.entries { break; }
        QueueSend();
      }
      ArisesInv(c, counts, world);
    }

    method QueueSend()
      requires Coupled(Filling) && FillGuard(c, Mine()) && Mine().queued < c.entries
      modifies `world, `requestsSent
      ensures Coupled(Filling) && IsMyTurn(old(world), world) && requestsSent == old(requestsSent) + 1
    {
      StepArises(c, counts, world, SenderStep(i));
      ghost var before := world;
      var sender := world.connections[i].sender;
      requestsSent := requestsSent + 1;
      Put(sender.(queued := sender.queued + 1, sent := requestsSent));
      assert world == Apply(c, before, SenderStep(i));
    }

    method Submit()
      requires Coupled(Filling) && !FillGuard(c, Mine())
      modifies `world
      ensures Coupled(Reaping) && IsMyTurn(old(world), world)
    {
      StepArises(c, counts, world, SenderStep(i));
      ghost var before := world;
      var sender := world.connections[i].sender;
      Put(sender.(phase := Reaping, inFlight := sender.inFlight + sender.queued, queued := 0));
      assert world == Apply(c, before, SenderStep(i));
    }

    /** io_uring_for_each_cqe: everything completed so far, and what completes meanwhile. */
    method ReapAll() returns (count: nat)
      requires Coupled(Reaping) && Mine().count == 0
      modifies this
      ensures Coupled(Reaping) && Mine().cq == [] && Mine().count == count && |schedule| <= |old(schedule)|
    {
      Interfere(Reaping);
      count := 0;
      while world.connections[i].sender.cq != []
        invariant Coupled(Reaping) && Mine().count == count && |schedule| <= |old(schedule)|
        decreases |schedule|, |world.connections[i].sender.cq|
      {
        ReapNext();
        count := count + 1;
        Interfere(Reaping);
      }
    }

    /** Failures are reported, only successes are counted. */
    method ReapNext()
      requires Coupled(Reaping) && Mine().cq != []
      modifies `world, `requestsCompleted
      ensures Coupled(Reaping) && IsMyTurn(old(world), world)
      ensures Mine().cq == old(Mine().cq)[1..] && Mine().count == old(Mine().count) + 1
      ensures requestsCompleted == old(requestsCompleted) + if old(Mine().cq)[0] < 0 then 0 else 1
    {
      StepArises(c, counts, world, SenderStep(i));
      ghost var before := world;
      var sender := world.connections[i].sender;
      var rest := sender.(cq := sender.cq[1..], count := sender.count + 1);
      if sender.cq[0] < 0 {
        rest := rest.(failed := rest.failed + 1);
      } else {
        requestsCompleted := requestsCompleted + 1;
        rest := rest.(completed := requestsCompleted);
      }
      Put(rest);
      assert world == Apply(c, before, SenderStep(i));
    }

    /** io_uring_cq_advance, then the test of the outer loop. */
    method Advance(count: nat)
      requires Coupled(Reaping) && Mine().cq == [] && Mine().count == count
      modifies `world
      ensures Coupled(if requestsCompleted < counts[i] then Filling else Done) && IsMyTurn(old(world), world)
    {
      StepArises(c, counts, world, SenderStep(i));
      ghost var before := world;
      var sender := world.connections[i].sender;
      Put(sender.(count := sender.count - count, phase := if requestsCompleted < counts[i] then Filling else Done));
      assert world == Apply(c, before, SenderStep(i));
    }

    /** One turn of the outer loop, with the others acting wherever they can. */
    method Round()
      requires Coupled(Filling) && schedule != []
      modifies this
      ensures Coupled(if requestsCompleted < counts[i] then Filling else Done) && |schedule| < |old(schedule)|
    {
      Interfere(Filling);
      Fill();
      Interfere(Filling);
      ArisesInv(c, counts, world);
      Submit();
      var count := ReapAll();
      Advance(count);
    }

    /** The thread until it is done or the schedule is used up. */
    method SendData() returns (done: bool)
      requires i < |counts| && Coupled(if counts[i] > 0 then Filling else Done) && requestsCompleted == 0
      modifies this
      ensures Coupled(if done then Done else Filling) && (done || schedule == [])
      ensures done ==> requestsCompleted == requestsSent == counts[i] && Mine().failed == Mine().queued == Mine().inFlight == 0
      ensures done ==> Mine().cq == []
    {
      while requestsCompleted < counts[i] && schedule != []
        invariant Coupled(if requestsCompleted < counts[i] then Filling else Done)
        decreases |schedule|
      {
        Round();
      }
      done := requestsCompleted >= counts[i];
      ArisesInv(c, counts, world);
    }
  }

  /** The std::atomic<uint64_t> all handlers add to. */
  class Counter {
    var value: nat

    constructor ()
      ensures value == 0
    {
      value := 0;
    }

    method Add(bytes: nat)
      modifies this
      ensures value == old(value) + bytes
    {
      value := value + bytes;
    }
  }

  /** One handler of max_server, receiver i of the flood; other handlers add to the same counter. */
  class FloodServer {
    const c: Config
    const counts: seq<nat>
    const i: nat
    const total: Counter
    /** Entries taken from the submission queue since the last submit. */
    var sqUsed: nat
    var world: State
    var schedule: seq<seq<Step>>

    ghost function Mine(): Receiver
      requires i < |world.connections|
      reads this
    {
      world.connections[i].receiver
    }

    /** The handler goes on or not as the machine's does, and the counter is the machine's. */
    ghost predicate Coupled(closed: bool)
      reads this, total
    {
      && c.entries >= c.ring && i < |counts|
      && Arises(c, counts, world) && |world.connections| == |counts|
      && Mine().closed == closed && total.value == world.total
    }

    /** The world may have gone on without this handler; its reads are not posted before its prologue posts them. */
    constructor (c: Config, counts: seq<nat>, i: nat, total: Counter, world: State, schedule: seq<seq<Step>>)
      requires c.entries >= c.ring && i < |counts| && Arises(c, counts, world) && |world.connections| == |counts|
      requires world.connections[i].receiver == NewReceiver(c) && total.value == world.total
      ensures this.c == c && this.counts == counts && this.i == i && this.total == total
      ensures this.world == world && this.schedule == schedule && Coupled(false) && sqUsed == 0
    {
      this.c, this.counts, this.i, this.total, this.world, this.schedule := c, counts, i, total, world, schedule;
      sqUsed := 0;
    }

    method Happens(step: Step)
      requires Coupled(false)
      modifies `world, total
      ensures Coupled(false) && old(Mine().cq) <= Mine().cq
      ensures old(total.value) <= total.value
    {
      if step != ReceiverStep(i) && Enabled(c, world, step) {
        StepArises(c, counts, world, step);
        OthersLeaveTheReceiver(c, world, i, step);
        if step.ReceiverStep? { total.Add(Bytes(world.connections[step.i].receiver.cq[0])); }
        world := Apply(c, world, step);
      }
    }

    /** The next batch of what the kernel, the senders and the other handlers do. */
    method Interfere()
      requires Coupled(false)
      modifies `world, `schedule, total
      ensures Coupled(false) && schedule == if old(schedule) == [] then [] else old(schedule)[1..]
      ensures old(Mine().cq) <= Mine().cq && old(total.value) <= total.value
    {
      if schedule == [] { return; }
      for k := 0 to |schedule[0]|
        invariant Coupled(false) && schedule == old(schedule)
        invariant old(Mine().cq) <= Mine().cq && old(total.value) <= total.value
      {
        Happens(schedule[0][k]);
      }
      schedule := schedule[1..];
    }

    /** io_uring_get_sqe, unchecked: there must be an entry left. */
    method AddReadRequest()
      requires sqUsed < c.entries
      modifies `sqUsed
      ensures sqUsed == old(sqUsed) + 1
    {
      sqUsed := sqUsed + 1;
    }

    /** The prologue queues exactly the reads that the machine's receiver starts with, and submits them. */
    method Prologue()
      requires Coupled(false) && Mine() == NewReceiver(c) && sqUsed == 0
      modifies `sqUsed
      ensures Coupled(false) && sqUsed == 0
    {
      for k := 0 to c.ring
        invariant sqUsed == k
      {
        AddReadRequest();
      }
      SubmitReads();
    }

    method SubmitReads()
      requires i < |world.connections| && sqUsed == Mine().posted
      modifies `sqUsed
      ensures sqUsed == 0
    {
      sqUsed := 0;
    }

    /** The completion at the head: an empty or failed read ends the handler, any other is counted and its read posted again. */
    method Handle() returns (closed: bool)
      requires Coupled(false) && Mine().cq != [] && sqUsed == 0
      modifies `world, `sqUsed, total
      ensures Coupled(closed) && sqUsed == 0 && (closed <==> old(Mine().cq)[0] <= 0)
      ensures Enabled(c, old(world), ReceiverStep(i)) && world == Apply(c, old(world), ReceiverStep(i))
      ensures total.value == old(total.value) + Bytes(old(Mine().cq)[0])
    {
      StepArises(c, counts, world, ReceiverStep(i));
      ArisesInv(c, counts, world);
      ghost var before := world;
      var r := world.connections[i].receiver;
      var res := r.cq[0];
      closed := res <= 0;
      if closed {
        r := r.(closed := true, cq := r.cq[1..]);
        world := world.(connections := world.connections[i := world.connections[i].(receiver := r)]);
      } else {
        total.Add(res);
        AddReadRequest();
        r := r.(cq := r.cq[1..], counted := r.counted + res);
        r := r.(posted := r.posted + sqUsed);
        sqUsed := 0;
        world := world.(connections := world.connections[i := world.connections[i].(receiver := r)],
                        total := world.total + res);
      }
      assert world == Apply(c, before, ReceiverStep(i));
    }

    /**
     The handler until a read comes back empty or failed, or the schedule is used up. It passes only through states
     of the machine, with exactly RING_SIZE reads outstanding while it goes on, and no handler's addition is lost.
     */
    method EventLoop() returns (closed: bool)
      requires Coupled(false) && Mine() == NewReceiver(c) && sqUsed == 0
      modifies this, total
      ensures Coupled(closed) && (closed || schedule == []) && old(total.value) <= total.value
      ensures !closed ==> Mine().posted + |Mine().cq| == c.ring
      ensures world.connections[i].sender.pushed == world.connections[i].stream + Pending(Mine().cq) + Mine().counted
    {
      Prologue();
      closed := false;
      while !closed && schedule != []
        invariant Coupled(closed) && sqUsed == 0 && old(total.value) <= total.value
        decreases |schedule|
      {
        Interfere();
        if world.connections[i].receiver.cq != [] { closed := Handle(); }
      }
      ArisesInv(c, counts, world);
    }
  }
}
