/**
 The pipelined page protocol spoken by simple_iou_client and simple_iou_server,
 as a state machine over page ids: one client thread, its server handler, the
 two io_uring instances between them and the two directions of the socket.
 Buffers are left to module Buffers, which refines this machine.
 */
module Protocol {
  import opened Sequences

  const TWO_TO_THE_32: nat := 0x1_0000_0000
  const TWO_TO_THE_31: nat := 0x8000_0000

  /** What storing a size_t into an int32_t keeps. */
  function Int32(x: nat): int {
    var low := x % TWO_TO_THE_32;
    if low < TWO_TO_THE_31 then low else low - TWO_TO_THE_32
  }

  /** RING_SIZE, PAGE_SIZE, the thread's range [start, start + n), and how many whole items each direction holds. */
  datatype Config = Config(ring: nat, pageSize: nat, start: nat, n: nat, upCapacity: nat, downCapacity: nat) {
    function SendWindow(): nat { ring / 4 }
    function RecvWindow(): nat { ring / 2 }
    function PageBytes(): nat { pageSize * 4 }
    function Id(k: nat): int { Int32(start + k) }
    function Ids(count: nat): seq<int> { seq(count, k requires 0 <= k => Id(k)) }
  }

  /** Where the client thread is in the body of its outer loop. */
  datatype Phase = Top | Sending | Receiving | Reaping | Exited

  datatype ClientCqe = SendDone | RecvDone(id: int)
  datatype ServerCqe = ReadDone(id: int) | WriteDone

  /**
   One client thread: its counters, the operations queued but not submitted, those in
   flight, and the completions not yet looked at. `count` is the number of completions
   looked at whose slots are not yet given back; sendsReaped and received are histories.
   */
  datatype Client = Client(
    phase: Phase, sendIndex: nat, recvIndex: nat, iterations: nat, totalReceived: nat,
    queuedSends: seq<int>, queuedRecvs: nat, sends: seq<int>, recvs: nat,
    cq: seq<ClientCqe>, count: nat, sendsReaped: nat, received: seq<int>)

  /**
   One server handler: the reads its prologue has queued, and once started the operations in flight and the
   completions not yet looked at; `handled` tells that the one at the head is answered but not yet marked seen.
   */
  datatype Server = Server(started: bool, queuedReads: nat, openReads: nat, writes: seq<int>, cq: seq<ServerCqe>,
                           handled: bool)

  /** Both ends and the two directions of the socket. */
  datatype State = State(client: Client, up: seq<int>, down: seq<int>, server: Server)

  function Init(): State {
    State(Client(Top, 0, 0, 0, 0, [], 0, [], 0, [], 0, 0, []), [], [], Server(false, 0, 0, [], [], false))
  }

  // ---- The client thread ----

  predicate SendGuard(c: Config, k: Client) {
    k.sendIndex < c.n && k.sendIndex - k.recvIndex < c.SendWindow()
  }

  predicate RecvGuard(c: Config, k: Client) {
    k.recvIndex < k.sendIndex && k.recvIndex - k.iterations < c.RecvWindow()
  }

  predicate LoopGuard(c: Config, k: Client) {
    k.sendIndex < c.n || k.recvIndex < c.n
  }

  predicate BreakGuard(c: Config, k: Client) {
    k.totalReceived >= c.n * c.PageBytes() && k.sendIndex >= c.n
  }

  function Reap(c: Config, k: Client): Client
    requires k.cq != []
  {
    var rest := k.(cq := k.cq[1..], count := k.count + 1);
    match k.cq[0]
    case SendDone => rest.(sendsReaped := k.sendsReaped + 1)
    case RecvDone(id) =>
      rest.(iterations := k.iterations + 1, totalReceived := k.totalReceived + c.PageBytes(),
            received := k.received + [id])
  }

  function Submit(k: Client): Client {
    k.(phase := Reaping, sends := k.sends + k.queuedSends, recvs := k.recvs + k.queuedRecvs,
       queuedSends := [], queuedRecvs := 0)
  }

  /** One turn of the client thread; every phase change is a turn of its own. */
  function ClientTurn(c: Config, k: Client): Client
    requires k.phase != Exited
  {
    match k.phase
    case Top => k.(phase := if LoopGuard(c, k) then Sending else Exited)
    case Sending =>
      if SendGuard(c, k) then
        k.(queuedSends := k.queuedSends + [c.Id(k.sendIndex)], sendIndex := k.sendIndex + 1)
      else k.(phase := Receiving)
    case Receiving =>
      if RecvGuard(c, k) then k.(queuedRecvs := k.queuedRecvs + 1, recvIndex := k.recvIndex + 1)
      else Submit(k)
    case Reaping =>
      if k.cq != [] then Reap(c, k)
      else k.(count := 0, phase := if BreakGuard(c, k) then Exited else Top)
  }

  // ---- The server handler ----

  predicate ServerEnabled(v: Server) {
    !v.started || v.handled || v.cq != []
  }

  /** One turn of the server handler: a turn of its prologue, one completion, or io_uring_cqe_seen. */
  function ServerTurn(c: Config, v: Server): Server
    requires ServerEnabled(v)
  {
    if !v.started then
      if v.queuedReads < c.SendWindow() then v.(queuedReads := v.queuedReads + 1)
      else v.(started := true, openReads := v.queuedReads, queuedReads := 0)
    else if v.handled then v.(handled := false)
    else
      var rest := v.(cq := v.cq[1..], handled := true);
      match v.cq[0]
      case ReadDone(id) => rest.(writes := v.writes + [id], openReads := v.openReads + 1)
      case WriteDone => rest
  }

  // ---- The whole system ----

  datatype Step = ClientStep | ServerStep | KernelSend(i: nat) | KernelRecv | KernelRead | KernelWrite(i: nat)

  predicate Enabled(c: Config, s: State, step: Step) {
    match step
    case ClientStep => s.client.phase != Exited
    case ServerStep => ServerEnabled(s.server)
    case KernelSend(i) => i < |s.client.sends| && |s.up| < c.upCapacity
    case KernelRecv => s.client.recvs > 0 && s.down != []
    case KernelRead => s.server.openReads > 0 && s.up != []
    case KernelWrite(i) => i < |s.server.writes| && |s.down| < c.downCapacity
  }

  /** In-flight operations complete in any order; each moves one whole item and posts its completion. */
  function Apply(c: Config, s: State, step: Step): State
    requires Enabled(c, s, step)
  {
    var k, v := s.client, s.server;
    match step
    case ClientStep => s.(client := ClientTurn(c, k))
    case ServerStep => s.(server := ServerTurn(c, v))
    case KernelSend(i) =>
      s.(client := k.(sends := Without(k.sends, i), cq := k.cq + [SendDone]), up := s.up + [k.sends[i]])
    case KernelRecv =>
      s.(client := k.(recvs := k.recvs - 1, cq := k.cq + [RecvDone(s.down[0])]), down := s.down[1..])
    case KernelRead =>
      s.(server := v.(openReads := v.openReads - 1, cq := v.cq + [ReadDone(s.up[0])]), up := s.up[1..])
    case KernelWrite(i) =>
      s.(server := v.(writes := Without(v.writes, i), cq := v.cq + [WriteDone]), down := s.down + [v.writes[i]])
  }

  /** Every step of a run is enabled where it is taken. */
  ghost predicate Legal(c: Config, s: State, run: seq<Step>)
    decreases |run|
  {
    run == [] || (Enabled(c, s, run[0]) && Legal(c, Apply(c, s, run[0]), run[1..]))
  }

  ghost function After(c: Config, s: State, run: seq<Step>): State
    requires Legal(c, s, run)
    decreases |run|
  {
    if run == [] then s else After(c, Apply(c, s, run[0]), run[1..])
  }

  ghost predicate Reachable(c: Config, s: State) {
    exists run :: Legal(c, Init(), run) && After(c, Init(), run) == s
  }

  lemma {:induction false} AppendStep(c: Config, s: State, run: seq<Step>, step: Step)
    requires Legal(c, s, run) && Enabled(c, After(c, s, run), step)
    ensures Legal(c, s, run + [step])
    ensures After(c, s, run + [step]) == Apply(c, After(c, s, run), step)
    decreases |run|
  {
    if run == [] {
      assert (run + [step])[1..] == [];
    } else {
      assert (run + [step])[1..] == run[1..] + [step];
      AppendStep(c, Apply(c, s, run[0]), run[1..], step);
    }
  }

  lemma InitReachable(c: Config)
    ensures Reachable(c, Init())
  {
    assert Legal(c, Init(), []) && After(c, Init(), []) == Init();
  }

  lemma StepReachable(c: Config, s: State, step: Step)
    requires Reachable(c, s) && Enabled(c, s, step)
    ensures Reachable(c, Apply(c, s, step))
  {
    var run :| Legal(c, Init(), run) && After(c, Init(), run) == s;
    AppendStep(c, Init(), run, step);
  }

  // ---- What a completion queue holds ----

  function Recvs(cq: seq<ClientCqe>): (ids: seq<int>)
    ensures |ids| <= |cq|
  {
    if cq == [] then []
    else if cq[0].RecvDone? then [cq[0].id] + Recvs(cq[1..])
    else Recvs(cq[1..])
  }

  function Reads(cq: seq<ServerCqe>): (ids: seq<int>)
    ensures |ids| <= |cq|
  {
    if cq == [] then []
    else if cq[0].ReadDone? then [cq[0].id] + Reads(cq[1..])
    else Reads(cq[1..])
  }

  function SendsIn(cq: seq<ClientCqe>): nat { |cq| - |Recvs(cq)| }
  function WritesIn(cq: seq<ServerCqe>): nat { |cq| - |Reads(cq)| }

  lemma {:induction false} RecvsAppend(cq: seq<ClientCqe>, e: ClientCqe)
    ensures Recvs(cq + [e]) == Recvs(cq) + if e.RecvDone? then [e.id] else []
  {
    if cq == [] {
      assert cq + [e] == [e];
    } else {
      assert (cq + [e])[1..] == cq[1..] + [e];
      RecvsAppend(cq[1..], e);
    }
  }

  lemma {:induction false} ReadsAppend(cq: seq<ServerCqe>, e: ServerCqe)
    ensures Reads(cq + [e]) == Reads(cq) + if e.ReadDone? then [e.id] else []
  {
    if cq == [] {
      assert cq + [e] == [e];
    } else {
      assert (cq + [e])[1..] == cq[1..] + [e];
      ReadsAppend(cq[1..], e);
    }
  }

  /** Starting `ahead` sends in front, no prefix of the queue holds more receives than sends. */
  ghost predicate Ballot(ahead: int, cq: seq<ClientCqe>)
    decreases |cq|
  {
    ahead >= 0 && (cq == [] || Ballot(if cq[0].SendDone? then ahead + 1 else ahead - 1, cq[1..]))
  }

  lemma {:induction false} BallotAppend(ahead: int, cq: seq<ClientCqe>, e: ClientCqe)
    requires Ballot(ahead, cq)
    requires e.SendDone? || ahead + SendsIn(cq) > |Recvs(cq)|
    ensures Ballot(ahead, cq + [e])
    decreases |cq|
  {
    if cq == [] {
      assert (cq + [e])[1..] == [];
    } else {
      assert (cq + [e])[1..] == cq[1..] + [e];
      BallotAppend(if cq[0].SendDone? then ahead + 1 else ahead - 1, cq[1..], e);
    }
  }

  /**
   For each write completion still queued: the reads in front of it (`ahead` of
   them before cq) plus the writes after it, queued or among `flying`, are at most bound.
   */
  ghost predicate Lag(cq: seq<ServerCqe>, ahead: nat, flying: nat, bound: int) {
    cq == [] ||
    if cq[0].ReadDone? then Lag(cq[1..], ahead + 1, flying, bound)
    else ahead + WritesIn(cq[1..]) + flying <= bound && Lag(cq[1..], ahead, flying, bound)
  }

  /** Answering a read turns one read in front into one write in flight behind. */
  lemma {:induction false} LagShift(cq: seq<ServerCqe>, ahead: nat, flying: nat, bound: int)
    ensures Lag(cq, ahead + 1, flying, bound) <==> Lag(cq, ahead, flying + 1, bound)
  {
    if cq != [] {
      LagShift(cq[1..], if cq[0].ReadDone? then ahead + 1 else ahead, flying, bound);
    }
  }

  lemma {:induction false} LagAppendRead(cq: seq<ServerCqe>, ahead: nat, flying: nat, bound: int, id: int)
    requires Lag(cq, ahead, flying, bound)
    ensures Lag(cq + [ReadDone(id)], ahead, flying, bound)
  {
    if cq == [] {
      assert (cq + [ReadDone(id)])[1..] == [];
    } else {
      assert (cq + [ReadDone(id)])[1..] == cq[1..] + [ReadDone(id)];
      ReadsAppend(cq[1..], ReadDone(id));
      LagAppendRead(cq[1..], if cq[0].ReadDone? then ahead + 1 else ahead, flying, bound, id);
    }
  }

  lemma {:induction false} LagAppendWrite(cq: seq<ServerCqe>, ahead: nat, flying: nat, bound: int)
    requires flying > 0 && Lag(cq, ahead, flying, bound)
    requires ahead + |Reads(cq)| + flying - 1 <= bound
    ensures Lag(cq + [WriteDone], ahead, flying - 1, bound)
  {
    if cq == [] {
      assert (cq + [WriteDone])[1..] == [];
    } else {
      assert (cq + [WriteDone])[1..] == cq[1..] + [WriteDone];
      ReadsAppend(cq[1..], WriteDone);
      LagAppendWrite(cq[1..], if cq[0].ReadDone? then ahead + 1 else ahead, flying, bound);
    }
  }

  /** The oldest queued write completion bounds all of them. */
  lemma {:induction false} LagBounds(cq: seq<ServerCqe>, ahead: nat, flying: nat, bound: int)
    requires Lag(cq, ahead, flying, bound) && WritesIn(cq) > 0
    ensures WritesIn(cq) + flying <= bound + 1
  {
    if cq[0].ReadDone? {
      LagBounds(cq[1..], ahead + 1, flying, bound);
    }
  }

  // ---- The invariant ----

  /** The two windows, and the sums the client's counters stand for. */
  ghost predicate Counters(c: Config, k: Client) {
    && k.iterations <= k.recvIndex <= k.sendIndex <= c.n
    && k.sendIndex - k.recvIndex <= c.SendWindow()
    && k.recvIndex - k.iterations <= c.RecvWindow()
    && k.sendIndex == |k.queuedSends| + |k.sends| + SendsIn(k.cq) + k.sendsReaped
    && k.recvIndex == k.queuedRecvs + k.recvs + |Recvs(k.cq)| + k.iterations
    && |k.received| == k.iterations <= k.sendsReaped
  }

  ghost predicate Bytes(c: Config, k: Client) {
    k.totalReceived == k.iterations * c.PageBytes()
  }

  /** Client operations whose completion slot is not yet back with the kernel. */
  function Outstanding(k: Client): nat {
    |k.queuedSends| + k.queuedRecvs + |k.sends| + k.recvs + |k.cq| + k.count
  }

  /** What is queued in each phase; nothing is queued outside the two filling loops. */
  ghost predicate Queues(c: Config, k: Client) {
    && (k.phase != Reaping ==> k.count == 0)
    && (k.phase == Sending ==> k.queuedRecvs == 0 && |k.queuedSends| <= k.sendIndex - k.recvIndex)
    && (k.phase == Receiving ==> |k.queuedSends| <= c.SendWindow())
    && (k.phase in {Top, Reaping, Exited} ==> k.queuedSends == [] && k.queuedRecvs == 0)
    && (k.phase == Exited ==> k.recvIndex == c.n)
    && Outstanding(k) <= c.SendWindow() + 2 * c.RecvWindow()
  }

  ghost predicate ClientInv(c: Config, k: Client) {
    Counters(c, k) && Queues(c, k) && Ballot(k.sendsReaped - k.iterations, k.cq)
  }

  /** Server writes not yet reaped. */
  function ServerWrites(v: Server): nat { |v.writes| + WritesIn(v.cq) }

  /** The read pool is constant, and the writes not yet reaped lag behind the reads by a bounded amount. */
  ghost predicate ServerInv(c: Config, v: Server) {
    && (v.started ==> v.queuedReads == 0 && v.openReads + |Reads(v.cq)| == c.SendWindow())
    && (!v.started ==> v.queuedReads <= c.SendWindow() && v.openReads == 0 && v.writes == [] && v.cq == [] && !v.handled)
    && Lag(v.cq, 0, |v.writes|, c.SendWindow() + c.RecvWindow() - 1)
  }

  /** Every id handed out so far, oldest stage first: received, ..., queued for sending. */
  function Pipeline(s: State): seq<int> {
    s.client.received + Recvs(s.client.cq) + s.down + s.server.writes + Reads(s.server.cq)
    + s.up + s.client.sends + s.client.queuedSends
  }

  ghost predicate Tokens(c: Config, s: State) {
    multiset(Pipeline(s)) == multiset(c.Ids(s.client.sendIndex))
  }

  ghost predicate Inv(c: Config, s: State) {
    ClientInv(c, s.client) && Bytes(c, s.client) && ServerInv(c, s.server) && Tokens(c, s)
  }

  /** How many ids each stage holds adds up to the number of requests handed out. */
  ghost predicate TokenCount(s: State) {
    s.client.sendIndex == |s.client.received| + |Recvs(s.client.cq)| + |s.down| + |s.server.writes|
                          + |Reads(s.server.cq)| + |s.up| + |s.client.sends| + |s.client.queuedSends|
  }

  lemma TokensAreCounted(c: Config, s: State)
    requires Tokens(c, s)
    ensures TokenCount(s)
  {
    assert |multiset(Pipeline(s))| == |Pipeline(s)|;
    assert |multiset(c.Ids(s.client.sendIndex))| == |c.Ids(s.client.sendIndex)|;
  }

  lemma InitInv(c: Config)
    ensures Inv(c, Init())
  {
    assert c.Ids(0) == [];
    assert Pipeline(Init()) == [];
  }

  // ---- Tokens: what each step does to the pipeline ----

  lemma IdsAppend(c: Config, count: nat)
    ensures c.Ids(count + 1) == c.Ids(count) + [c.Id(count)]
  {
  }

  /** Moving any element to the back of the stage in front keeps the multiset; moving the first one keeps the order. */
  lemma MoveForward(front: seq<int>, into: seq<int>, from: seq<int>, back: seq<int>, i: nat)
    requires i < |from|
    ensures multiset(front + (into + [from[i]]) + Without(from, i) + back) == multiset(front + into + from + back)
    ensures i == 0 ==> front + (into + [from[i]]) + Without(from, i) + back == front + into + from + back
  {
    WithoutTakesOne(from, i);
  }

  lemma ClientPipeline(c: Config, s: State)
    requires s.client.phase != Exited
    ensures Pipeline(Apply(c, s, ClientStep)) ==
            Pipeline(s) + if s.client.phase == Sending && SendGuard(c, s.client) then [c.Id(s.client.sendIndex)] else []
  {
    var k := s.client;
    if k.phase == Reaping && k.cq != [] {
      assert Reap(c, k).received + Recvs(Reap(c, k).cq) == k.received + Recvs(k.cq);
    }
  }

  lemma ServerPipeline(c: Config, s: State)
    requires ServerEnabled(s.server)
    ensures Pipeline(Apply(c, s, ServerStep)) == Pipeline(s)
  {
    var v, w := s.server, ServerTurn(c, s.server);
    assert v.writes + Reads(v.cq) == w.writes + Reads(w.cq);
    var front := s.client.received + Recvs(s.client.cq) + s.down;
    assert front + v.writes + Reads(v.cq) == front + (v.writes + Reads(v.cq));
    assert front + w.writes + Reads(w.cq) == front + (w.writes + Reads(w.cq));
  }

  lemma KernelSendPipeline(c: Config, s: State, i: nat)
    requires Enabled(c, s, KernelSend(i))
    ensures multiset(Pipeline(Apply(c, s, KernelSend(i)))) == multiset(Pipeline(s))
    ensures i == 0 ==> Pipeline(Apply(c, s, KernelSend(i))) == Pipeline(s)
  {
    RecvsAppend(s.client.cq, SendDone);
    var front := s.client.received + Recvs(s.client.cq) + s.down + s.server.writes + Reads(s.server.cq);
    MoveForward(front, s.up, s.client.sends, s.client.queuedSends, i);
    var t := Apply(c, s, KernelSend(i));
    assert Pipeline(s) == front + s.up + s.client.sends + s.client.queuedSends;
    assert Pipeline(t) == front + t.up + t.client.sends + t.client.queuedSends;
  }

  lemma KernelWritePipeline(c: Config, s: State, i: nat)
    requires Enabled(c, s, KernelWrite(i))
    ensures multiset(Pipeline(Apply(c, s, KernelWrite(i)))) == multiset(Pipeline(s))
    ensures i == 0 ==> Pipeline(Apply(c, s, KernelWrite(i))) == Pipeline(s)
  {
    ReadsAppend(s.server.cq, WriteDone);
    WriteMovesOn(s, Apply(c, s, KernelWrite(i)), i);
  }

  lemma WriteMovesOn(s: State, t: State, i: nat)
    requires i < |s.server.writes| && Arrived(t) == Arrived(s) && Unanswered(t) == Unanswered(s)
    requires t.down == s.down + [s.server.writes[i]] && t.server.writes == Without(s.server.writes, i)
    ensures multiset(Pipeline(t)) == multiset(Pipeline(s))
    ensures i == 0 ==> Pipeline(t) == Pipeline(s)
  {
    MoveForward(Arrived(s), s.down, s.server.writes, Unanswered(s), i);
    AroundWrites(s);
    AroundWrites(t);
  }

  /** The stages past the downward channel, and those before the server's writes. */
  function Arrived(s: State): seq<int> { s.client.received + Recvs(s.client.cq) }

  function Unanswered(s: State): seq<int> { Reads(s.server.cq) + s.up + s.client.sends + s.client.queuedSends }

  lemma AroundWrites(s: State)
    ensures Pipeline(s) == Arrived(s) + s.down + s.server.writes + Unanswered(s)
  {
  }

  lemma KernelRecvPipeline(c: Config, s: State)
    requires Enabled(c, s, KernelRecv)
    ensures Pipeline(Apply(c, s, KernelRecv)) == Pipeline(s)
  {
    RecvsAppend(s.client.cq, RecvDone(s.down[0]));
    var t := Apply(c, s, KernelRecv);
    assert s.client.received + Recvs(s.client.cq) + s.down == t.client.received + Recvs(t.client.cq) + t.down;
  }

  lemma KernelReadPipeline(c: Config, s: State)
    requires Enabled(c, s, KernelRead)
    ensures Pipeline(Apply(c, s, KernelRead)) == Pipeline(s)
  {
    ReadsAppend(s.server.cq, ReadDone(s.up[0]));
    var t := Apply(c, s, KernelRead);
    var front := s.client.received + Recvs(s.client.cq) + s.down + s.server.writes;
    assert front + Reads(s.server.cq) + s.up == front + Reads(t.server.cq) + t.up;
  }

  /** Whether a step completes operations in the order they were submitted. */
  predicate InOrder(step: Step) {
    match step
    case KernelSend(i) => i == 0
    case KernelWrite(i) => i == 0
    case _ => true
  }

  /** The id a step hands out, if it does. */
  function Issued(c: Config, s: State, step: Step): seq<int> {
    if step == ClientStep && s.client.phase == Sending && SendGuard(c, s.client) then [c.Id(s.client.sendIndex)] else []
  }

  lemma StepPipeline(c: Config, s: State, step: Step)
    requires Enabled(c, s, step)
    ensures InOrder(step) ==> Pipeline(Apply(c, s, step)) == Pipeline(s) + Issued(c, s, step)
    ensures !InOrder(step) ==> multiset(Pipeline(Apply(c, s, step))) == multiset(Pipeline(s)) && Issued(c, s, step) == []
  {
    match step
    case ClientStep => ClientPipeline(c, s);
    case ServerStep => ServerPipeline(c, s);
    case KernelSend(i) => KernelSendPipeline(c, s, i);
    case KernelRecv => KernelRecvPipeline(c, s);
    case KernelRead => KernelReadPipeline(c, s);
    case KernelWrite(i) => KernelWritePipeline(c, s, i);
  }

  lemma StepIds(c: Config, s: State, step: Step)
    requires Enabled(c, s, step)
    ensures c.Ids(Apply(c, s, step).client.sendIndex) == c.Ids(s.client.sendIndex) + Issued(c, s, step)
  {
    if step == ClientStep { IdsAppend(c, s.client.sendIndex); }
  }

  lemma StepKeepsTokens(c: Config, s: State, step: Step)
    requires Tokens(c, s) && Enabled(c, s, step)
    ensures Tokens(c, Apply(c, s, step))
  {
    StepPipeline(c, s, step);
    StepIds(c, s, step);
  }

  // ---- Bytes and bounds ----

  lemma StepKeepsBytes(c: Config, s: State, step: Step)
    requires Bytes(c, s.client) && Enabled(c, s, step)
    ensures Bytes(c, Apply(c, s, step).client)
  {
    var j, i := Apply(c, s, step).client.iterations, s.client.iterations;
    assert j == i + 1 ==> j * c.PageBytes() == i * c.PageBytes() + c.PageBytes();
  }

  /** Enough bytes for every page means every page. */
  lemma BreakMeansAll(c: Config, k: Client)
    requires k.iterations <= k.sendIndex <= c.n && Bytes(c, k) && c.pageSize >= 1
    ensures BreakGuard(c, k) <==> k.iterations == c.n
  {
    var p := c.PageBytes();
    if k.iterations < c.n {
      assert c.n * p == (c.n - k.iterations) * p + k.iterations * p;
      assert (c.n - k.iterations) * p >= 1;
    }
  }

  lemma ClientFills(c: Config, k: Client)
    requires ClientInv(c, k) && k.phase in {Top, Sending, Receiving}
    ensures ClientInv(c, ClientTurn(c, k))
  {
  }

  lemma ClientReaps(c: Config, k: Client)
    requires ClientInv(c, k) && k.phase == Reaping
    requires BreakGuard(c, k) <==> k.iterations == c.n
    ensures ClientInv(c, ClientTurn(c, k))
  {
    assert k.cq != [] ==> Ballot(Reap(c, k).sendsReaped - Reap(c, k).iterations, Reap(c, k).cq);
  }

  lemma ServerKeeps(c: Config, v: Server)
    requires ServerInv(c, v) && ServerEnabled(v)
    ensures ServerInv(c, ServerTurn(c, v))
  {
    if v.started && !v.handled {
      LagShift(v.cq[1..], 0, |v.writes|, c.SendWindow() + c.RecvWindow() - 1);
    }
  }

  lemma KernelSendKeeps(c: Config, s: State, i: nat)
    requires ClientInv(c, s.client) && Enabled(c, s, KernelSend(i))
    ensures ClientInv(c, Apply(c, s, KernelSend(i)).client)
  {
    RecvsAppend(s.client.cq, SendDone);
    BallotAppend(s.client.sendsReaped - s.client.iterations, s.client.cq, SendDone);
  }

  lemma KernelRecvKeeps(c: Config, s: State)
    requires ClientInv(c, s.client) && TokenCount(s) && Enabled(c, s, KernelRecv)
    ensures ClientInv(c, Apply(c, s, KernelRecv).client)
  {
    RecvsAppend(s.client.cq, RecvDone(s.down[0]));
    BallotAppend(s.client.sendsReaped - s.client.iterations, s.client.cq, RecvDone(s.down[0]));
  }

  lemma KernelReadKeeps(c: Config, s: State)
    requires ServerInv(c, s.server) && Enabled(c, s, KernelRead)
    ensures ServerInv(c, Apply(c, s, KernelRead).server)
  {
    ReadsAppend(s.server.cq, ReadDone(s.up[0]));
    LagAppendRead(s.server.cq, 0, |s.server.writes|, c.SendWindow() + c.RecvWindow() - 1, s.up[0]);
  }

  lemma KernelWriteKeeps(c: Config, s: State, i: nat)
    requires Counters(c, s.client) && ServerInv(c, s.server) && TokenCount(s) && Enabled(c, s, KernelWrite(i))
    ensures ServerInv(c, Apply(c, s, KernelWrite(i)).server)
  {
    ReadsAppend(s.server.cq, WriteDone);
    LagAppendWrite(s.server.cq, 0, |s.server.writes|, c.SendWindow() + c.RecvWindow() - 1);
  }

  lemma StepKeepsBounds(c: Config, s: State, step: Step)
    requires ClientInv(c, s.client) && ServerInv(c, s.server) && TokenCount(s) && Enabled(c, s, step)
    requires BreakGuard(c, s.client) <==> s.client.iterations == c.n
    ensures ClientInv(c, Apply(c, s, step).client) && ServerInv(c, Apply(c, s, step).server)
  {
    match step
    case ClientStep => if s.client.phase == Reaping { ClientReaps(c, s.client); } else { ClientFills(c, s.client); }
    case ServerStep => ServerKeeps(c, s.server);
    case KernelSend(i) => KernelSendKeeps(c, s, i);
    case KernelRecv => KernelRecvKeeps(c, s);
    case KernelRead => KernelReadKeeps(c, s);
    case KernelWrite(i) => KernelWriteKeeps(c, s, i);
  }

  lemma StepKeepsInv(c: Config, s: State, step: Step)
    requires c.pageSize >= 1
    requires Inv(c, s) && Enabled(c, s, step)
    ensures Inv(c, Apply(c, s, step))
  {
    TokensAreCounted(c, s);
    StepKeepsTokens(c, s, step);
    StepKeepsBytes(c, s, step);
    BreakMeansAll(c, s.client);
    StepKeepsBounds(c, s, step);
  }
}
