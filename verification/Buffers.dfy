/**
 The page protocol down to its buffers. Operations are RequestData records at addresses handed out by each
 side's BufferPool; completions carry only an address, and what they mean is read back from memory.
 */
module Buffers {
  import opened Sequences
  import opened BufferPools
  import opened Protocol

  datatype EventType = ReadEvent | WriteEvent | SendEvent | RecvEvent

  /** What the code keeps in a RequestData: the event type and the int32 slots behind the header. */
  datatype Record = Record(event: EventType, buffer: seq<int>)

  /** A completion: user data and result. */
  datatype Cqe = Cqe(data: Ptr, res: nat)

  /** sizeof(RequestData). */
  const HEADER: nat := 40

  function SmallSize(): nat { HEADER + 4 }
  function PageSize(c: Config): nat { HEADER + c.PageBytes() }
  function SizeFor(c: Config, event: EventType): nat {
    if event == SendEvent then SmallSize() else PageSize(c)
  }
  function Slots(size: nat): nat { if size < HEADER then 0 else (size - HEADER) / 4 }

  /** One process's pool and the memory behind its blocks, pooled ones included. */
  datatype Store = Store(pool: Pool, memory: map<Ptr, Record>) {
    ghost predicate Sane() {
      && Valid(pool)
      && forall p :: p in pool.blocks ==> p in memory && |memory[p].buffer| == Slots(pool.blocks[p].size)
    }

    /** The address a request of that size gets, and the store after it; a new block comes with arbitrary contents. */
    function Got(size: nat, spare: Ptr): Ptr { Chosen(pool, size, spare) }

    function AfterGet(size: nat, spare: Ptr, garbage: Record): Store
      requires MayAllocate(pool, size, spare)
    {
      Store(AfterAllocate(pool, size, spare), if Reuses(pool, size) then memory else memory[spare := garbage])
    }

    function AfterPut(p: Ptr, size: nat): Store
      requires MayDeallocate(pool, p, size)
    {
      this.(pool := AfterDeallocate(pool, p, size))
    }

    function Head(p: Ptr): int {
      if p in memory && memory[p].buffer != [] then memory[p].buffer[0] else 0
    }

    function Heads(ps: seq<Ptr>): seq<int> {
      seq(|ps|, i requires 0 <= i < |ps| => Head(ps[i]))
    }

    function Event(p: Ptr): EventType {
      if p in memory then memory[p].event else ReadEvent
    }

    /** A live block with room for n slots: what every read and write of a record needs. */
    predicate Accessible(p: Ptr, n: nat) {
      p in pool.blocks && pool.blocks[p].use == Live && p in memory && |memory[p].buffer| >= n
    }

    /** A record of that event type, live, in a block of the size that event type implies. */
    predicate Holds(c: Config, p: Ptr, event: EventType) {
      p in pool.blocks && pool.blocks[p] == Block(SizeFor(c, event), Live) && Event(p) == event
    }

    function Write(p: Ptr, r: Record): Store {
      this.(memory := memory[p := r])
    }
  }

  type Page = seq<int>

  predicate Uniform(c: Config, page: Page) {
    |page| == c.pageSize && forall i :: 0 <= i < |page| ==> page[i] == page[0]
  }

  datatype ClientSide = ClientSide(
    phase: Phase, sendIndex: nat, recvIndex: nat, iterations: nat, totalReceived: nat,
    queuedSends: seq<Ptr>, queuedRecvs: seq<Ptr>, sends: seq<Ptr>, recvs: seq<Ptr>,
    cq: seq<Cqe>, count: nat, sendsReaped: nat, received: seq<Page>, store: Store)

  datatype ServerSide = ServerSide(
    started: bool, queuedReads: seq<Ptr>, openReads: seq<Ptr>, writes: seq<Ptr>, cq: seq<Cqe>, handled: bool, store: Store)

  datatype System = System(client: ClientSide, up: seq<int>, down: seq<Page>, server: ServerSide)

  datatype Move =
    | ClientMove(spare: Ptr, garbage: Record) | ServerMove(spare: Ptr, garbage: Record)
    | CompleteSend(i: nat) | CompleteRecv(i: nat) | CompleteRead(i: nat) | CompleteWrite(i: nat)

  // ---- The client's side of each turn ----

  function QueueSend(c: Config, k: ClientSide, spare: Ptr, garbage: Record): ClientSide
    requires MayAllocate(k.store.pool, SmallSize(), spare)
    requires k.store.AfterGet(SmallSize(), spare, garbage).Accessible(k.store.Got(SmallSize(), spare), 1)
  {
    var p := k.store.Got(SmallSize(), spare);
    var store := k.store.AfterGet(SmallSize(), spare, garbage);
    var buffer := store.memory[p].buffer[0 := c.Id(k.sendIndex)];
    k.(queuedSends := k.queuedSends + [p], sendIndex := k.sendIndex + 1, store := store.Write(p, Record(SendEvent, buffer)))
  }

  function QueueRecv(c: Config, k: ClientSide, spare: Ptr, garbage: Record): ClientSide
    requires MayAllocate(k.store.pool, PageSize(c), spare)
    requires k.store.AfterGet(PageSize(c), spare, garbage).Accessible(k.store.Got(PageSize(c), spare), 0)
  {
    var p := k.store.Got(PageSize(c), spare);
    var store := k.store.AfterGet(PageSize(c), spare, garbage);
    k.(queuedRecvs := k.queuedRecvs + [p], recvIndex := k.recvIndex + 1,
       store := store.Write(p, Record(RecvEvent, store.memory[p].buffer)))
  }

  function SubmitAll(k: ClientSide): ClientSide {
    k.(phase := Reaping, sends := k.sends + k.queuedSends, recvs := k.recvs + k.queuedRecvs,
       queuedSends := [], queuedRecvs := [])
  }

  /** The event type read from memory decides what a completion means and which size goes back to the pool. */
  function ReapOne(c: Config, k: ClientSide): ClientSide
    requires k.cq != [] && k.store.Accessible(k.cq[0].data, 0)
    requires k.store.Event(k.cq[0].data) == SendEvent ==> MayDeallocate(k.store.pool, k.cq[0].data, SmallSize())
    requires k.store.Event(k.cq[0].data) == RecvEvent ==> MayDeallocate(k.store.pool, k.cq[0].data, PageSize(c))
  {
    var e := k.cq[0];
    var rest := k.(cq := k.cq[1..], count := k.count + 1);
    match k.store.Event(e.data)
    case SendEvent => rest.(sendsReaped := k.sendsReaped + 1, store := k.store.AfterPut(e.data, SmallSize()))
    case RecvEvent =>
      rest.(iterations := k.iterations + 1, totalReceived := k.totalReceived + e.res,
            received := k.received + [k.store.memory[e.data].buffer],
            store := k.store.AfterPut(e.data, PageSize(c)))
    case _ => rest
  }

  /** What malloc owes the client in this turn, if the turn asks it for a block. */
  predicate ClientMayGet(c: Config, k: ClientSide, spare: Ptr, garbage: Record) {
    match k.phase
    case Sending => SendGuard(c, ClientView(c, k)) ==>
      MayAllocate(k.store.pool, SmallSize(), spare) && |garbage.buffer| == Slots(SmallSize())
    case Receiving => RecvGuard(c, ClientView(c, k)) ==>
      MayAllocate(k.store.pool, PageSize(c), spare) && |garbage.buffer| == Slots(PageSize(c))
    case _ => true
  }

  /** Every record this turn touches is live and large enough, and what it gives back it holds at that size. */
  predicate ClientSafe(c: Config, k: ClientSide, spare: Ptr, garbage: Record)
    requires ClientMayGet(c, k, spare, garbage)
  {
    match k.phase
    case Sending => SendGuard(c, ClientView(c, k)) ==>
      k.store.AfterGet(SmallSize(), spare, garbage).Accessible(k.store.Got(SmallSize(), spare), 1)
    case Receiving => RecvGuard(c, ClientView(c, k)) ==>
      k.store.AfterGet(PageSize(c), spare, garbage).Accessible(k.store.Got(PageSize(c), spare), c.pageSize)
    case Reaping => k.cq != [] ==>
      && k.store.Accessible(k.cq[0].data, 0)
      && (k.store.Event(k.cq[0].data) == SendEvent ==> MayDeallocate(k.store.pool, k.cq[0].data, SmallSize()))
      && (k.store.Event(k.cq[0].data) == RecvEvent ==> MayDeallocate(k.store.pool, k.cq[0].data, PageSize(c)))
    case _ => true
  }

  function ClientMoves(c: Config, k: ClientSide, spare: Ptr, garbage: Record): ClientSide
    requires k.phase != Exited && ClientMayGet(c, k, spare, garbage) && ClientSafe(c, k, spare, garbage)
  {
    var view := ClientView(c, k);
    match k.phase
    case Top => k.(phase := if LoopGuard(c, view) then Sending else Exited)
    case Sending => if SendGuard(c, view) then QueueSend(c, k, spare, garbage) else k.(phase := Receiving)
    case Receiving => if RecvGuard(c, view) then QueueRecv(c, k, spare, garbage) else SubmitAll(k)
    case Reaping =>
      if k.cq != [] then ReapOne(c, k)
      else k.(count := 0, phase := if BreakGuard(c, view) then Exited else Top)
  }

  // ---- The server's side ----

  function QueueRead(c: Config, v: ServerSide, spare: Ptr, garbage: Record): ServerSide
    requires MayAllocate(v.store.pool, PageSize(c), spare)
    requires v.store.AfterGet(PageSize(c), spare, garbage).Accessible(v.store.Got(PageSize(c), spare), 0)
  {
    var p := v.store.Got(PageSize(c), spare);
    var store := v.store.AfterGet(PageSize(c), spare, garbage);
    v.(queuedReads := v.queuedReads + [p], store := store.Write(p, Record(ReadEvent, store.memory[p].buffer)))
  }

  /** A new record is filled with the page number and queued for writing; the read record is reposted as it is. */
  function AnswerRead(c: Config, v: ServerSide, spare: Ptr, garbage: Record): ServerSide
    requires v.cq != [] && v.store.Accessible(v.cq[0].data, 1)
    requires MayAllocate(v.store.pool, PageSize(c), spare)
    requires v.store.AfterGet(PageSize(c), spare, garbage).Accessible(v.store.Got(PageSize(c), spare), c.pageSize)
  {
    var req := v.cq[0].data;
    var number := v.store.memory[req].buffer[0];
    var response := v.store.Got(PageSize(c), spare);
    var store := v.store.AfterGet(PageSize(c), spare, garbage);
    var filled := seq(c.pageSize, _ => number) + store.memory[response].buffer[c.pageSize..];
    v.(cq := v.cq[1..], handled := true, writes := v.writes + [response], openReads := v.openReads + [req],
       store := store.Write(response, Record(WriteEvent, filled))
                     .Write(req, Record(ReadEvent, v.store.memory[req].buffer)))
  }

  function RetireWrite(c: Config, v: ServerSide): ServerSide
    requires v.cq != [] && MayDeallocate(v.store.pool, v.cq[0].data, PageSize(c))
  {
    v.(cq := v.cq[1..], handled := true, store := v.store.AfterPut(v.cq[0].data, PageSize(c)))
  }

  predicate Answering(v: ServerSide) {
    v.started && !v.handled && v.cq != [] && v.store.Event(v.cq[0].data) == ReadEvent
  }

  predicate Retiring(v: ServerSide) {
    v.started && !v.handled && v.cq != [] && v.store.Event(v.cq[0].data) == WriteEvent
  }

  predicate Preparing(c: Config, v: ServerSide) {
    !v.started && |v.queuedReads| < c.SendWindow()
  }

  predicate ServerMayGet(c: Config, v: ServerSide, spare: Ptr, garbage: Record) {
    Preparing(c, v) || Answering(v) ==>
      MayAllocate(v.store.pool, PageSize(c), spare) && |garbage.buffer| == Slots(PageSize(c))
  }

  predicate ServerSafe(c: Config, v: ServerSide, spare: Ptr, garbage: Record)
    requires ServerMayGet(c, v, spare, garbage)
  {
    && (Preparing(c, v) || Answering(v) ==>
          v.store.AfterGet(PageSize(c), spare, garbage).Accessible(v.store.Got(PageSize(c), spare), c.pageSize))
    && (Answering(v) ==> v.store.Accessible(v.cq[0].data, 1))
    && (Retiring(v) ==> MayDeallocate(v.store.pool, v.cq[0].data, PageSize(c)))
  }

  function ServerMoves(c: Config, v: ServerSide, spare: Ptr, garbage: Record): ServerSide
    requires !v.started || v.handled || v.cq != []
    requires ServerMayGet(c, v, spare, garbage) && ServerSafe(c, v, spare, garbage)
  {
    if !v.started then
      if |v.queuedReads| < c.SendWindow() then QueueRead(c, v, spare, garbage)
      else v.(started := true, openReads := v.queuedReads, queuedReads := [])
    else if v.handled then v.(handled := false)
    else
      match v.store.Event(v.cq[0].data)
      case ReadEvent => AnswerRead(c, v, spare, garbage)
      case WriteEvent => RetireWrite(c, v)
      case _ => v.(cq := v.cq[1..], handled := true)
  }

  // ---- The whole machine ----

  /** What scheduling, the kernel and malloc decide; nothing here is a safety check. */
  predicate Ready(c: Config, s: System, move: Move) {
    match move
    case ClientMove(spare, garbage) => s.client.phase != Exited && ClientMayGet(c, s.client, spare, garbage)
    case ServerMove(spare, garbage) =>
      (!s.server.started || s.server.handled || s.server.cq != []) && ServerMayGet(c, s.server, spare, garbage)
    case CompleteSend(i) => i < |s.client.sends| && |s.up| < c.upCapacity
    case CompleteRecv(i) => i < |s.client.recvs| && s.down != []
    case CompleteRead(i) => i < |s.server.openReads| && s.up != []
    case CompleteWrite(i) => i < |s.server.writes| && |s.down| < c.downCapacity
  }

  /** No move reads, writes or frees memory its operation does not hold. */
  predicate Safe(c: Config, s: System, move: Move)
    requires Ready(c, s, move)
  {
    match move
    case ClientMove(spare, garbage) => ClientSafe(c, s.client, spare, garbage)
    case ServerMove(spare, garbage) => ServerSafe(c, s.server, spare, garbage)
    case CompleteSend(i) => s.client.store.Accessible(s.client.sends[i], 1)
    case CompleteRecv(i) => s.client.store.Accessible(s.client.recvs[i], c.pageSize)
    case CompleteRead(i) => s.server.store.Accessible(s.server.openReads[i], 1)
    case CompleteWrite(i) => s.server.store.Accessible(s.server.writes[i], c.pageSize)
  }

  function FinishSend(k: ClientSide, i: nat): ClientSide
    requires i < |k.sends|
  {
    k.(sends := Without(k.sends, i), cq := k.cq + [Cqe(k.sends[i], 4)])
  }

  function FinishRecv(c: Config, k: ClientSide, i: nat, page: Page): ClientSide
    requires i < |k.recvs| && k.store.Accessible(k.recvs[i], 0)
  {
    var p := k.recvs[i];
    k.(recvs := Without(k.recvs, i), cq := k.cq + [Cqe(p, c.PageBytes())],
       store := k.store.Write(p, k.store.memory[p].(buffer := page)))
  }

  function FinishRead(v: ServerSide, i: nat, number: int): ServerSide
    requires i < |v.openReads| && v.store.Accessible(v.openReads[i], 1)
  {
    var p := v.openReads[i];
    v.(openReads := Without(v.openReads, i), cq := v.cq + [Cqe(p, 4)],
       store := v.store.Write(p, v.store.memory[p].(buffer := v.store.memory[p].buffer[0 := number])))
  }

  function FinishWrite(c: Config, v: ServerSide, i: nat): ServerSide
    requires i < |v.writes|
  {
    v.(writes := Without(v.writes, i), cq := v.cq + [Cqe(v.writes[i], c.PageBytes())])
  }

  function AfterMove(c: Config, s: System, move: Move): System
    requires Ready(c, s, move) && Safe(c, s, move)
  {
    var k, v := s.client, s.server;
    match move
    case ClientMove(spare, garbage) => s.(client := ClientMoves(c, k, spare, garbage))
    case ServerMove(spare, garbage) => s.(server := ServerMoves(c, v, spare, garbage))
    case CompleteSend(i) => s.(client := FinishSend(k, i), up := s.up + [k.store.memory[k.sends[i]].buffer[0]])
    case CompleteRecv(i) => s.(client := FinishRecv(c, k, i, s.down[0]), down := s.down[1..])
    case CompleteRead(i) => s.(server := FinishRead(v, i, s.up[0]), up := s.up[1..])
    case CompleteWrite(i) =>
      s.(server := FinishWrite(c, v, i), down := s.down + [v.store.memory[v.writes[i]].buffer[..c.pageSize]])
  }

  // ---- What the machine stands for ----

  function ClientCqView(k: ClientSide): seq<ClientCqe> {
    seq(|k.cq|, i requires 0 <= i < |k.cq| =>
      if k.store.Event(k.cq[i].data) == SendEvent then SendDone else RecvDone(k.store.Head(k.cq[i].data)))
  }

  function ServerCqView(v: ServerSide): seq<ServerCqe> {
    seq(|v.cq|, i requires 0 <= i < |v.cq| =>
      if v.store.Event(v.cq[i].data) == ReadEvent then ReadDone(v.store.Head(v.cq[i].data)) else WriteDone)
  }

  function PageId(page: Page): int { if page == [] then 0 else page[0] }

  function PageIds(pages: seq<Page>): seq<int> {
    seq(|pages|, i requires 0 <= i < |pages| => PageId(pages[i]))
  }

  function ClientView(c: Config, k: ClientSide): Client {
    Client(k.phase, k.sendIndex, k.recvIndex, k.iterations, k.totalReceived,
           k.store.Heads(k.queuedSends), |k.queuedRecvs|, k.store.Heads(k.sends), |k.recvs|,
           ClientCqView(k), k.count, k.sendsReaped, PageIds(k.received))
  }

  function ServerView(v: ServerSide): Server {
    Server(v.started, |v.queuedReads|, |v.openReads|, v.store.Heads(v.writes), ServerCqView(v), v.handled)
  }

  function View(c: Config, s: System): State {
    State(ClientView(c, s.client), s.up, PageIds(s.down), ServerView(s.server))
  }

  function StepOf(move: Move): Step {
    match move
    case ClientMove(_, _) => ClientStep
    case ServerMove(_, _) => ServerStep
    case CompleteSend(i) => KernelSend(i)
    case CompleteRecv(_) => KernelRecv
    case CompleteRead(_) => KernelRead
    case CompleteWrite(i) => KernelWrite(i)
  }

  // ---- Who owns which block ----

  function Datas(cq: seq<Cqe>): seq<Ptr> {
    seq(|cq|, i requires 0 <= i < |cq| => cq[i].data)
  }

  /** The records of the client's queued, in-flight and unreaped operations. */
  function ClientOwned(k: ClientSide): multiset<Ptr> {
    multiset(k.queuedSends) + multiset(k.queuedRecvs) + multiset(k.sends) + multiset(k.recvs) + multiset(Datas(k.cq))
  }

  function ServerOwned(v: ServerSide): multiset<Ptr> {
    multiset(v.queuedReads) + multiset(v.openReads) + multiset(v.writes) + multiset(Datas(v.cq))
  }

  function LiveBlocks(store: Store): multiset<Ptr> {
    multiset(LiveView(store.pool).Keys)
  }

  /** Those are exactly the blocks held from the pool, each by one operation only. */
  ghost predicate Owns(store: Store, owned: multiset<Ptr>) {
    store.Sane() && owned == LiveBlocks(store)
  }

  ghost predicate ClientTyped(c: Config, k: ClientSide) {
    && (forall p :: p in k.queuedSends ==> k.store.Holds(c, p, SendEvent))
    && (forall p :: p in k.sends ==> k.store.Holds(c, p, SendEvent))
    && (forall p :: p in k.queuedRecvs ==> k.store.Holds(c, p, RecvEvent))
    && (forall p :: p in k.recvs ==> k.store.Holds(c, p, RecvEvent))
    && (forall e :: e in k.cq ==> ClientCqeOk(c, k.store, e))
    && (forall page :: page in k.received ==> Uniform(c, page))
  }

  ghost predicate ClientCqeOk(c: Config, store: Store, e: Cqe) {
    || store.Holds(c, e.data, SendEvent)
    || (store.Holds(c, e.data, RecvEvent) && e.res == c.PageBytes()
        && e.data in store.memory && Uniform(c, store.memory[e.data].buffer))
  }

  ghost predicate ServerTyped(c: Config, v: ServerSide) {
    && (forall p :: p in v.queuedReads ==> v.store.Holds(c, p, ReadEvent))
    && (forall p :: p in v.openReads ==> v.store.Holds(c, p, ReadEvent))
    && (forall p :: p in v.writes ==>
          v.store.Holds(c, p, WriteEvent) && p in v.store.memory && Uniform(c, v.store.memory[p].buffer))
    && (forall e :: e in v.cq ==> e.res > 0 && (v.store.Holds(c, e.data, ReadEvent) || v.store.Holds(c, e.data, WriteEvent)))
  }

  ghost predicate ClientOk(c: Config, k: ClientSide) {
    Owns(k.store, ClientOwned(k)) && ClientTyped(c, k)
  }

  ghost predicate ServerOk(c: Config, v: ServerSide) {
    Owns(v.store, ServerOwned(v)) && ServerTyped(c, v) && (!v.started ==> v.openReads == [])
  }

  ghost predicate Ok(c: Config, s: System) {
    ClientOk(c, s.client) && ServerOk(c, s.server) && forall page :: page in s.down ==> Uniform(c, page)
  }

  // ---- Store operations and what they leave alone ----

  /** A block two stores agree on. */
  ghost predicate Same(a: Store, b: Store, p: Ptr) {
    && p in a.pool.blocks && p in b.pool.blocks && a.pool.blocks[p] == b.pool.blocks[p]
    && p in a.memory && p in b.memory && a.memory[p] == b.memory[p]
  }

  lemma GetOwns(store: Store, owned: multiset<Ptr>, size: nat, spare: Ptr, garbage: Record)
    requires Owns(store, owned) && MayAllocate(store.pool, size, spare) && |garbage.buffer| == Slots(size)
    ensures var p, after := store.Got(size, spare), store.AfterGet(size, spare, garbage);
            && Owns(after, owned + multiset{p}) && p !in owned
            && after.pool.blocks[p] == Block(size, Live) && p in after.memory && |after.memory[p].buffer| == Slots(size)
            && forall q :: q in owned ==> Same(store, after, q)
  {
    AllocateRefinesMalloc(store.pool, size, spare);
    GetSane(store, size, spare, garbage);
    assert LiveView(store.AfterGet(size, spare, garbage).pool).Keys == LiveView(store.pool).Keys + {store.Got(size, spare)};
    forall q | q in owned ensures Same(store, store.AfterGet(size, spare, garbage), q) {
      assert q in LiveView(store.pool);
      GetKeeps(store, size, spare, garbage, q);
    }
  }

  lemma GetSane(store: Store, size: nat, spare: Ptr, garbage: Record)
    requires store.Sane() && MayAllocate(store.pool, size, spare) && |garbage.buffer| == Slots(size)
    ensures var p, after := store.Got(size, spare), store.AfterGet(size, spare, garbage);
            && after.Sane()
            && after.pool.blocks[p] == Block(size, Live) && p in after.memory && |after.memory[p].buffer| == Slots(size)
  {
    AllocateRefinesMalloc(store.pool, size, spare);
    if Reuses(store.pool, size) { PopKeepsValid(store.pool, size); }
  }

  lemma GetKeeps(store: Store, size: nat, spare: Ptr, garbage: Record, q: Ptr)
    requires store.Sane() && MayAllocate(store.pool, size, spare) && q in LiveView(store.pool)
    ensures Same(store, store.AfterGet(size, spare, garbage), q)
  {
    AllocateRefinesMalloc(store.pool, size, spare);
  }

  lemma OthersLive(store: Store, owned: multiset<Ptr>, p: Ptr)
    requires Owns(store, owned + multiset{p})
    ensures p in LiveView(store.pool) && p !in owned
    ensures forall q :: q in owned ==> q in LiveView(store.pool) && q != p
  {
    assert (owned + multiset{p})[p] == owned[p] + 1;
    forall q | q in owned ensures q in LiveView(store.pool) {
      assert q in owned + multiset{p};
    }
  }

  lemma PutOwns(store: Store, owned: multiset<Ptr>, p: Ptr, size: nat)
    requires Owns(store, owned + multiset{p}) && MayDeallocate(store.pool, p, size)
    ensures Owns(store.AfterPut(p, size), owned) && p !in owned
    ensures forall q :: q in owned ==> Same(store, store.AfterPut(p, size), q)
  {
    DeallocateRefinesFree(store.pool, p, size);
    OthersLive(store, owned, p);
    var after := store.AfterPut(p, size);
    assert LiveView(after.pool).Keys == LiveView(store.pool).Keys - {p};
    assert LiveBlocks(after) + multiset{p} == LiveBlocks(store);
    assert (owned + multiset{p}) - multiset{p} == owned;
  }

  lemma WriteOwns(store: Store, owned: multiset<Ptr>, p: Ptr, r: Record)
    requires Owns(store, owned + multiset{p}) && p in store.memory && |r.buffer| == |store.memory[p].buffer|
    ensures Owns(store.Write(p, r), owned + multiset{p}) && p !in owned
    ensures forall q :: q in owned ==> Same(store, store.Write(p, r), q)
  {
    OthersLive(store, owned, p);
  }

  ghost predicate Agree(a: Store, b: Store, ps: seq<Ptr>) {
    forall p :: p in ps ==> Same(a, b, p)
  }

  lemma HeadsSame(a: Store, b: Store, ps: seq<Ptr>)
    requires Agree(a, b, ps)
    ensures a.Heads(ps) == b.Heads(ps)
  {
    assert forall i :: 0 <= i < |ps| ==> Same(a, b, ps[i]);
  }

  lemma DatasIn(cq: seq<Cqe>)
    ensures forall e :: e in cq ==> e.data in Datas(cq)
  {
    forall e | e in cq ensures e.data in Datas(cq) {
      var i :| 0 <= i < |cq| && cq[i] == e;
      assert Datas(cq)[i] == e.data;
    }
  }

  /** Two stores agree on every block the client owns. */
  ghost predicate ClientAgrees(k: ClientSide, store: Store) {
    && Agree(k.store, store, k.queuedSends) && Agree(k.store, store, k.queuedRecvs)
    && Agree(k.store, store, k.sends) && Agree(k.store, store, k.recvs) && Agree(k.store, store, Datas(k.cq))
  }

  ghost predicate ServerAgrees(v: ServerSide, store: Store) {
    && Agree(v.store, store, v.queuedReads) && Agree(v.store, store, v.openReads)
    && Agree(v.store, store, v.writes) && Agree(v.store, store, Datas(v.cq))
  }

  lemma ClientAgreesOnOwned(k: ClientSide, store: Store)
    requires forall p :: p in ClientOwned(k) ==> Same(k.store, store, p)
    ensures ClientAgrees(k, store)
  {
  }

  lemma ServerAgreesOnOwned(v: ServerSide, store: Store)
    requires forall p :: p in ServerOwned(v) ==> Same(v.store, store, p)
    ensures ServerAgrees(v, store)
  {
  }

  /** Such a store can replace the client's without changing what it stands for. */
  lemma ClientFrame(c: Config, k: ClientSide, store: Store)
    requires ClientTyped(c, k) && ClientAgrees(k, store)
    ensures ClientTyped(c, k.(store := store))
    ensures ClientView(c, k.(store := store)) == ClientView(c, k)
  {
    DatasIn(k.cq);
    HeadsSame(k.store, store, k.queuedSends);
    HeadsSame(k.store, store, k.sends);
    assert forall e :: e in k.cq ==> Same(k.store, store, e.data);
    assert ClientCqView(k.(store := store)) == ClientCqView(k) by {
      assert forall i :: 0 <= i < |k.cq| ==> k.cq[i] in k.cq;
    }
  }

  lemma ServerFrame(c: Config, v: ServerSide, store: Store)
    requires ServerTyped(c, v) && ServerAgrees(v, store)
    ensures ServerTyped(c, v.(store := store))
    ensures ServerView(v.(store := store)) == ServerView(v)
  {
    DatasIn(v.cq);
    HeadsSame(v.store, store, v.writes);
    assert forall e :: e in v.cq ==> Same(v.store, store, e.data);
    assert ServerCqView(v.(store := store)) == ServerCqView(v) by {
      assert forall i :: 0 <= i < |v.cq| ==> v.cq[i] in v.cq;
    }
  }

  // ---- Taking a block, giving it back, rewriting it ----

  /** Getting a block and writing its record. */
  lemma GetAndWrite(store: Store, owned: multiset<Ptr>, size: nat, spare: Ptr, garbage: Record, r: Record)
    requires Owns(store, owned) && MayAllocate(store.pool, size, spare)
    requires |garbage.buffer| == Slots(size) == |r.buffer|
    ensures var p, after := store.Got(size, spare), store.AfterGet(size, spare, garbage).Write(store.Got(size, spare), r);
            && Owns(after, owned + multiset{p}) && p !in owned
            && p in after.pool.blocks && after.pool.blocks[p] == Block(size, Live)
            && forall q :: q in owned ==> Same(store, after, q)
  {
    GetOwns(store, owned, size, spare, garbage);
    WriteOwns(store.AfterGet(size, spare, garbage), owned, store.Got(size, spare), r);
  }

  lemma ClientGets(k: ClientSide, size: nat, spare: Ptr, garbage: Record, r: Record)
    requires Owns(k.store, ClientOwned(k)) && MayAllocate(k.store.pool, size, spare)
    requires |garbage.buffer| == Slots(size) == |r.buffer|
    ensures var p, after := k.store.Got(size, spare), k.store.AfterGet(size, spare, garbage).Write(k.store.Got(size, spare), r);
            && Owns(after, ClientOwned(k) + multiset{p}) && ClientAgrees(k, after)
            && p in after.pool.blocks && after.pool.blocks[p] == Block(size, Live)
  {
    GetAndWrite(k.store, ClientOwned(k), size, spare, garbage, r);
    ClientAgreesOnOwned(k, k.store.AfterGet(size, spare, garbage).Write(k.store.Got(size, spare), r));
  }

  lemma ServerGets(v: ServerSide, size: nat, spare: Ptr, garbage: Record, r: Record)
    requires Owns(v.store, ServerOwned(v)) && MayAllocate(v.store.pool, size, spare)
    requires |garbage.buffer| == Slots(size) == |r.buffer|
    ensures var p, after := v.store.Got(size, spare), v.store.AfterGet(size, spare, garbage).Write(v.store.Got(size, spare), r);
            && Owns(after, ServerOwned(v) + multiset{p}) && ServerAgrees(v, after)
            && p in after.pool.blocks && after.pool.blocks[p] == Block(size, Live)
  {
    GetAndWrite(v.store, ServerOwned(v), size, spare, garbage, r);
    ServerAgreesOnOwned(v, v.store.AfterGet(size, spare, garbage).Write(v.store.Got(size, spare), r));
  }

  lemma ClientPuts(k: ClientSide, p: Ptr, size: nat)
    requires Owns(k.store, ClientOwned(k) + multiset{p}) && MayDeallocate(k.store.pool, p, size)
    ensures Owns(k.store.AfterPut(p, size), ClientOwned(k)) && ClientAgrees(k, k.store.AfterPut(p, size))
  {
    PutOwns(k.store, ClientOwned(k), p, size);
    ClientAgreesOnOwned(k, k.store.AfterPut(p, size));
  }

  lemma ServerPuts(v: ServerSide, p: Ptr, size: nat)
    requires Owns(v.store, ServerOwned(v) + multiset{p}) && MayDeallocate(v.store.pool, p, size)
    ensures Owns(v.store.AfterPut(p, size), ServerOwned(v)) && ServerAgrees(v, v.store.AfterPut(p, size))
  {
    PutOwns(v.store, ServerOwned(v), p, size);
    ServerAgreesOnOwned(v, v.store.AfterPut(p, size));
  }

  lemma ClientRewrites(k: ClientSide, p: Ptr, r: Record)
    requires Owns(k.store, ClientOwned(k) + multiset{p}) && p in k.store.memory && |r.buffer| == |k.store.memory[p].buffer|
    ensures Owns(k.store.Write(p, r), ClientOwned(k) + multiset{p}) && ClientAgrees(k, k.store.Write(p, r))
  {
    WriteOwns(k.store, ClientOwned(k), p, r);
  }

  lemma ServerRewrites(v: ServerSide, p: Ptr, r: Record)
    requires Owns(v.store, ServerOwned(v) + multiset{p}) && p in v.store.memory && |r.buffer| == |v.store.memory[p].buffer|
    ensures Owns(v.store.Write(p, r), ServerOwned(v) + multiset{p}) && ServerAgrees(v, v.store.Write(p, r))
  {
    WriteOwns(v.store, ServerOwned(v), p, r);
  }

  // ---- Adding and removing operations ----

  lemma AddQueuedSendTo(c: Config, k: ClientSide, store: Store, p: Ptr)
    requires ClientTyped(c, k) && ClientAgrees(k, store) && store.Holds(c, p, SendEvent)
    ensures var next := k.(store := store, queuedSends := k.queuedSends + [p], sendIndex := k.sendIndex + 1);
            var view := ClientView(c, k);
            && ClientTyped(c, next) && ClientOwned(next) == ClientOwned(k) + multiset{p}
            && ClientView(c, next) ==
               view.(queuedSends := view.queuedSends + [store.Head(p)], sendIndex := k.sendIndex + 1)
  {
    ClientFrame(c, k, store);
    AddQueuedSend(c, k.(store := store), p);
  }

  lemma AddQueuedSend(c: Config, k: ClientSide, p: Ptr)
    requires ClientTyped(c, k) && k.store.Holds(c, p, SendEvent)
    ensures var next := k.(queuedSends := k.queuedSends + [p], sendIndex := k.sendIndex + 1);
            var view := ClientView(c, k);
            && ClientTyped(c, next) && ClientOwned(next) == ClientOwned(k) + multiset{p}
            && ClientView(c, next) ==
               view.(queuedSends := view.queuedSends + [k.store.Head(p)], sendIndex := k.sendIndex + 1)
  {
    assert k.store.Heads(k.queuedSends + [p]) == k.store.Heads(k.queuedSends) + [k.store.Head(p)];
  }

  lemma AddQueuedRecvTo(c: Config, k: ClientSide, store: Store, p: Ptr)
    requires ClientTyped(c, k) && ClientAgrees(k, store) && store.Holds(c, p, RecvEvent)
    ensures var next := k.(store := store, queuedRecvs := k.queuedRecvs + [p], recvIndex := k.recvIndex + 1);
            var view := ClientView(c, k);
            && ClientTyped(c, next) && ClientOwned(next) == ClientOwned(k) + multiset{p}
            && ClientView(c, next) == view.(queuedRecvs := view.queuedRecvs + 1, recvIndex := k.recvIndex + 1)
  {
    ClientFrame(c, k, store);
  }

  lemma AddClientCqe(c: Config, k: ClientSide, e: Cqe)
    requires ClientTyped(c, k) && ClientCqeOk(c, k.store, e)
    ensures var next, view := k.(cq := k.cq + [e]), ClientView(c, k);
            && ClientTyped(c, next) && ClientOwned(next) == ClientOwned(k) + multiset{e.data}
            && ClientView(c, next) ==
               view.(cq := view.cq + [if k.store.Event(e.data) == SendEvent then SendDone else RecvDone(k.store.Head(e.data))])
  {
    var next := k.(cq := k.cq + [e]);
    assert Datas(next.cq) == Datas(k.cq) + [e.data];
    assert ClientCqView(next) ==
           ClientCqView(k) + [if k.store.Event(e.data) == SendEvent then SendDone else RecvDone(k.store.Head(e.data))];
  }

  lemma DropClientCqe(c: Config, k: ClientSide)
    requires ClientTyped(c, k) && k.cq != []
    ensures ClientCqeOk(c, k.store, k.cq[0])
    ensures var next, view := k.(cq := k.cq[1..], count := k.count + 1), ClientView(c, k);
            && ClientTyped(c, next) && ClientOwned(k) == ClientOwned(next) + multiset{k.cq[0].data}
            && ClientView(c, next) == view.(cq := view.cq[1..], count := view.count + 1)
  {
    var next := k.(cq := k.cq[1..], count := k.count + 1);
    assert k.cq[0] in k.cq;
    assert Datas(k.cq) == [k.cq[0].data] + Datas(next.cq);
    assert ClientCqView(next) == ClientCqView(k)[1..];
  }

  lemma DropSend(c: Config, k: ClientSide, i: nat)
    requires ClientTyped(c, k) && i < |k.sends|
    ensures var next, view := k.(sends := Without(k.sends, i)), ClientView(c, k);
            && ClientTyped(c, next) && ClientOwned(k) == ClientOwned(next) + multiset{k.sends[i]}
            && ClientView(c, next) == view.(sends := Without(view.sends, i))
  {
    WithoutTakesOne(k.sends, i);
    assert k.store.Heads(Without(k.sends, i)) == Without(k.store.Heads(k.sends), i);
  }

  lemma DropRecv(c: Config, k: ClientSide, i: nat)
    requires ClientTyped(c, k) && i < |k.recvs|
    ensures var next, view := k.(recvs := Without(k.recvs, i)), ClientView(c, k);
            && ClientTyped(c, next) && ClientOwned(k) == ClientOwned(next) + multiset{k.recvs[i]}
            && ClientView(c, next) == view.(recvs := view.recvs - 1)
  {
    WithoutTakesOne(k.recvs, i);
  }

  lemma AddServerCqe(c: Config, v: ServerSide, e: Cqe)
    requires ServerTyped(c, v) && e.res > 0 && (v.store.Holds(c, e.data, ReadEvent) || v.store.Holds(c, e.data, WriteEvent))
    ensures var next, view := v.(cq := v.cq + [e]), ServerView(v);
            && ServerTyped(c, next) && ServerOwned(next) == ServerOwned(v) + multiset{e.data}
            && ServerView(next) ==
               view.(cq := view.cq + [if v.store.Event(e.data) == ReadEvent then ReadDone(v.store.Head(e.data)) else WriteDone])
  {
    var next := v.(cq := v.cq + [e]);
    assert Datas(next.cq) == Datas(v.cq) + [e.data];
    assert ServerCqView(next) ==
           ServerCqView(v) + [if v.store.Event(e.data) == ReadEvent then ReadDone(v.store.Head(e.data)) else WriteDone];
  }

  lemma DropServerCqe(c: Config, v: ServerSide)
    requires ServerTyped(c, v) && v.cq != []
    ensures v.store.Holds(c, v.cq[0].data, ReadEvent) || v.store.Holds(c, v.cq[0].data, WriteEvent)
    ensures var next, view := v.(cq := v.cq[1..], handled := true), ServerView(v);
            && ServerTyped(c, next) && ServerOwned(v) == ServerOwned(next) + multiset{v.cq[0].data}
            && ServerView(next) == view.(cq := view.cq[1..], handled := true)
  {
    var next := v.(cq := v.cq[1..], handled := true);
    assert v.cq[0] in v.cq;
    assert Datas(v.cq) == [v.cq[0].data] + Datas(next.cq);
    assert ServerCqView(next) == ServerCqView(v)[1..];
  }

  lemma DropRead(c: Config, v: ServerSide, i: nat)
    requires ServerTyped(c, v) && i < |v.openReads|
    ensures var next, view := v.(openReads := Without(v.openReads, i)), ServerView(v);
            && ServerTyped(c, next) && ServerOwned(v) == ServerOwned(next) + multiset{v.openReads[i]}
            && ServerView(next) == view.(openReads := view.openReads - 1)
  {
    WithoutTakesOne(v.openReads, i);
  }

  lemma AddRead(c: Config, v: ServerSide, p: Ptr)
    requires ServerTyped(c, v) && v.store.Holds(c, p, ReadEvent)
    ensures var next, view := v.(openReads := v.openReads + [p]), ServerView(v);
            && ServerTyped(c, next) && ServerOwned(next) == ServerOwned(v) + multiset{p}
            && ServerView(next) == view.(openReads := view.openReads + 1)
  {
  }

  lemma AddQueuedRead(c: Config, v: ServerSide, p: Ptr)
    requires ServerTyped(c, v) && v.store.Holds(c, p, ReadEvent)
    ensures var next, view := v.(queuedReads := v.queuedReads + [p]), ServerView(v);
            && ServerTyped(c, next) && ServerOwned(next) == ServerOwned(v) + multiset{p}
            && ServerView(next) == view.(queuedReads := view.queuedReads + 1)
  {
  }

  lemma DropWrite(c: Config, v: ServerSide, i: nat)
    requires ServerTyped(c, v) && i < |v.writes|
    ensures var next, view := v.(writes := Without(v.writes, i)), ServerView(v);
            && ServerTyped(c, next) && ServerOwned(v) == ServerOwned(next) + multiset{v.writes[i]}
            && ServerView(next) == view.(writes := Without(view.writes, i))
  {
    WithoutTakesOne(v.writes, i);
    assert v.store.Heads(Without(v.writes, i)) == Without(v.store.Heads(v.writes), i);
  }

  lemma AddWrite(c: Config, v: ServerSide, p: Ptr)
    requires ServerTyped(c, v) && v.store.Holds(c, p, WriteEvent)
    requires p in v.store.memory && Uniform(c, v.store.memory[p].buffer)
    ensures var next, view := v.(writes := v.writes + [p]), ServerView(v);
            && ServerTyped(c, next) && ServerOwned(next) == ServerOwned(v) + multiset{p}
            && ServerView(next) == view.(writes := view.writes + [v.store.Head(p)])
  {
    assert v.store.Heads(v.writes + [p]) == v.store.Heads(v.writes) + [v.store.Head(p)];
  }

  // ---- Each turn is safe, keeps ownership and types, and is the protocol's turn ----

  lemma QueueSendSafe(c: Config, k: ClientSide, spare: Ptr, garbage: Record)
    requires ClientOk(c, k) && MayAllocate(k.store.pool, SmallSize(), spare) && |garbage.buffer| == Slots(SmallSize())
    ensures var p, store := k.store.Got(SmallSize(), spare), k.store.AfterGet(SmallSize(), spare, garbage);
            store.Accessible(p, 1) && |store.memory[p].buffer| == 1
  {
    GetOwns(k.store, ClientOwned(k), SmallSize(), spare, garbage);
  }

  lemma QueueSendStore(c: Config, k: ClientSide, spare: Ptr, garbage: Record)
    requires ClientOk(c, k) && MayAllocate(k.store.pool, SmallSize(), spare) && |garbage.buffer| == Slots(SmallSize())
    ensures k.store.AfterGet(SmallSize(), spare, garbage).Accessible(k.store.Got(SmallSize(), spare), 1)
    ensures var p, store := k.store.Got(SmallSize(), spare), QueueSend(c, k, spare, garbage).store;
            && Owns(store, ClientOwned(k) + multiset{p}) && ClientAgrees(k, store)
            && store.Holds(c, p, SendEvent) && store.Head(p) == c.Id(k.sendIndex)
  {
    QueueSendSafe(c, k, spare, garbage);
    var p, store := k.store.Got(SmallSize(), spare), QueueSend(c, k, spare, garbage).store;
    ClientGets(k, SmallSize(), spare, garbage, store.memory[p]);
  }

  lemma QueueSendOk(c: Config, k: ClientSide, spare: Ptr, garbage: Record)
    requires ClientOk(c, k) && MayAllocate(k.store.pool, SmallSize(), spare) && |garbage.buffer| == Slots(SmallSize())
    ensures k.store.AfterGet(SmallSize(), spare, garbage).Accessible(k.store.Got(SmallSize(), spare), 1)
    ensures ClientOk(c, QueueSend(c, k, spare, garbage))
    ensures var view := ClientView(c, k);
            ClientView(c, QueueSend(c, k, spare, garbage)) ==
            view.(queuedSends := view.queuedSends + [c.Id(k.sendIndex)], sendIndex := k.sendIndex + 1)
  {
    QueueSendSafe(c, k, spare, garbage);
    QueuedSendOk(c, k, QueueSend(c, k, spare, garbage).store, k.store.Got(SmallSize(), spare)) by {
      QueueSendStore(c, k, spare, garbage);
    }
  }

  lemma QueuedSendOk(c: Config, k: ClientSide, store: Store, p: Ptr)
    requires ClientTyped(c, k) && Owns(store, ClientOwned(k) + multiset{p}) && ClientAgrees(k, store)
    requires store.Holds(c, p, SendEvent) && store.Head(p) == c.Id(k.sendIndex)
    ensures var next := k.(store := store, queuedSends := k.queuedSends + [p], sendIndex := k.sendIndex + 1);
            var view := ClientView(c, k);
            && ClientOk(c, next)
            && ClientView(c, next) == view.(queuedSends := view.queuedSends + [c.Id(k.sendIndex)], sendIndex := k.sendIndex + 1)
  {
    AddQueuedSendTo(c, k, store, p);
  }

  lemma QueueRecvSafe(c: Config, k: ClientSide, spare: Ptr, garbage: Record)
    requires ClientOk(c, k) && MayAllocate(k.store.pool, PageSize(c), spare) && |garbage.buffer| == Slots(PageSize(c))
    ensures var p, store := k.store.Got(PageSize(c), spare), k.store.AfterGet(PageSize(c), spare, garbage);
            store.Accessible(p, c.pageSize) && |store.memory[p].buffer| == c.pageSize
  {
    GetOwns(k.store, ClientOwned(k), PageSize(c), spare, garbage);
  }

  lemma QueueRecvStore(c: Config, k: ClientSide, spare: Ptr, garbage: Record)
    requires ClientOk(c, k) && MayAllocate(k.store.pool, PageSize(c), spare) && |garbage.buffer| == Slots(PageSize(c))
    ensures k.store.AfterGet(PageSize(c), spare, garbage).Accessible(k.store.Got(PageSize(c), spare), c.pageSize)
    ensures var p, store := k.store.Got(PageSize(c), spare), QueueRecv(c, k, spare, garbage).store;
            Owns(store, ClientOwned(k) + multiset{p}) && ClientAgrees(k, store) && store.Holds(c, p, RecvEvent)
  {
    QueueRecvSafe(c, k, spare, garbage);
    var p, store := k.store.Got(PageSize(c), spare), QueueRecv(c, k, spare, garbage).store;
    ClientGets(k, PageSize(c), spare, garbage, store.memory[p]);
  }

  lemma QueueRecvOk(c: Config, k: ClientSide, spare: Ptr, garbage: Record)
    requires ClientOk(c, k) && MayAllocate(k.store.pool, PageSize(c), spare) && |garbage.buffer| == Slots(PageSize(c))
    ensures k.store.AfterGet(PageSize(c), spare, garbage).Accessible(k.store.Got(PageSize(c), spare), c.pageSize)
    ensures ClientOk(c, QueueRecv(c, k, spare, garbage))
    ensures var view := ClientView(c, k);
            ClientView(c, QueueRecv(c, k, spare, garbage)) ==
            view.(queuedRecvs := view.queuedRecvs + 1, recvIndex := k.recvIndex + 1)
  {
    QueueRecvSafe(c, k, spare, garbage);
    QueuedRecvOk(c, k, QueueRecv(c, k, spare, garbage).store, k.store.Got(PageSize(c), spare)) by {
      QueueRecvStore(c, k, spare, garbage);
    }
  }

  lemma QueuedRecvOk(c: Config, k: ClientSide, store: Store, p: Ptr)
    requires ClientTyped(c, k) && Owns(store, ClientOwned(k) + multiset{p}) && ClientAgrees(k, store)
    requires store.Holds(c, p, RecvEvent)
    ensures var next := k.(store := store, queuedRecvs := k.queuedRecvs + [p], recvIndex := k.recvIndex + 1);
            var view := ClientView(c, k);
            && ClientOk(c, next)
            && ClientView(c, next) == view.(queuedRecvs := view.queuedRecvs + 1, recvIndex := k.recvIndex + 1)
  {
    AddQueuedRecvTo(c, k, store, p);
  }

  lemma SubmitAllOk(c: Config, k: ClientSide)
    requires ClientOk(c, k)
    ensures ClientOk(c, SubmitAll(k))
    ensures ClientView(c, SubmitAll(k)) == Submit(ClientView(c, k))
  {
    SubmitAllView(c, k);
  }

  lemma SubmitAllView(c: Config, k: ClientSide)
    requires ClientTyped(c, k)
    ensures ClientTyped(c, SubmitAll(k)) && ClientOwned(SubmitAll(k)) == ClientOwned(k)
    ensures ClientView(c, SubmitAll(k)) == Submit(ClientView(c, k))
  {
    SubmitAllShows(c, k);
  }

  lemma SubmitAllShows(c: Config, k: ClientSide)
    ensures ClientView(c, SubmitAll(k)) == Submit(ClientView(c, k))
  {
    assert k.store.Heads(k.sends + k.queuedSends) == k.store.Heads(k.sends) + k.store.Heads(k.queuedSends);
  }

  lemma ReapOneSafe(c: Config, k: ClientSide)
    requires ClientOk(c, k) && k.cq != []
    ensures ClientCqeOk(c, k.store, k.cq[0]) && k.store.Accessible(k.cq[0].data, 0)
    ensures MayDeallocate(k.store.pool, k.cq[0].data, SizeFor(c, k.store.Event(k.cq[0].data)))
  {
    DropClientCqe(c, k);
  }

  lemma ReapOneStore(c: Config, k: ClientSide)
    requires ClientOk(c, k) && k.cq != []
    requires MayDeallocate(k.store.pool, k.cq[0].data, SizeFor(c, k.store.Event(k.cq[0].data)))
    ensures var rest, store := k.(cq := k.cq[1..], count := k.count + 1),
                               k.store.AfterPut(k.cq[0].data, SizeFor(c, k.store.Event(k.cq[0].data)));
            Owns(store, ClientOwned(rest)) && ClientAgrees(rest, store)
  {
    DropClientCqe(c, k);
    ClientPuts(k.(cq := k.cq[1..], count := k.count + 1), k.cq[0].data, SizeFor(c, k.store.Event(k.cq[0].data)));
  }

  lemma ReapOneOk(c: Config, k: ClientSide)
    requires ClientOk(c, k) && k.cq != []
    ensures k.store.Accessible(k.cq[0].data, 0)
    ensures k.store.Event(k.cq[0].data) == SendEvent ==> MayDeallocate(k.store.pool, k.cq[0].data, SmallSize())
    ensures k.store.Event(k.cq[0].data) == RecvEvent ==> MayDeallocate(k.store.pool, k.cq[0].data, PageSize(c))
    ensures ClientOk(c, ReapOne(c, k))
    ensures ClientView(c, ReapOne(c, k)) == Reap(c, ClientView(c, k))
  {
    ReapOneSafe(c, k);
    ReapOneStore(c, k);
    ReapOneView(c, k);
  }

  lemma ReapOneView(c: Config, k: ClientSide)
    requires ClientTyped(c, k) && k.cq != [] && ClientCqeOk(c, k.store, k.cq[0]) && k.store.Accessible(k.cq[0].data, 0)
    requires var rest, store := k.(cq := k.cq[1..], count := k.count + 1),
                                k.store.AfterPut(k.cq[0].data, SizeFor(c, k.store.Event(k.cq[0].data)));
             ClientAgrees(rest, store)
    ensures ClientTyped(c, ReapOne(c, k)) && ClientView(c, ReapOne(c, k)) == Reap(c, ClientView(c, k))
  {
    var e, rest := k.cq[0], k.(cq := k.cq[1..], count := k.count + 1);
    DropClientCqe(c, k);
    ClientFrame(c, rest, k.store.AfterPut(e.data, SizeFor(c, k.store.Event(e.data))));
    var next := ReapOne(c, k);
    assert k.store.Event(e.data) == RecvEvent ==> PageIds(next.received) == PageIds(k.received) + [k.store.Head(e.data)];
  }

  lemma ClientMovesOk(c: Config, k: ClientSide, spare: Ptr, garbage: Record)
    requires ClientOk(c, k) && k.phase != Exited && ClientMayGet(c, k, spare, garbage)
    ensures ClientSafe(c, k, spare, garbage)
    ensures ClientOk(c, ClientMoves(c, k, spare, garbage))
    ensures ClientView(c, ClientMoves(c, k, spare, garbage)) == ClientTurn(c, ClientView(c, k))
  {
    match k.phase
    case Sending => SendingOk(c, k, spare, garbage);
    case Receiving => ReceivingOk(c, k, spare, garbage);
    case Reaping => ReapingOk(c, k, spare, garbage);
    case Top => OnlyPhaseOk(c, k, ClientMoves(c, k, spare, garbage).phase, k.count);
  }

  /** Turns that change the phase, and at most the count. */
  lemma OnlyPhaseOk(c: Config, k: ClientSide, phase: Phase, count: nat)
    requires ClientOk(c, k)
    ensures ClientOk(c, k.(phase := phase, count := count))
    ensures ClientView(c, k.(phase := phase, count := count)) == ClientView(c, k).(phase := phase, count := count)
  {
  }

  lemma SendingOk(c: Config, k: ClientSide, spare: Ptr, garbage: Record)
    requires ClientOk(c, k) && k.phase == Sending && ClientMayGet(c, k, spare, garbage)
    ensures ClientSafe(c, k, spare, garbage)
    ensures ClientOk(c, ClientMoves(c, k, spare, garbage))
    ensures ClientView(c, ClientMoves(c, k, spare, garbage)) == ClientTurn(c, ClientView(c, k))
  {
    if SendGuard(c, ClientView(c, k)) {
      QueueSendOk(c, k, spare, garbage);
    } else {
      OnlyPhaseOk(c, k, Receiving, k.count);
    }
  }

  lemma ReceivingOk(c: Config, k: ClientSide, spare: Ptr, garbage: Record)
    requires ClientOk(c, k) && k.phase == Receiving && ClientMayGet(c, k, spare, garbage)
    ensures ClientSafe(c, k, spare, garbage)
    ensures ClientOk(c, ClientMoves(c, k, spare, garbage))
    ensures ClientView(c, ClientMoves(c, k, spare, garbage)) == ClientTurn(c, ClientView(c, k))
  {
    if RecvGuard(c, ClientView(c, k)) { QueueRecvOk(c, k, spare, garbage); } else { SubmitAllOk(c, k); }
  }

  lemma ReapingOk(c: Config, k: ClientSide, spare: Ptr, garbage: Record)
    requires ClientOk(c, k) && k.phase == Reaping && ClientMayGet(c, k, spare, garbage)
    ensures ClientSafe(c, k, spare, garbage)
    ensures ClientOk(c, ClientMoves(c, k, spare, garbage))
    ensures ClientView(c, ClientMoves(c, k, spare, garbage)) == ClientTurn(c, ClientView(c, k))
  {
    if k.cq != [] {
      ReapOneOk(c, k);
    } else {
      OnlyPhaseOk(c, k, ClientMoves(c, k, spare, garbage).phase, 0);
    }
  }

  lemma QueueReadSafe(c: Config, v: ServerSide, spare: Ptr, garbage: Record)
    requires ServerOk(c, v) && MayAllocate(v.store.pool, PageSize(c), spare) && |garbage.buffer| == Slots(PageSize(c))
    ensures var p, store := v.store.Got(PageSize(c), spare), v.store.AfterGet(PageSize(c), spare, garbage);
            store.Accessible(p, c.pageSize) && |store.memory[p].buffer| == c.pageSize
  {
    GetOwns(v.store, ServerOwned(v), PageSize(c), spare, garbage);
  }

  lemma QueueReadStore(c: Config, v: ServerSide, spare: Ptr, garbage: Record)
    requires ServerOk(c, v) && MayAllocate(v.store.pool, PageSize(c), spare) && |garbage.buffer| == Slots(PageSize(c))
    ensures v.store.AfterGet(PageSize(c), spare, garbage).Accessible(v.store.Got(PageSize(c), spare), c.pageSize)
    ensures var p, store := v.store.Got(PageSize(c), spare), QueueRead(c, v, spare, garbage).store;
            Owns(store, ServerOwned(v) + multiset{p}) && ServerAgrees(v, store) && store.Holds(c, p, ReadEvent)
  {
    QueueReadSafe(c, v, spare, garbage);
    var p, store := v.store.Got(PageSize(c), spare), QueueRead(c, v, spare, garbage).store;
    ServerGets(v, PageSize(c), spare, garbage, store.memory[p]);
  }

  lemma QueueReadOk(c: Config, v: ServerSide, spare: Ptr, garbage: Record)
    requires ServerOk(c, v) && MayAllocate(v.store.pool, PageSize(c), spare) && |garbage.buffer| == Slots(PageSize(c))
    ensures v.store.AfterGet(PageSize(c), spare, garbage).Accessible(v.store.Got(PageSize(c), spare), c.pageSize)
    ensures ServerOk(c, QueueRead(c, v, spare, garbage))
    ensures ServerView(QueueRead(c, v, spare, garbage)) == ServerView(v).(queuedReads := |v.queuedReads| + 1)
  {
    QueueReadStore(c, v, spare, garbage);
    var p, store := v.store.Got(PageSize(c), spare), QueueRead(c, v, spare, garbage).store;
    ServerFrame(c, v, store);
    AddQueuedRead(c, v.(store := store), p);
  }

  lemma RetireWriteOk(c: Config, v: ServerSide)
    requires ServerOk(c, v) && Retiring(v)
    ensures MayDeallocate(v.store.pool, v.cq[0].data, PageSize(c))
    ensures ServerOk(c, RetireWrite(c, v))
    ensures ServerView(RetireWrite(c, v)) == ServerTurn(c, ServerView(v))
  {
    var p, rest := v.cq[0].data, v.(cq := v.cq[1..], handled := true);
    DropServerCqe(c, v);
    ServerPuts(rest, p, PageSize(c));
    ServerFrame(c, rest, v.store.AfterPut(p, PageSize(c)));
  }

  lemma AnswerReadSafe(c: Config, v: ServerSide)
    requires c.pageSize >= 1
    requires ServerOk(c, v) && Answering(v)
    ensures v.store.Accessible(v.cq[0].data, 1) && v.store.Holds(c, v.cq[0].data, ReadEvent)
  {
    DropServerCqe(c, v);
  }

  /** The server with the completion taken off and its record posted as a read again. */
  function Reposted(v: ServerSide): ServerSide
    requires v.cq != []
  {
    v.(cq := v.cq[1..], handled := true, openReads := v.openReads + [v.cq[0].data])
  }

  lemma RepostedOk(c: Config, v: ServerSide)
    requires ServerTyped(c, v) && Answering(v)
    ensures ServerTyped(c, Reposted(v)) && ServerOwned(Reposted(v)) == ServerOwned(v) && v.cq[0].data in ServerOwned(v)
    ensures var view := ServerView(v);
            ServerView(Reposted(v)) == view.(cq := view.cq[1..], handled := true, openReads := view.openReads + 1)
  {
    DropServerCqe(c, v);
    AddRead(c, v.(cq := v.cq[1..], handled := true), v.cq[0].data);
  }

  /** Writing the read record back as it is changes nothing, because the response is another record. */
  lemma RepostingKeepsStore(c: Config, v: ServerSide, spare: Ptr, garbage: Record)
    requires c.pageSize >= 1
    requires ServerOk(c, v) && Answering(v)
    requires MayAllocate(v.store.pool, PageSize(c), spare) && |garbage.buffer| == Slots(PageSize(c))
    ensures v.store.Accessible(v.cq[0].data, 1)
    ensures v.store.AfterGet(PageSize(c), spare, garbage).Accessible(v.store.Got(PageSize(c), spare), c.pageSize)
    ensures |v.store.AfterGet(PageSize(c), spare, garbage).memory[v.store.Got(PageSize(c), spare)].buffer| == c.pageSize
    ensures var p, store := v.store.Got(PageSize(c), spare), AnswerRead(c, v, spare, garbage).store;
            p != v.cq[0].data && p in store.memory && store == v.store.AfterGet(PageSize(c), spare, garbage).Write(p, store.memory[p])
  {
    AnswerReadSafe(c, v);
    QueueReadSafe(c, v, spare, garbage);
    ReadRecordSame(c, v, spare, garbage);
    AnswerReadWrites(c, v, spare, garbage);
  }

  lemma ReadRecordSame(c: Config, v: ServerSide, spare: Ptr, garbage: Record)
    requires ServerOk(c, v) && Answering(v)
    requires MayAllocate(v.store.pool, PageSize(c), spare) && |garbage.buffer| == Slots(PageSize(c))
    ensures Same(v.store, v.store.AfterGet(PageSize(c), spare, garbage), v.cq[0].data)
    ensures v.cq[0].data != v.store.Got(PageSize(c), spare)
  {
    RepostedOk(c, v);
    GetOwns(v.store, ServerOwned(v), PageSize(c), spare, garbage);
  }

  lemma AnswerReadWrites(c: Config, v: ServerSide, spare: Ptr, garbage: Record)
    requires Answering(v) && v.store.Accessible(v.cq[0].data, 1) && MayAllocate(v.store.pool, PageSize(c), spare)
    requires v.store.AfterGet(PageSize(c), spare, garbage).Accessible(v.store.Got(PageSize(c), spare), c.pageSize)
    requires Same(v.store, v.store.AfterGet(PageSize(c), spare, garbage), v.cq[0].data)
    requires v.cq[0].data != v.store.Got(PageSize(c), spare)
    ensures var p, store := v.store.Got(PageSize(c), spare), AnswerRead(c, v, spare, garbage).store;
            p in store.memory && store == v.store.AfterGet(PageSize(c), spare, garbage).Write(p, store.memory[p])
  {
    var req, p, store := v.cq[0].data, v.store.Got(PageSize(c), spare), AnswerRead(c, v, spare, garbage).store;
    assert store.memory[req] == v.store.memory[req];
    assert store.memory == v.store.AfterGet(PageSize(c), spare, garbage).memory[p := store.memory[p]];
  }

  lemma AnswerReadOwns(c: Config, v: ServerSide, spare: Ptr, garbage: Record)
    requires c.pageSize >= 1
    requires ServerOk(c, v) && Answering(v)
    requires MayAllocate(v.store.pool, PageSize(c), spare) && |garbage.buffer| == Slots(PageSize(c))
    ensures v.store.Accessible(v.cq[0].data, 1)
    ensures v.store.AfterGet(PageSize(c), spare, garbage).Accessible(v.store.Got(PageSize(c), spare), c.pageSize)
    ensures var p, store := v.store.Got(PageSize(c), spare), AnswerRead(c, v, spare, garbage).store;
            && Owns(store, ServerOwned(v) + multiset{p}) && ServerAgrees(Reposted(v), store)
            && p in store.pool.blocks && store.pool.blocks[p] == Block(PageSize(c), Live)
            && p in store.memory && store.memory[p] == Record(WriteEvent, seq(c.pageSize, _ => v.store.Head(v.cq[0].data)))
  {
    RepostingKeepsStore(c, v, spare, garbage);
    RepostedOk(c, v);
    FilledPage(c, v, spare, garbage);
    ServerGets(Reposted(v), PageSize(c), spare, garbage, Record(WriteEvent, seq(c.pageSize, _ => v.store.Head(v.cq[0].data))));
  }

  lemma AnswerReadStore(c: Config, v: ServerSide, spare: Ptr, garbage: Record)
    requires c.pageSize >= 1
    requires ServerOk(c, v) && Answering(v)
    requires MayAllocate(v.store.pool, PageSize(c), spare) && |garbage.buffer| == Slots(PageSize(c))
    ensures v.store.Accessible(v.cq[0].data, 1)
    ensures v.store.AfterGet(PageSize(c), spare, garbage).Accessible(v.store.Got(PageSize(c), spare), c.pageSize)
    ensures var p, store := v.store.Got(PageSize(c), spare), AnswerRead(c, v, spare, garbage).store;
            && Owns(store, ServerOwned(v) + multiset{p}) && ServerAgrees(Reposted(v), store)
            && store.Holds(c, p, WriteEvent) && store.Head(p) == v.store.Head(v.cq[0].data)
            && p in store.memory && Uniform(c, store.memory[p].buffer)
  {
    AnswerReadOwns(c, v, spare, garbage);
    FilledHolds(c, AnswerRead(c, v, spare, garbage).store, v.store.Got(PageSize(c), spare), v.store.Head(v.cq[0].data));
  }

  lemma FilledHolds(c: Config, store: Store, p: Ptr, number: int)
    requires c.pageSize >= 1 && p in store.pool.blocks && store.pool.blocks[p] == Block(PageSize(c), Live)
    requires p in store.memory && store.memory[p] == Record(WriteEvent, seq(c.pageSize, _ => number))
    ensures store.Holds(c, p, WriteEvent) && store.Head(p) == number && Uniform(c, store.memory[p].buffer)
  {
  }

  /** The response record is a write of PAGE_SIZE copies of the number read. */
  lemma FilledPage(c: Config, v: ServerSide, spare: Ptr, garbage: Record)
    requires c.pageSize >= 1 && Answering(v) && v.store.Accessible(v.cq[0].data, 1)
    requires MayAllocate(v.store.pool, PageSize(c), spare)
    requires v.store.AfterGet(PageSize(c), spare, garbage).Accessible(v.store.Got(PageSize(c), spare), c.pageSize)
    requires |v.store.AfterGet(PageSize(c), spare, garbage).memory[v.store.Got(PageSize(c), spare)].buffer| == c.pageSize
    requires v.store.Got(PageSize(c), spare) != v.cq[0].data
    ensures var record := AnswerRead(c, v, spare, garbage).store.memory[v.store.Got(PageSize(c), spare)];
            record == Record(WriteEvent, seq(c.pageSize, _ => v.store.Head(v.cq[0].data)))
  {
  }

  /** The read record is reposted only after its own completion was taken off the queue, and is never the response. */
  lemma AnswerReadOk(c: Config, v: ServerSide, spare: Ptr, garbage: Record)
    requires c.pageSize >= 1
    requires ServerOk(c, v) && Answering(v)
    requires MayAllocate(v.store.pool, PageSize(c), spare) && |garbage.buffer| == Slots(PageSize(c))
    ensures v.store.Accessible(v.cq[0].data, 1)
    ensures v.store.AfterGet(PageSize(c), spare, garbage).Accessible(v.store.Got(PageSize(c), spare), c.pageSize)
    ensures ServerOk(c, AnswerRead(c, v, spare, garbage))
    ensures ServerView(AnswerRead(c, v, spare, garbage)) == ServerTurn(c, ServerView(v))
  {
    AnswerReadStore(c, v, spare, garbage);
    RepostedOk(c, v);
    var p, store := v.store.Got(PageSize(c), spare), AnswerRead(c, v, spare, garbage).store;
    ServerFrame(c, Reposted(v), store);
    AddWrite(c, Reposted(v).(store := store), p);
  }

  lemma ServerMovesOk(c: Config, v: ServerSide, spare: Ptr, garbage: Record)
    requires c.pageSize >= 1
    requires ServerOk(c, v) && (!v.started || v.handled || v.cq != []) && ServerMayGet(c, v, spare, garbage)
    ensures ServerSafe(c, v, spare, garbage)
    ensures ServerOk(c, ServerMoves(c, v, spare, garbage))
    ensures ServerView(ServerMoves(c, v, spare, garbage)) == ServerTurn(c, ServerView(v))
  {
    if !v.started {
      PrologueOk(c, v, spare, garbage);
    } else if !v.handled {
      HandlingOk(c, v, spare, garbage);
    }
  }

  lemma PrologueOk(c: Config, v: ServerSide, spare: Ptr, garbage: Record)
    requires ServerOk(c, v) && !v.started && ServerMayGet(c, v, spare, garbage)
    ensures ServerSafe(c, v, spare, garbage)
    ensures ServerOk(c, ServerMoves(c, v, spare, garbage))
    ensures ServerView(ServerMoves(c, v, spare, garbage)) == ServerTurn(c, ServerView(v))
  {
    if Preparing(c, v) { QueueReadOk(c, v, spare, garbage); }
  }

  lemma HandlingOk(c: Config, v: ServerSide, spare: Ptr, garbage: Record)
    requires c.pageSize >= 1
    requires ServerOk(c, v) && v.started && !v.handled && v.cq != [] && ServerMayGet(c, v, spare, garbage)
    ensures ServerSafe(c, v, spare, garbage)
    ensures ServerOk(c, ServerMoves(c, v, spare, garbage))
    ensures ServerView(ServerMoves(c, v, spare, garbage)) == ServerTurn(c, ServerView(v))
  {
    DropServerCqe(c, v);
    if Answering(v) {
      AnswerReadOk(c, v, spare, garbage);
    } else {
      RetireWriteOk(c, v);
    }
  }

  lemma FinishSendOk(c: Config, k: ClientSide, i: nat)
    requires ClientOk(c, k) && i < |k.sends|
    ensures k.store.Accessible(k.sends[i], 1)
    ensures k.store.memory[k.sends[i]].buffer[0] == ClientView(c, k).sends[i]
    ensures ClientOk(c, FinishSend(k, i))
    ensures var view := ClientView(c, k);
            ClientView(c, FinishSend(k, i)) == view.(sends := Without(view.sends, i), cq := view.cq + [SendDone])
  {
    assert k.sends[i] in k.sends;
    DropSend(c, k, i);
    AddClientCqe(c, k.(sends := Without(k.sends, i)), Cqe(k.sends[i], 4));
  }

  lemma FinishRecvOk(c: Config, k: ClientSide, i: nat, page: Page)
    requires ClientOk(c, k) && i < |k.recvs| && Uniform(c, page)
    ensures k.store.Accessible(k.recvs[i], c.pageSize)
    ensures ClientOk(c, FinishRecv(c, k, i, page))
    ensures var view := ClientView(c, k);
            ClientView(c, FinishRecv(c, k, i, page)) ==
            view.(recvs := view.recvs - 1, cq := view.cq + [RecvDone(PageId(page))])
  {
    var p, rest := k.recvs[i], k.(recvs := Without(k.recvs, i));
    assert p in k.recvs;
    DropRecv(c, k, i);
    var next := FinishRecv(c, k, i, page);
    ClientRewrites(rest, p, next.store.memory[p]);
    ClientFrame(c, rest, next.store);
    AddClientCqe(c, rest.(store := next.store), Cqe(p, c.PageBytes()));
  }

  lemma FinishReadOk(c: Config, v: ServerSide, i: nat, number: int)
    requires c.pageSize >= 1
    requires ServerOk(c, v) && i < |v.openReads|
    ensures v.store.Accessible(v.openReads[i], 1)
    ensures ServerOk(c, FinishRead(v, i, number))
    ensures var view := ServerView(v);
            ServerView(FinishRead(v, i, number)) ==
            view.(openReads := view.openReads - 1, cq := view.cq + [ReadDone(number)])
  {
    var p, rest := v.openReads[i], v.(openReads := Without(v.openReads, i));
    assert p in v.openReads;
    DropRead(c, v, i);
    var next := FinishRead(v, i, number);
    ServerRewrites(rest, p, next.store.memory[p]);
    ServerFrame(c, rest, next.store);
    AddServerCqe(c, rest.(store := next.store), Cqe(p, 4));
  }

  lemma FinishWriteOk(c: Config, v: ServerSide, i: nat)
    requires c.pageSize >= 1
    requires ServerOk(c, v) && i < |v.writes|
    ensures v.store.Accessible(v.writes[i], c.pageSize)
    ensures var page := v.store.memory[v.writes[i]].buffer[..c.pageSize];
            Uniform(c, page) && PageId(page) == ServerView(v).writes[i]
    ensures ServerOk(c, FinishWrite(c, v, i))
    ensures var view := ServerView(v);
            ServerView(FinishWrite(c, v, i)) == view.(writes := Without(view.writes, i), cq := view.cq + [WriteDone])
  {
    assert v.writes[i] in v.writes;
    DropWrite(c, v, i);
    AddServerCqe(c, v.(writes := Without(v.writes, i)), Cqe(v.writes[i], c.PageBytes()));
  }
}
