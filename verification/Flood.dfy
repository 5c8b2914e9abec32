/**
 The one-way flood of max_client and max_server: any number of connections, each a sender that counts only
 successful completions and a receiver that keeps RING_SIZE reads posted and adds to one shared counter.
 Sends may fail or be short, and reads may split the stream anywhere.
 */
module Flood {
  import opened Arithmetic
  import opened Sequences

  /** RING_SIZE, the entries of a submission queue (at least RING_SIZE) and the bytes of one buffer. */
  datatype Config = Config(ring: nat, entries: nat, pageBytes: nat)

  datatype Phase = Filling | Reaping | Done

  /** One thread of max_client; failed and pushed are histories. */
  datatype Sender = Sender(n: nat, phase: Phase, sent: nat, completed: nat, queued: nat, inFlight: nat, cq: seq<int>,
                           count: nat, failed: nat, pushed: nat)

  /** One handler of max_server; counted is the part of the shared counter it contributed. */
  datatype Receiver = Receiver(closed: bool, posted: nat, cq: seq<int>, counted: nat)

  datatype Connection = Connection(sender: Sender, stream: nat, receiver: Receiver)

  datatype State = State(connections: seq<Connection>, total: nat)

  // ---- The sender ----

  function NewSender(n: nat): Sender {
    Sender(n, if n > 0 then Filling else Done, 0, 0, 0, 0, [], 0, 0, 0)
  }

  predicate FillGuard(c: Config, s: Sender) {
    s.sent < s.n && s.sent - s.completed < c.ring
  }

  /** One turn: queue a send (or submit when the loop ends or no entry is left), look at a completion, or go round. */
  function SenderTurn(c: Config, s: Sender): Sender
    requires s.phase != Done
  {
    match s.phase
    case Filling =>
      if FillGuard(c, s) && s.queued < c.entries then s.(queued := s.queued + 1, sent := s.sent + 1)
      else s.(phase := Reaping, inFlight := s.inFlight + s.queued, queued := 0)
    case Reaping =>
      if s.cq != [] then
        var rest := s.(cq := s.cq[1..], count := s.count + 1);
        if s.cq[0] < 0 then rest.(failed := s.failed + 1) else rest.(completed := s.completed + 1)
      else s.(count := 0, phase := if s.completed < s.n then Filling else Done)
  }

  function Bytes(res: int): nat { if res < 0 then 0 else res }

  /** The kernel finishes a send: an error, or some part of the buffer pushed into the stream. */
  function FinishSend(s: Sender, res: int): Sender
    requires s.inFlight > 0
  {
    s.(inFlight := s.inFlight - 1, cq := s.cq + [res], pushed := s.pushed + Bytes(res))
  }

  ghost predicate SenderInv(c: Config, s: Sender) {
    && s.completed + s.failed + |s.cq| + s.inFlight + s.queued == s.sent <= s.n
    && s.sent - s.completed <= c.ring
    && s.queued + s.inFlight + |s.cq| + s.count <= c.ring
    && (s.phase != Filling ==> s.queued == 0)
    && (s.phase != Reaping ==> s.count == 0)
    && (s.phase == Done ==> s.completed == s.n)
    && (s.phase == Filling ==> s.completed < s.n)
  }

  /** No completed send pushed more than one buffer. */
  ghost predicate PushBound(c: Config, s: Sender) {
    s.pushed <= (s.completed + s.failed + |s.cq|) * c.pageBytes
  }

  lemma NewSenderOk(c: Config, n: nat)
    ensures SenderInv(c, NewSender(n)) && PushBound(c, NewSender(n))
  {
  }

  lemma SenderTurnKeeps(c: Config, s: Sender)
    requires SenderInv(c, s) && PushBound(c, s) && s.phase != Done
    ensures SenderInv(c, SenderTurn(c, s)) && PushBound(c, SenderTurn(c, s))
  {
    assert SenderTurn(c, s).completed + SenderTurn(c, s).failed + |SenderTurn(c, s).cq| == s.completed + s.failed + |s.cq|;
  }

  lemma FinishSendKeeps(c: Config, s: Sender, res: int)
    requires SenderInv(c, s) && PushBound(c, s) && s.inFlight > 0 && res <= c.pageBytes
    ensures SenderInv(c, FinishSend(s, res)) && PushBound(c, FinishSend(s, res))
  {
    var settled := s.completed + s.failed + |s.cq|;
    Distribute(settled, 1, c.pageBytes);
  }

  /** The null check on the submission entry never fires: between two submits at most RING_SIZE entries are taken. */
  lemma EntryNeverMissing(c: Config, s: Sender)
    requires SenderInv(c, s) && c.entries >= c.ring && s.phase == Filling && FillGuard(c, s)
    ensures s.queued < c.entries
  {
  }

  /** Whenever it submits, its window is used to the full: everything is sent, or RING_SIZE requests are not completed. */
  lemma WindowIsFilled(c: Config, s: Sender)
    requires SenderInv(c, s) && c.entries >= c.ring && s.phase == Filling && SenderTurn(c, s).phase == Reaping
    ensures s.sent == if s.n < s.completed + c.ring then s.n else s.completed + c.ring
  {
    if FillGuard(c, s) { EntryNeverMissing(c, s); }
  }

  /** A sender is gone only with every request completed, none failed and nothing left in the ring. */
  lemma ExitIsExact(c: Config, s: Sender)
    requires SenderInv(c, s)
    ensures s.phase == Done ==> s.completed == s.sent == s.n && s.failed == s.queued == s.inFlight == 0 && s.cq == []
  {
  }

  // ---- The receiver ----

  function NewReceiver(c: Config): Receiver {
    Receiver(false, c.ring, [], 0)
  }

  /** What one completion adds to the counter; an empty or failed read ends the handler. */
  function ReceiverTurn(r: Receiver): Receiver
    requires !r.closed && r.cq != []
  {
    if r.cq[0] <= 0 then r.(closed := true, cq := r.cq[1..])
    else r.(cq := r.cq[1..], posted := r.posted + 1, counted := r.counted + r.cq[0])
  }

  function FinishRead(r: Receiver, res: int): Receiver
    requires r.posted > 0
  {
    r.(posted := r.posted - 1, cq := r.cq + [res])
  }

  /** RING_SIZE reads are outstanding until the handler ends. */
  ghost predicate ReceiverInv(c: Config, r: Receiver) {
    !r.closed ==> r.posted + |r.cq| == c.ring
  }

  /** Bytes read from the stream and not yet counted. */
  function Pending(cq: seq<int>): nat {
    if cq == [] then 0 else Bytes(cq[0]) + Pending(cq[1..])
  }

  lemma {:induction false} PendingAppend(cq: seq<int>, res: int)
    ensures Pending(cq + [res]) == Pending(cq) + Bytes(res)
  {
    if cq != [] {
      assert (cq + [res])[1..] == cq[1..] + [res];
      PendingAppend(cq[1..], res);
    }
  }

  // ---- All connections ----

  datatype Step =
    | SenderStep(i: nat) | ReceiverStep(i: nat)
    | SendDone(i: nat, res: int) | ReadDone(i: nat, res: int)

  predicate Enabled(c: Config, s: State, step: Step) {
    match step
    case SenderStep(i) => i < |s.connections| && s.connections[i].sender.phase != Done
    case ReceiverStep(i) =>
      i < |s.connections| && !s.connections[i].receiver.closed && s.connections[i].receiver.cq != []
    case SendDone(i, res) => i < |s.connections| && s.connections[i].sender.inFlight > 0 && res <= c.pageBytes
    case ReadDone(i, res) =>
      i < |s.connections| && s.connections[i].receiver.posted > 0 && res <= c.pageBytes
      && Bytes(res) <= s.connections[i].stream
      && (res == 0 ==> s.connections[i].stream == 0 && s.connections[i].sender.phase == Done)
  }

  /** What a step does to its connection. */
  function Moved(c: Config, n: Connection, step: Step): Connection
    requires step.SenderStep? ==> n.sender.phase != Done
    requires step.ReceiverStep? ==> !n.receiver.closed && n.receiver.cq != []
    requires step.SendDone? ==> n.sender.inFlight > 0
    requires step.ReadDone? ==> n.receiver.posted > 0 && Bytes(step.res) <= n.stream
  {
    match step
    case SenderStep(_) => n.(sender := SenderTurn(c, n.sender))
    case ReceiverStep(_) => n.(receiver := ReceiverTurn(n.receiver))
    case SendDone(_, res) => n.(sender := FinishSend(n.sender, res), stream := n.stream + Bytes(res))
    case ReadDone(_, res) => n.(receiver := FinishRead(n.receiver, res), stream := n.stream - Bytes(res))
  }

  /** Only a receiver's turn touches the shared counter. */
  function Apply(c: Config, s: State, step: Step): State
    requires Enabled(c, s, step)
  {
    var n := s.connections[step.i];
    s.(connections := s.connections[step.i := Moved(c, n, step)],
       total := s.total + if step.ReceiverStep? then Bytes(n.receiver.cq[0]) else 0)
  }

  function Start(c: Config, counts: seq<nat>): State {
    State(seq(|counts|, i requires 0 <= i < |counts| => Connection(NewSender(counts[i]), 0, NewReceiver(c))), 0)
  }

  ghost predicate Legal(c: Config, s: State, run: seq<Step>)
    decreases |run|
  {
    run == [] || (Enabled(c, s, run[0]) && Legal(c, Apply(c, s, run[0]), run[1..]))
  }

  ghost function After(c: Config, s: State, run: seq<Step>): State
    requires Legal(c, s, run)
    decreases |run|
  {
    if run == [] then s else After(c, Apply(c, s, run[0]), run[1..])
  }

  lemma {:induction false} AppendStep(c: Config, s: State, run: seq<Step>, step: Step)
    requires Legal(c, s, run) && Enabled(c, After(c, s, run), step)
    ensures Legal(c, s, run + [step])
    ensures After(c, s, run + [step]) == Apply(c, After(c, s, run), step)
    decreases |run|
  {
    if run == [] {
      assert (run + [step])[1..] == [];
    } else {
      assert (run + [step])[1..] == run[1..] + [step];
      AppendStep(c, Apply(c, s, run[0]), run[1..], step);
    }
  }

  function Pushed(s: State): seq<nat> {
    seq(|s.connections|, i requires 0 <= i < |s.connections| => s.connections[i].sender.pushed)
  }

  function Counted(s: State): seq<nat> {
    seq(|s.connections|, i requires 0 <= i < |s.connections| => s.connections[i].receiver.counted)
  }

  /** Bytes on their way: in the stream, or read and not yet counted. */
  function UnderWay(s: State): seq<nat> {
    seq(|s.connections|, i requires 0 <= i < |s.connections| =>
      s.connections[i].stream + Pending(s.connections[i].receiver.cq))
  }

  ghost predicate ConnectionInv(c: Config, n: Connection) {
    && SenderInv(c, n.sender) && PushBound(c, n.sender) && ReceiverInv(c, n.receiver)
    && n.sender.pushed == n.stream + Pending(n.receiver.cq) + n.receiver.counted
  }

  ghost predicate Inv(c: Config, s: State, counts: seq<nat>) {
    && |s.connections| == |counts|
    && (forall i :: 0 <= i < |counts| ==> ConnectionInv(c, s.connections[i]) && s.connections[i].sender.n == counts[i])
    && s.total == Sum(Counted(s))
  }

  lemma MovedKeeps(c: Config, n: Connection, step: Step)
    requires ConnectionInv(c, n)
    requires step.SenderStep? ==> n.sender.phase != Done
    requires step.ReceiverStep? ==> !n.receiver.closed && n.receiver.cq != []
    requires step.SendDone? ==> n.sender.inFlight > 0 && step.res <= c.pageBytes
    requires step.ReadDone? ==> n.receiver.posted > 0 && Bytes(step.res) <= n.stream
    ensures ConnectionInv(c, Moved(c, n, step)) && Moved(c, n, step).sender.n == n.sender.n
    ensures Moved(c, n, step).receiver.counted ==
            n.receiver.counted + if step.ReceiverStep? then Bytes(n.receiver.cq[0]) else 0
  {
    match step
    case SenderStep(_) => SenderTurnKeeps(c, n.sender);
    case ReceiverStep(_) =>
    case SendDone(_, res) => FinishSendKeeps(c, n.sender, res);
    case ReadDone(_, res) => PendingAppend(n.receiver.cq, res);
  }

  lemma {:induction false} SumOfZeros(s: seq<nat>)
    requires forall i :: 0 <= i < |s| ==> s[i] == 0
    ensures Sum(s) == 0
  {
    if s != [] { SumOfZeros(s[1..]); }
  }

  lemma StartInv(c: Config, counts: seq<nat>)
    ensures Inv(c, Start(c, counts), counts)
  {
    forall i | 0 <= i < |counts| ensures ConnectionInv(c, Start(c, counts).connections[i]) {
      NewSenderOk(c, counts[i]);
    }
    SumOfZeros(Counted(Start(c, counts)));
  }

  lemma StepKeepsInv(c: Config, s: State, counts: seq<nat>, step: Step)
    requires Inv(c, s, counts) && Enabled(c, s, step)
    ensures Inv(c, Apply(c, s, step), counts)
    ensures s.total <= Apply(c, s, step).total
  {
    var n, t := s.connections[step.i], Apply(c, s, step);
    MovedKeeps(c, n, step);
    SumUpdate(Counted(s), step.i, Moved(c, n, step).receiver.counted);
    assert Counted(t) == Counted(s)[step.i := Moved(c, n, step).receiver.counted];
  }

  /** The counter never goes back, under any interleaving of the threads. */
  lemma {:induction false} RunKeepsInv(c: Config, s: State, counts: seq<nat>, run: seq<Step>)
    requires Inv(c, s, counts) && Legal(c, s, run)
    ensures Inv(c, After(c, s, run), counts)
    ensures s.total <= After(c, s, run).total
    decreases |run|
  {
    if run != [] {
      StepKeepsInv(c, s, counts, run[0]);
      RunKeepsInv(c, Apply(c, s, run[0]), counts, run[1..]);
    }
  }

  // ---- Conservation ----

  lemma {:induction false} SumOfSums(a: seq<nat>, b: seq<nat>, s: seq<nat>)
    requires |a| == |b| == |s|
    requires forall i :: 0 <= i < |s| ==> s[i] == a[i] + b[i]
    ensures Sum(s) == Sum(a) + Sum(b)
  {
    if s != [] { SumOfSums(a[1..], b[1..], s[1..]); }
  }

  lemma {:induction false} SumOfProducts(counts: seq<nat>, p: nat, bound: seq<nat>)
    requires |bound| == |counts| && forall i :: 0 <= i < |counts| ==> bound[i] == counts[i] * p
    ensures Sum(bound) == Sum(counts) * p
  {
    if counts != [] {
      SumOfProducts(counts[1..], p, bound[1..]);
      Distribute(counts[0], Sum(counts[1..]), p);
    }
  }

  /** Whatever the fragmentation: counted plus under way is what was pushed, byte for byte. */
  lemma BytesConserved(c: Config, counts: seq<nat>, run: seq<Step>)
    requires Legal(c, Start(c, counts), run)
    ensures var s := After(c, Start(c, counts), run);
            s.total + Sum(UnderWay(s)) == Sum(Pushed(s))
  {
    StartInv(c, counts);
    RunKeepsInv(c, Start(c, counts), counts, run);
    var s := After(c, Start(c, counts), run);
    SumOfSums(Counted(s), UnderWay(s), Pushed(s));
  }

  /** The counter never passes the bytes of all the requests. */
  lemma CounterBounded(c: Config, counts: seq<nat>, run: seq<Step>)
    requires Legal(c, Start(c, counts), run)
    ensures After(c, Start(c, counts), run).total <= Sum(counts) * c.pageBytes
  {
    StartInv(c, counts);
    RunKeepsInv(c, Start(c, counts), counts, run);
    var s := After(c, Start(c, counts), run);
    var bound := seq(|counts|, i requires 0 <= i < |counts| => counts[i] * c.pageBytes);
    forall i | 0 <= i < |counts| ensures Counted(s)[i] <= bound[i] {
      CountedBounded(c, s.connections[i]);
    }
    SumMonotone(Counted(s), bound);
    SumOfProducts(counts, c.pageBytes, bound);
  }

  lemma CountedBounded(c: Config, n: Connection)
    requires ConnectionInv(c, n)
    ensures n.receiver.counted <= n.sender.n * c.pageBytes
  {
    var settled := n.sender.completed + n.sender.failed + |n.sender.cq|;
    AtMost(settled, n.sender.n, c.pageBytes);
  }

  // ---- What is missing in the end ----

  /** Sends that ended, whether reaped or not. */
  function Ended(k: Sender): nat { k.completed + k.failed + |k.cq| }

  function Settled(s: State): seq<nat> {
    seq(|s.connections|, i requires 0 <= i < |s.connections| => Ended(s.connections[i].sender))
  }

  /** The bytes a send that ends falls short of a whole buffer; a failed one falls short by all of it. */
  function Shortage(c: Config, step: Step): nat {
    if step.SendDone? && Bytes(step.res) < c.pageBytes then c.pageBytes - Bytes(step.res) else 0
  }

  function Missing(c: Config, run: seq<Step>): nat {
    if run == [] then 0 else Shortage(c, run[0]) + Missing(c, run[1..])
  }

  /** No send ended short of a whole buffer. */
  predicate NoneShort(c: Config, run: seq<Step>) {
    forall k :: 0 <= k < |run| ==> Shortage(c, run[k]) == 0
  }

  lemma {:induction false} MissingIffShort(c: Config, run: seq<Step>)
    ensures Missing(c, run) == 0 <==> NoneShort(c, run)
  {
    if run != [] {
      MissingIffShort(c, run[1..]);
      if NoneShort(c, run[1..]) && Shortage(c, run[0]) == 0 {
        forall k | 0 <= k < |run| ensures Shortage(c, run[k]) == 0 {
          if k > 0 { assert run[k] == run[1..][k - 1]; }
        }
      }
    }
  }

  /** What was pushed, against whole buffers for all sends that ended. */
  function Balance(c: Config, s: State): int {
    Sum(Pushed(s)) - Sum(Settled(s)) * c.pageBytes
  }

  lemma MovedBalance(c: Config, n: Connection, step: Step)
    requires step.SenderStep? ==> n.sender.phase != Done
    requires step.ReceiverStep? ==> !n.receiver.closed && n.receiver.cq != []
    requires step.SendDone? ==> n.sender.inFlight > 0 && step.res <= c.pageBytes
    requires step.ReadDone? ==> n.receiver.posted > 0 && Bytes(step.res) <= n.stream
    ensures var k, t := n.sender, Moved(c, n, step).sender;
            var more := if step.SendDone? then 1 else 0;
            && Ended(t) == Ended(k) + more
            && t.pushed + Shortage(c, step) == k.pushed + more * c.pageBytes
  {
  }

  /** A step moves the balance by what its send falls short. */
  lemma StepBalance(c: Config, s: State, step: Step)
    requires Enabled(c, s, step)
    ensures Balance(c, Apply(c, s, step)) + Shortage(c, step) == Balance(c, s)
  {
    MovedBalance(c, s.connections[step.i], step);
    PushedMoves(c, s, step);
    SettledMoves(c, s, step);
    Distribute(Sum(Settled(s)), if step.SendDone? then 1 else 0, c.pageBytes);
  }

  lemma PushedMoves(c: Config, s: State, step: Step)
    requires Enabled(c, s, step)
    ensures var n := s.connections[step.i];
            Sum(Pushed(Apply(c, s, step))) + n.sender.pushed == Sum(Pushed(s)) + Moved(c, n, step).sender.pushed
  {
    var pushed := Moved(c, s.connections[step.i], step).sender.pushed;
    SumUpdate(Pushed(s), step.i, pushed);
    assert Pushed(Apply(c, s, step)) == Pushed(s)[step.i := pushed];
  }

  lemma SettledMoves(c: Config, s: State, step: Step)
    requires Enabled(c, s, step)
    ensures Sum(Settled(Apply(c, s, step))) == Sum(Settled(s)) + if step.SendDone? then 1 else 0
  {
    var n := s.connections[step.i];
    var ended := Ended(Moved(c, n, step).sender);
    assert ended == Ended(n.sender) + if step.SendDone? then 1 else 0 by { MovedBalance(c, n, step); }
    SumUpdate(Settled(s), step.i, ended);
    SettledAfter(c, s, step);
  }

  lemma SettledAfter(c: Config, s: State, step: Step)
    requires Enabled(c, s, step)
    ensures Settled(Apply(c, s, step)) == Settled(s)[step.i := Ended(Moved(c, s.connections[step.i], step).sender)]
  {
  }

  lemma {:induction false} RunBalance(c: Config, s: State, run: seq<Step>)
    requires Legal(c, s, run)
    ensures Balance(c, After(c, s, run)) + Missing(c, run) == Balance(c, s)
    decreases |run|
  {
    if run != [] {
      StepBalance(c, s, run[0]);
      RunBalance(c, Apply(c, s, run[0]), run[1..]);
    }
  }

  lemma StartBalance(c: Config, counts: seq<nat>)
    ensures Balance(c, Start(c, counts)) == 0
  {
    SumOfZeros(Pushed(Start(c, counts)));
    SumOfZeros(Settled(Start(c, counts)));
  }

  /** In any state the counter is behind the bytes of all requests by at least what the balance lacks. */
  lemma TotalWithinBalance(c: Config, s: State, counts: seq<nat>)
    requires Inv(c, s, counts)
    ensures s.total <= Sum(counts) * c.pageBytes + Balance(c, s)
  {
    SumMonotone(Counted(s), Pushed(s));
    SumMonotone(Settled(s), counts);
    AtMost(Sum(Settled(s)), Sum(counts), c.pageBytes);
  }

  /** Every sender has left its loop, and every byte pushed was read and counted. */
  ghost predicate Finished(s: State) {
    && (forall i :: 0 <= i < |s.connections| ==> s.connections[i].sender.phase == Done)
    && (forall i :: 0 <= i < |s.connections| ==> UnderWay(s)[i] == 0)
  }

  lemma FinishedTotal(c: Config, s: State, counts: seq<nat>)
    requires Inv(c, s, counts) && Finished(s)
    ensures s.total == Sum(counts) * c.pageBytes + Balance(c, s)
  {
    forall i | 0 <= i < |counts| ensures Settled(s)[i] == counts[i] && Pushed(s)[i] == Counted(s)[i] {
      ExitIsExact(c, s.connections[i].sender);
      assert UnderWay(s)[i] == 0;
    }
    assert Settled(s) == counts && Pushed(s) == Counted(s);
  }

  /**
   When all senders have left and all streams are drained, the counter lacks exactly what sends fell short: it shows
   the bytes of all the requests if and only if no send was short.
   */
  lemma EverythingArrives(c: Config, counts: seq<nat>, run: seq<Step>)
    requires Legal(c, Start(c, counts), run) && Finished(After(c, Start(c, counts), run))
    ensures After(c, Start(c, counts), run).total + Missing(c, run) == Sum(counts) * c.pageBytes
    ensures After(c, Start(c, counts), run).total == Sum(counts) * c.pageBytes <==> NoneShort(c, run)
  {
    StartInv(c, counts);
    RunKeepsInv(c, Start(c, counts), counts, run);
    StartBalance(c, counts);
    RunBalance(c, Start(c, counts), run);
    FinishedTotal(c, After(c, Start(c, counts), run), counts);
    MissingIffShort(c, run);
  }

  /** Each handler keeps exactly RING_SIZE reads outstanding until it ends. */
  lemma ReadsStayPosted(c: Config, counts: seq<nat>, run: seq<Step>, i: nat)
    requires Legal(c, Start(c, counts), run) && i < |counts|
    ensures |After(c, Start(c, counts), run).connections| == |counts|
    ensures var r := After(c, Start(c, counts), run).connections[i].receiver;
            !r.closed ==> r.posted + |r.cq| == c.ring
  {
    StartInv(c, counts);
    RunKeepsInv(c, Start(c, counts), counts, run);
  }

  /** Once a send has failed, that sender never leaves its loop, in this state or any later one. */
  lemma {:induction false} FailureIsForever(c: Config, s: State, counts: seq<nat>, run: seq<Step>, i: nat)
    requires Inv(c, s, counts) && Legal(c, s, run) && i < |counts|
    requires s.connections[i].sender.failed > 0
    ensures |After(c, s, run).connections| == |counts| && After(c, s, run).connections[i].sender.failed > 0
    ensures After(c, s, run).connections[i].sender.phase != Done
    decreases |run|
  {
    if run != [] {
      StepKeepsInv(c, s, counts, run[0]);
      FailureIsForever(c, Apply(c, s, run[0]), counts, run[1..], i);
    }
  }
}
