/** Progress of the page protocol: no deadlock, a bound on useful work, and when the client gets to leave its loop. */
module PipelineLiveness {
  import opened Protocol
  import opened PipelineSafety

  /** Work left, linear in the number of requests; each stage weighs one more than the stages it turns into. */
  function Work(c: Config, s: State): int {
    var k, v := s.client, s.server;
    14 * (c.n - k.sendIndex) + 13 * |k.queuedSends| + 12 * |k.sends| + 9 * |s.up|
    + 8 * |Reads(v.cq)| + 6 * |v.writes| + 2 * WritesIn(v.cq) + 3 * |s.down|
    + 2 * (c.n - k.recvIndex) + k.queuedRecvs + 2 * |k.cq| + k.count
    + (if v.handled then 1 else 0) + PrologueLeft(c, v)
  }

  function PrologueLeft(c: Config, v: Server): nat {
    if v.started then 0 else 1 + if v.queuedReads < c.SendWindow() then c.SendWindow() - v.queuedReads else 0
  }

  predicate SameButPhase(s: State, t: State) {
    t == s.(client := s.client.(phase := t.client.phase))
  }

  lemma ClientWork(c: Config, s: State)
    requires s.client.phase != Exited
    ensures var t := Apply(c, s, ClientStep);
            Work(c, t) < Work(c, s) || (Work(c, t) == Work(c, s) && SameButPhase(s, t))
  {
    var t := Apply(c, s, ClientStep);
    if s.client.phase == Receiving && !RecvGuard(c, s.client) && s.client.queuedSends == [] && s.client.queuedRecvs == 0 {
      assert SameButPhase(s, t);
    }
  }

  /** Every step either does useful work or is the client thread going round its loop. */
  lemma StepWork(c: Config, s: State, step: Step)
    requires Enabled(c, s, step)
    ensures var t := Apply(c, s, step);
            Work(c, t) < Work(c, s) || (Work(c, t) == Work(c, s) && step == ClientStep && SameButPhase(s, t))
  {
    match step
    case ClientStep => ClientWork(c, s);
    case ServerStep => ServerWork(c, s);
    case KernelSend(i) =>
    case KernelRecv =>
    case KernelRead => ReadsAppend(s.server.cq, ReadDone(s.up[0]));
    case KernelWrite(i) => ReadsAppend(s.server.cq, WriteDone);
  }

  lemma ServerWork(c: Config, s: State)
    requires ServerEnabled(s.server)
    ensures Work(c, Apply(c, s, ServerStep)) < Work(c, s)
  {
  }

  /** The steps of a run that do useful work. */
  ghost function UsefulSteps(c: Config, s: State, run: seq<Step>): nat
    requires Legal(c, s, run)
    decreases |run|
  {
    if run == [] then 0
    else (if Work(c, Apply(c, s, run[0])) < Work(c, s) then 1 else 0) + UsefulSteps(c, Apply(c, s, run[0]), run[1..])
  }

  lemma {:induction false} UsefulStepsBounded(c: Config, s: State, run: seq<Step>)
    requires Legal(c, s, run)
    ensures UsefulSteps(c, s, run) + Work(c, After(c, s, run)) <= Work(c, s)
    decreases |run|
  {
    if run != [] {
      StepWork(c, s, run[0]);
      UsefulStepsBounded(c, Apply(c, s, run[0]), run[1..]);
    }
  }

  /** However long a run is, at most 16 * n + q + 1 of its steps do useful work. */
  lemma UsefulWorkIsLinear(c: Config, run: seq<Step>)
    requires c.pageSize >= 1 && Legal(c, Init(), run)
    ensures UsefulSteps(c, Init(), run) <= 16 * c.n + c.ring / 4 + 1
  {
    UsefulStepsBounded(c, Init(), run);
    ReachableInv(c, After(c, Init(), run));
  }

  // ---- No deadlock ----

  /** Everyone but the client thread, which is always able to move. */
  datatype Actor = Handler | Sender | Receiver | Reader | Writer

  predicate CanMove(c: Config, s: State, a: Actor) {
    match a
    case Handler => ServerEnabled(s.server)
    case Sender => s.client.sends != [] && |s.up| < c.upCapacity
    case Receiver => s.client.recvs > 0 && s.down != []
    case Reader => s.server.openReads > 0 && s.up != []
    case Writer => s.server.writes != [] && |s.down| < c.downCapacity
  }

  predicate By(step: Step, a: Actor) {
    match a
    case Handler => step.ServerStep?
    case Sender => step.KernelSend?
    case Receiver => step.KernelRecv?
    case Reader => step.KernelRead?
    case Writer => step.KernelWrite?
  }

  /** The client thread does something useful, or leaves, in its current phase. */
  predicate ActsNow(c: Config, k: Client) {
    match k.phase
    case Top => !LoopGuard(c, k)
    case Sending => SendGuard(c, k)
    case Receiving => RecvGuard(c, k) || k.queuedSends != [] || k.queuedRecvs > 0
    case Reaping => k.cq != [] || k.count > 0 || BreakGuard(c, k)
    case Exited => false
  }

  function NextPhase(p: Phase): Phase {
    match p
    case Top => Sending
    case Sending => Receiving
    case Receiving => Reaping
    case Reaping => Top
    case Exited => Exited
  }

  /** It does so within d further phases, if nothing else changes. */
  predicate ActsWithin(c: Config, k: Client, d: nat)
    decreases d
  {
    ActsNow(c, k) || (d > 0 && ActsWithin(c, k.(phase := NextPhase(k.phase)), d - 1))
  }

  /** Nobody but the client can move. */
  ghost predicate Stuck(c: Config, s: State) {
    forall a :: !CanMove(c, s, a)
  }

  /** Short of everyone else being stuck, the client has something to do somewhere in its loop. */
  lemma StuckMeansClientActs(c: Config, s: State)
    requires (c.ring >= 4 || c.n == 0) && c.upCapacity >= 1 && c.downCapacity >= 1
    requires Inv(c, s) && s.client.phase != Exited
    requires Stuck(c, s)
    ensures SendGuard(c, s.client) || RecvGuard(c, s.client) || !LoopGuard(c, s.client)
            || s.client.cq != [] || s.client.queuedSends != [] || s.client.queuedRecvs > 0
  {
    TokensAreCounted(c, s);
    assert !CanMove(c, s, Handler) && !CanMove(c, s, Sender) && !CanMove(c, s, Receiver)
           && !CanMove(c, s, Reader) && !CanMove(c, s, Writer);
  }

  lemma ActsInOneRound(c: Config, k: Client)
    requires k.phase != Exited
    requires SendGuard(c, k) || RecvGuard(c, k) || !LoopGuard(c, k) || k.cq != [] || k.queuedSends != [] || k.queuedRecvs > 0
    ensures ActsWithin(c, k, 3)
  {
    var k1 := k.(phase := NextPhase(k.phase));
    var k2 := k1.(phase := NextPhase(k1.phase));
    var k3 := k2.(phase := NextPhase(k2.phase));
    assert ActsNow(c, k) || ActsNow(c, k1) || ActsNow(c, k2) || ActsNow(c, k3);
    assert ActsWithin(c, k3, 0) == ActsNow(c, k3);
    assert ActsWithin(c, k2, 1) == (ActsNow(c, k2) || ActsWithin(c, k3, 0));
    assert ActsWithin(c, k1, 2) == (ActsNow(c, k1) || ActsWithin(c, k2, 1));
  }

  /** No reachable state before the client leaves is a deadlock: someone can move, or the client acts within one round. */
  lemma NoDeadlock(c: Config, s: State)
    requires (c.ring >= 4 || c.n == 0) && c.pageSize >= 1 && c.upCapacity >= 1 && c.downCapacity >= 1
    requires Reachable(c, s) && s.client.phase != Exited
    ensures (exists a :: CanMove(c, s, a)) || ActsWithin(c, s.client, 3)
  {
    ReachableInv(c, s);
    if Stuck(c, s) {
      StuckMeansClientActs(c, s);
      ActsInOneRound(c, s.client);
    }
  }

  // ---- Every fair run exits ----

  datatype Behavior = Behavior(state: nat -> State, step: nat -> Step)

  ghost predicate Follows(c: Config, b: Behavior, i: nat) {
    || (Enabled(c, b.state(i), b.step(i)) && b.state(i + 1) == Apply(c, b.state(i), b.step(i)))
    || (b.state(i).client.phase == Exited && b.state(i + 1) == b.state(i))
  }

  ghost predicate IsBehavior(c: Config, b: Behavior) {
    b.state(0) == Init() && forall i: nat :: Follows(c, b, i)
  }

  /** From i on, there is a moment when a cannot move or does. */
  ghost predicate Served(c: Config, b: Behavior, a: Actor, i: nat) {
    exists j: nat :: i <= j && (!CanMove(c, b.state(j), a) || By(b.step(j), a))
  }

  /** Weak fairness towards the server thread and the four directions of kernel work. */
  ghost predicate Fair(c: Config, b: Behavior) {
    forall a: Actor, i: nat :: Served(c, b, a, i)
  }

  lemma {:induction false} BehaviorReaches(c: Config, b: Behavior, i: nat)
    requires IsBehavior(c, b)
    ensures Reachable(c, b.state(i))
  {
    if i == 0 {
      InitReachable(c);
    } else {
      BehaviorReaches(c, b, i - 1);
      assert Follows(c, b, i - 1);
      if Enabled(c, b.state(i - 1), b.step(i - 1)) { StepReachable(c, b.state(i - 1), b.step(i - 1)); }
    }
  }

  ghost predicate Gone(b: Behavior, i: nat) {
    b.state(i).client.phase == Exited
  }

  /** Between i and j either some work is done or the client leaves, or only its phase changes. */
  lemma {:induction false} QuietUntil(c: Config, b: Behavior, i: nat, j: nat) returns (m: nat)
    requires IsBehavior(c, b) && i <= j
    ensures Gone(b, m) || Work(c, b.state(m)) < Work(c, b.state(i)) ||
            (m == j && SameButPhase(b.state(i), b.state(j)) && Work(c, b.state(j)) == Work(c, b.state(i)))
    decreases j - i
  {
    if i == j || Gone(b, i) {
      m := i;
    } else {
      assert Follows(c, b, i);
      StepWork(c, b.state(i), b.step(i));
      if Work(c, b.state(i + 1)) < Work(c, b.state(i)) {
        m := i + 1;
      } else {
        m := QuietUntil(c, b, i + 1, j);
      }
    }
  }

  lemma ActorGetsServed(c: Config, b: Behavior, i: nat, a: Actor) returns (m: nat)
    requires IsBehavior(c, b) && Fair(c, b) && CanMove(c, b.state(i), a)
    ensures Gone(b, m) || Work(c, b.state(m)) < Work(c, b.state(i))
  {
    assert Served(c, b, a, i);
    var j: nat :| i <= j && (!CanMove(c, b.state(j), a) || By(b.step(j), a));
    m := QuietUntil(c, b, i, j);
    if !Gone(b, m) && Work(c, b.state(m)) >= Work(c, b.state(i)) {
      assert Follows(c, b, j);
      StepWork(c, b.state(j), b.step(j));
      m := j + 1;
    }
  }

  lemma ClientTurnsPhase(c: Config, k: Client)
    requires k.phase != Exited && !ActsNow(c, k)
    ensures ClientTurn(c, k) == k.(phase := NextPhase(k.phase))
  {
    if k.phase == Receiving { assert k.sends + [] == k.sends; }
  }

  /** When only the client can move, it acts within the round. */
  lemma {:induction false} ClientGetsThere(c: Config, b: Behavior, i: nat, d: nat) returns (m: nat)
    requires IsBehavior(c, b) && !Gone(b, i)
    requires Stuck(c, b.state(i)) && ActsWithin(c, b.state(i).client, d)
    ensures Gone(b, m) || Work(c, b.state(m)) < Work(c, b.state(i))
    decreases d
  {
    var s := b.state(i);
    assert Follows(c, b, i);
    assert !CanMove(c, s, Handler) && !CanMove(c, s, Sender) && !CanMove(c, s, Receiver)
           && !CanMove(c, s, Reader) && !CanMove(c, s, Writer);
    assert b.step(i) == ClientStep;
    StepWork(c, s, ClientStep);
    m := i + 1;
    if !ActsNow(c, s.client) {
      ClientTurnsPhase(c, s.client);
      assert Stuck(c, b.state(i + 1)) by {
        var t := b.state(i + 1);
        forall a ensures !CanMove(c, t, a) { assert !CanMove(c, s, a); }
      }
      m := ClientGetsThere(c, b, i + 1, d - 1);
    }
  }

  lemma SomethingHappens(c: Config, b: Behavior, i: nat) returns (m: nat)
    requires (c.ring >= 4 || c.n == 0) && c.pageSize >= 1 && c.upCapacity >= 1 && c.downCapacity >= 1
    requires IsBehavior(c, b) && Fair(c, b) && !Gone(b, i)
    ensures Gone(b, m) || Work(c, b.state(m)) < Work(c, b.state(i))
  {
    BehaviorReaches(c, b, i);
    NoDeadlock(c, b.state(i));
    if a :| CanMove(c, b.state(i), a) {
      m := ActorGetsServed(c, b, i, a);
    } else {
      m := ClientGetsThere(c, b, i, 3);
    }
  }

  lemma {:induction false} ExitsFrom(c: Config, b: Behavior, i: nat) returns (m: nat)
    requires (c.ring >= 4 || c.n == 0) && c.pageSize >= 1 && c.upCapacity >= 1 && c.downCapacity >= 1
    requires IsBehavior(c, b) && Fair(c, b)
    ensures Gone(b, m)
    decreases Work(c, b.state(i))
  {
    if Gone(b, i) {
      m := i;
    } else {
      m := SomethingHappens(c, b, i);
      if !Gone(b, m) {
        BehaviorReaches(c, b, m);
        ReachableInv(c, b.state(m));
        BehaviorReaches(c, b, i);
        ReachableInv(c, b.state(i));
        m := ExitsFrom(c, b, m);
      }
    }
  }

  // ---- There are fair runs ----

  /** Whose turn the k-th is, going round everyone; the client thread has the last turn of each round. */
  function TurnOf(k: nat): Step {
    match k % 6
    case 0 => ServerStep
    case 1 => KernelSend(0)
    case 2 => KernelRecv
    case 3 => KernelRead
    case 4 => KernelWrite(0)
    case _ => ClientStep
  }

  /** When the one whose turn it is cannot move, the client does. */
  function TakenAt(c: Config, s: State, k: nat): Step {
    if Enabled(c, s, TurnOf(k)) then TurnOf(k) else ClientStep
  }

  function StateAt(c: Config, k: nat): State {
    if k == 0 then Init()
    else
      var s := StateAt(c, k - 1);
      if Enabled(c, s, TakenAt(c, s, k - 1)) then Apply(c, s, TakenAt(c, s, k - 1)) else s
  }

  function RoundRobin(c: Config): Behavior {
    Behavior((k: nat) => StateAt(c, k), (k: nat) => TakenAt(c, StateAt(c, k), k))
  }

  function PlaceOf(a: Actor): nat {
    match a
    case Handler => 0
    case Sender => 1
    case Receiver => 2
    case Reader => 3
    case Writer => 4
  }

  /** Going round is a run, and a fair one, so FairRunsExit speaks of runs that there are. */
  lemma RoundRobinIsFair(c: Config)
    ensures IsBehavior(c, RoundRobin(c)) && Fair(c, RoundRobin(c))
  {
    var b := RoundRobin(c);
    forall i: nat ensures Follows(c, b, i) { RoundRobinFollows(c, i); }
    forall a: Actor, i: nat ensures Served(c, b, a, i) {
      RoundRobinServes(c, a, i);
    }
  }

  lemma RoundRobinServes(c: Config, a: Actor, i: nat)
    ensures Served(c, RoundRobin(c), a, i)
  {
    var b, j := RoundRobin(c), NextTurn(i, PlaceOf(a));
    GetsItsTurn(c, b.state(j), a, j);
    assert i <= j && (!CanMove(c, b.state(j), a) || By(b.step(j), a));
  }

  /** A moment from i on that has this place in its round. */
  function NextTurn(i: nat, place: nat): (j: nat)
    requires place < 6
    ensures i <= j && j % 6 == place
  {
    6 * i + place
  }

  lemma RoundRobinFollows(c: Config, i: nat)
    ensures Follows(c, RoundRobin(c), i)
  {
    var b := RoundRobin(c);
    if Enabled(c, StateAt(c, i), TakenAt(c, StateAt(c, i), i)) {
      assert b.state(i + 1) == Apply(c, b.state(i), b.step(i));
    } else {
      OnlyWhenGone(c, StateAt(c, i), i);
      assert b.state(i + 1) == b.state(i);
    }
  }

  lemma OnlyWhenGone(c: Config, s: State, k: nat)
    requires !Enabled(c, s, TakenAt(c, s, k))
    ensures s.client.phase == Exited
  {
  }

  lemma GetsItsTurn(c: Config, s: State, a: Actor, j: nat)
    requires j % 6 == PlaceOf(a)
    ensures !CanMove(c, s, a) || By(TakenAt(c, s, j), a)
  {
  }

  // ---- A ring of fewer than four entries ----

  /** The send window is then empty: the client spins without ever sending. */
  ghost predicate Spinning(s: State) {
    s.client.phase != Exited && s.client.sendIndex == s.client.recvIndex == 0
  }

  lemma {:induction false} SpinsForever(c: Config, s: State, run: seq<Step>)
    requires c.ring < 4 && c.n > 0 && Spinning(s) && Legal(c, s, run)
    ensures Spinning(After(c, s, run))
    decreases |run|
  {
    if run != [] {
      SpinsForever(c, Apply(c, s, run[0]), run[1..]);
    }
  }

  lemma SmallRingNeverSends(c: Config, s: State)
    requires c.pageSize >= 1 && c.ring < 4 && c.n > 0 && Reachable(c, s)
    ensures s.client.phase != Exited && s.client.sendIndex == 0
    ensures s.client.sends == s.client.queuedSends == s.up == s.down == s.client.received == []
  {
    var run :| Legal(c, Init(), run) && After(c, Init(), run) == s;
    SpinsForever(c, Init(), run);
    ReachableInv(c, s);
  }

  /** A fair run leaves the client's loop exactly when the ring has four entries or there is nothing to request. */
  lemma FairRunsExit(c: Config, b: Behavior)
    requires c.pageSize >= 1 && c.upCapacity >= 1 && c.downCapacity >= 1
    requires IsBehavior(c, b) && Fair(c, b)
    ensures (exists i: nat :: Gone(b, i)) <==> c.ring >= 4 || c.n == 0
  {
    if c.ring >= 4 || c.n == 0 {
      var m := ExitsFrom(c, b, 0);
    } else {
      forall i: nat ensures !Gone(b, i) {
        BehaviorReaches(c, b, i);
        SmallRingNeverSends(c, b.state(i));
      }
    }
  }
}
