/** With how many pages missing the client can leave its loop: any number up to RING_SIZE / 2, and no other. */
module PipelineExit {
  import opened Protocol
  import opened PipelineSafety
  import opened PipelineLiveness

  /** Pages delivered to the client, whether or not it has looked at the completion. */
  function PagesIn(s: State): nat { |Recvs(s.client.cq)| + s.client.iterations }

  predicate CanRun(c: Config) {
    (c.ring >= 4 || c.n == 0) && c.pageSize >= 1 && c.upCapacity >= 1 && c.downCapacity >= 1
  }

  function StepOf(a: Actor): Step {
    match a
    case Handler => ServerStep
    case Sender => KernelSend(0)
    case Receiver => KernelRecv
    case Reader => KernelRead
    case Writer => KernelWrite(0)
  }

  lemma ActorMoves(c: Config, s: State, a: Actor)
    requires CanMove(c, s, a)
    ensures Enabled(c, s, StepOf(a))
    ensures var t := Apply(c, s, StepOf(a));
            Work(c, t) < Work(c, s) && PagesIn(t) <= PagesIn(s) + 1 && t.client.phase == s.client.phase
  {
    StepWork(c, s, StepOf(a));
    if a.Receiver? { RecvsAppend(s.client.cq, RecvDone(s.down[0])); }
    if a.Sender? { RecvsAppend(s.client.cq, SendDone); }
  }

  lemma ClientKeepsPages(c: Config, s: State)
    requires s.client.phase != Exited
    ensures PagesIn(Apply(c, s, ClientStep)) == PagesIn(s)
  {
  }

  // ---- Getting a given number of pages delivered ----

  function ToReaping(p: Phase): nat {
    match p
    case Top => 3
    case Sending => 2
    case Receiving => 1
    case Reaping => 0
    case Exited => 0
  }

  /** Completions arrive only while the client reaps, and it starts a round only with something left to post. */
  ghost predicate Paced(c: Config, s: State) {
    && s.client.phase != Exited
    && (s.client.phase != Reaping ==> s.client.cq == [])
    && (s.client.phase == Top ==> LoopGuard(c, s.client))
  }

  /** Within d phases, either the client acts or it reaps while others can move. */
  ghost predicate MovesWithin(c: Config, s: State, d: nat) {
    (!Stuck(c, s) && ToReaping(s.client.phase) <= d) || ActsWithin(c, s.client, d)
  }

  lemma MovesInOneRound(c: Config, s: State)
    requires CanRun(c) && Reachable(c, s) && s.client.phase != Exited
    ensures MovesWithin(c, s, 3)
  {
    NoDeadlock(c, s);
  }

  /** With nobody else able to move and pages still missing, the client has receives left to post. */
  lemma GoesRoundAgain(c: Config, s: State)
    requires CanRun(c) && Inv(c, s) && Stuck(c, s) && PagesIn(s) < c.n
    requires s.client.phase == Reaping && s.client.cq == []
    ensures LoopGuard(c, s.client) && !BreakGuard(c, s.client)
  {
    TokensAreCounted(c, s);
    assert !CanMove(c, s, Handler) && !CanMove(c, s, Sender) && !CanMove(c, s, Receiver)
           && !CanMove(c, s, Reader) && !CanMove(c, s, Writer);
    if BreakGuard(c, s.client) { BreakMeansAll(c, s.client); }
  }

  lemma ClientStaysPaced(c: Config, s: State)
    requires CanRun(c) && Inv(c, s) && Paced(c, s) && PagesIn(s) < c.n
    requires s.client.phase == Reaping ==> Stuck(c, s)
    ensures Paced(c, Apply(c, s, ClientStep))
  {
    if s.client.phase == Reaping && s.client.cq == [] { GoesRoundAgain(c, s); }
  }

  /** A client turn that does no work brings the next move one phase closer. */
  lemma ClientComesCloser(c: Config, s: State, d: nat)
    requires Paced(c, s) && MovesWithin(c, s, d) && (s.client.phase == Reaping ==> Stuck(c, s))
    requires Paced(c, Apply(c, s, ClientStep)) && Work(c, Apply(c, s, ClientStep)) == Work(c, s)
    ensures d > 0 && MovesWithin(c, Apply(c, s, ClientStep), d - 1)
  {
    var u := Apply(c, s, ClientStep);
    assert !ActsNow(c, s.client);
    ClientTurnsPhase(c, s.client);
    if a :| CanMove(c, s, a) { assert CanMove(c, u, a); }
  }

  lemma WorkLeft(c: Config, s: State)
    requires c.pageSize >= 1 && Reachable(c, s)
    ensures Work(c, s) >= 0
  {
    ReachableInv(c, s);
  }

  /** Someone moves: another actor while the client reaps, the client otherwise. */
  lemma OneMove(c: Config, s: State) returns (u: State)
    requires CanRun(c) && Reachable(c, s) && Paced(c, s) && PagesIn(s) < c.n
    ensures Reachable(c, u) && Paced(c, u) && PagesIn(u) <= PagesIn(s) + 1
    ensures Pipeline(s) <= Pipeline(u)
    ensures Work(c, u) < Work(c, s) || (Work(c, u) == Work(c, s) && u == Apply(c, s, ClientStep)
                                        && (s.client.phase == Reaping ==> Stuck(c, s)))
  {
    if s.client.phase == Reaping && !Stuck(c, s) {
      var a :| CanMove(c, s, a);
      ActorMoves(c, s, a);
      StepReachable(c, s, StepOf(a));
      OnlyAppends(c, s, StepOf(a));
      u := Apply(c, s, StepOf(a));
    } else {
      ReachableInv(c, s);
      StepWork(c, s, ClientStep);
      ClientStaysPaced(c, s);
      ClientKeepsPages(c, s);
      StepReachable(c, s, ClientStep);
      OnlyAppends(c, s, ClientStep);
      u := Apply(c, s, ClientStep);
    }
  }

  /** A step in submission order leaves the pipeline as it is, but for the id it may hand out. */
  lemma OnlyAppends(c: Config, s: State, step: Step)
    requires Enabled(c, s, step) && InOrder(step)
    ensures Pipeline(s) <= Pipeline(Apply(c, s, step))
  {
    StepPipeline(c, s, step);
  }

  lemma PrefixOfPrefix(a: seq<int>, b: seq<int>, d: seq<int>)
    requires a <= b <= d
    ensures a <= d
  {
  }

  lemma {:induction false} Delivers(c: Config, s: State, m: nat, d: nat) returns (t: State)
    requires CanRun(c) && Reachable(c, s) && Paced(c, s) && PagesIn(s) <= m <= c.n && MovesWithin(c, s, d)
    ensures Reachable(c, t) && Paced(c, t) && PagesIn(t) == m && Pipeline(s) <= Pipeline(t)
    decreases Work(c, s), d
  {
    if PagesIn(s) == m { return s; }
    var u := OneMove(c, s);
    WorkLeft(c, s);
    WorkLeft(c, u);
    if Work(c, u) < Work(c, s) {
      MovesInOneRound(c, u);
      t := Delivers(c, u, m, 3);
    } else {
      ClientComesCloser(c, s, d);
      t := Delivers(c, u, m, d - 1);
    }
    PrefixOfPrefix(Pipeline(s), Pipeline(u), Pipeline(t));
  }

  // ---- Leaving with just those ----

  ghost predicate Alone(c: Config, s: State, m: nat) {
    && Reachable(c, s) && PagesIn(s) == m && c.n <= m + c.ring / 2
    && (s.client.phase != Reaping ==> s.client.cq == [])
  }

  lemma ClientActsAlone(c: Config, s: State, m: nat)
    requires CanRun(c) && Alone(c, s, m) && s.client.phase != Exited
    ensures ActsWithin(c, s.client, 3)
  {
    ReachableInv(c, s);
    ActsInOneRound(c, s.client);
  }

  lemma ClientTurnsAlone(c: Config, s: State, m: nat)
    requires CanRun(c) && Alone(c, s, m) && s.client.phase != Exited
    ensures Alone(c, Apply(c, s, ClientStep), m)
  {
    StepReachable(c, s, ClientStep);
    ClientKeepsPages(c, s);
  }

  lemma {:induction false} LeavesWith(c: Config, s: State, m: nat, d: nat) returns (t: State)
    requires CanRun(c) && Alone(c, s, m) && s.client.phase != Exited && ActsWithin(c, s.client, d)
    ensures Reachable(c, t) && t.client.phase == Exited && t.client.iterations == m
    decreases Work(c, s), d
  {
    var u := Apply(c, s, ClientStep);
    ClientTurnsAlone(c, s, m);
    StepWork(c, s, ClientStep);
    WorkLeft(c, s);
    WorkLeft(c, u);
    if u.client.phase == Exited {
      t := u;
    } else if Work(c, u) < Work(c, s) {
      ClientActsAlone(c, u, m);
      t := LeavesWith(c, u, m, 3);
    } else {
      ClientTurnsPhase(c, s.client);
      t := LeavesWith(c, u, m, d - 1);
    }
  }

  ghost predicate CanLeaveShortOf(c: Config, missing: nat) {
    exists s :: Reachable(c, s) && s.client.phase == Exited && s.client.iterations + missing == c.n
  }

  /** The pages missing when the client leaves can be any number up to RING_SIZE / 2, and never more. */
  lemma ShortfallIsExactly(c: Config, missing: nat)
    requires CanRun(c)
    ensures CanLeaveShortOf(c, missing) <==> missing <= c.n && missing <= c.ring / 2
  {
    if missing <= c.n && missing <= c.ring / 2 {
      InitReachable(c);
      var t := Init();
      if missing < c.n {
        MovesInOneRound(c, t);
        t := Delivers(c, t, c.n - missing, 3);
      }
      ClientActsAlone(c, t, c.n - missing);
      t := LeavesWith(c, t, c.n - missing, 3);
    }
    forall s | Reachable(c, s) && s.client.phase == Exited && s.client.iterations + missing == c.n
      ensures missing <= c.n && missing <= c.ring / 2
    {
      ExitShortfall(c, s);
    }
  }

  /** So the client is sure to leave with every page only when it has nothing to request or can never leave. */
  lemma ExitIsCompleteIff(c: Config)
    requires c.pageSize >= 1 && c.upCapacity >= 1 && c.downCapacity >= 1
    ensures (forall s :: Reachable(c, s) && s.client.phase == Exited ==> s.client.iterations == c.n)
            <==> c.n == 0 || c.ring < 4
  {
    if c.n == 0 || c.ring < 4 {
      forall s | Reachable(c, s) && s.client.phase == Exited ensures s.client.iterations == c.n {
        if c.n > 0 { SmallRingNeverSends(c, s); } else { ExitShortfall(c, s); }
      }
    } else {
      ShortfallIsExactly(c, 1);
      assert CanLeaveShortOf(c, 1);
    }
  }

  lemma {:induction false} TwoPlaces<T>(s: seq<T>, x: T)
    requires multiset(s)[x] >= 2
    ensures exists l, m :: 0 <= l < m < |s| && s[l] == s[m]
  {
    var k :| 0 <= k < |s| && s[k] == x;
    if forall j :: 0 <= j < |s| && j != k ==> s[j] != s[k] {
      CountsOnce(s, k);
    } else {
      var j :| 0 <= j < |s| && j != k && s[j] == s[k];
      var l, m := if j < k then j else k, if j < k then k else j;
      assert 0 <= l < m < |s| && s[l] == s[m];
    }
  }

  ghost predicate ReceivesEachOnce(s: State) {
    forall l, m :: 0 <= l < m < |s.client.received| ==> s.client.received[l] != s.client.received[m]
  }

  /** No run receives an id twice exactly when there are at most 2^32 requests: beyond that a complete run does. */
  lemma ReceivedDistinctIff(c: Config)
    requires CanRun(c)
    ensures (forall s :: Reachable(c, s) ==> ReceivesEachOnce(s)) <==> c.n <= TWO_TO_THE_32
  {
    if c.n <= TWO_TO_THE_32 {
      forall s | Reachable(c, s) ensures ReceivesEachOnce(s) {
        forall l, m | 0 <= l < m < |s.client.received| ensures s.client.received[l] != s.client.received[m] {
          ReceivedDistinct(c, s, l, m);
        }
      }
    } else {
      ShortfallIsExactly(c, 0);
      var s :| Reachable(c, s) && s.client.phase == Exited && s.client.iterations + 0 == c.n;
      CompleteRunRepeats(c, s);
    }
  }

  lemma IdsRepeat(c: Config)
    requires c.n > TWO_TO_THE_32
    ensures multiset(c.Ids(c.n))[c.Id(0)] >= 2
  {
    var ids := c.Ids(c.n);
    assert ids[1..][TWO_TO_THE_32 - 1] == c.Id(0);
    assert ids == ids[..1] + ids[1..];
    assert c.Id(0) in ids[..1] && c.Id(0) in ids[1..];
  }

  lemma CompleteRunRepeats(c: Config, s: State)
    requires c.pageSize >= 1 && Reachable(c, s) && s.client.phase == Exited && s.client.iterations == c.n > TWO_TO_THE_32
    ensures !ReceivesEachOnce(s)
  {
    assert multiset(s.client.received) == multiset(c.Ids(c.n)) by {
      Windows(c, s);
      ExitShortfall(c, s);
    }
    IdsRepeat(c);
    TwoPlaces(s.client.received, c.Id(0));
  }
}
