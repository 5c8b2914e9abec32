/** When pages can arrive out of request order, if operations in flight complete in any order. */
module PipelineOvertaking {
  import opened Protocol
  import opened PipelineSafety
  import opened PipelineLiveness
  import opened PipelineExit

  // ---- Two sends in flight ----

  /** Only the client thread has moved. */
  ghost predicate ClientOnly(c: Config, s: State) {
    && Reachable(c, s)
    && s.up == s.down == s.server.writes == [] && s.server.cq == []
    && s.client.cq == [] && s.client.received == [] && s.client.iterations == 0
    && Pipeline(s) == c.Ids(s.client.sendIndex)
  }

  /** With fewer than two sends in flight it has something to do: open its windows, or submit. */
  lemma HasMoreToSend(c: Config, s: State)
    requires CanRun(c) && c.n >= 2 && ClientOnly(c, s) && s.client.phase != Exited && |s.client.sends| < 2
    ensures ActsWithin(c, s.client, 3)
  {
    ReachableInv(c, s);
    ActsInOneRound(c, s.client);
  }

  /** A turn keeps it so, goes on while fewer than two sends are in flight, and brings the second with a submit. */
  lemma TurnsOnly(c: Config, s: State)
    requires CanRun(c) && c.n >= 2 && ClientOnly(c, s) && s.client.phase != Exited && |s.client.sends| < 2
    ensures var t := Apply(c, s, ClientStep);
            && ClientOnly(c, t) && t.client.phase != Exited
            && (|t.client.sends| >= 2 ==> t.client.phase == Reaping)
  {
    ReachableInv(c, s);
    StepReachable(c, s, ClientStep);
    StepPipeline(c, s, ClientStep);
    StepIds(c, s, ClientStep);
    if BreakGuard(c, s.client) { BreakMeansAll(c, s.client); }
  }

  lemma {:induction false} TwoInFlight(c: Config, s: State, d: nat) returns (t: State)
    requires CanRun(c) && c.n >= 2 && ClientOnly(c, s) && s.client.phase != Exited && |s.client.sends| < 2
    requires ActsWithin(c, s.client, d)
    ensures ClientOnly(c, t) && t.client.phase == Reaping && |t.client.sends| >= 2
    decreases Work(c, s), d
  {
    var u := Apply(c, s, ClientStep);
    TurnsOnly(c, s);
    StepWork(c, s, ClientStep);
    WorkLeft(c, s);
    WorkLeft(c, u);
    if |u.client.sends| >= 2 {
      t := u;
    } else if Work(c, u) < Work(c, s) {
      HasMoreToSend(c, u);
      t := TwoInFlight(c, u, 3);
    } else {
      ClientTurnsPhase(c, s.client);
      t := TwoInFlight(c, u, d - 1);
    }
  }

  // ---- The second goes first ----

  lemma SecondFirst(c: Config, s: State) returns (t: State)
    requires c.upCapacity >= 1 && c.n >= 2 && ClientOnly(c, s) && s.client.phase == Reaping && |s.client.sends| >= 2
    ensures Reachable(c, t) && t.client.phase == Reaping && PagesIn(t) == 0
    ensures Pipeline(t) != [] && Pipeline(t)[0] == c.Id(1)
  {
    t := Apply(c, s, KernelSend(1));
    StepReachable(c, s, KernelSend(1));
    ClientOnlyPipeline(c, s);
  }

  lemma ClientOnlyPipeline(c: Config, s: State)
    requires ClientOnly(c, s)
    ensures Pipeline(s) == s.client.sends + s.client.queuedSends
    ensures |s.client.sends| >= 2 ==> s.client.sends[1] == c.Id(1)
  {
    assert Pipeline(s) == s.client.sends + s.client.queuedSends;
    if |s.client.sends| >= 2 { assert s.client.sends[1] == Pipeline(s)[1] == c.Ids(s.client.sendIndex)[1]; }
  }

  /** The client looks at all completions there are. */
  lemma {:induction false} LooksAtAll(c: Config, s: State) returns (t: State)
    requires Reachable(c, s) && (s.client.phase != Reaping ==> s.client.cq == [])
    ensures Reachable(c, t) && t.client.cq == [] && PagesIn(t) == PagesIn(s) && Pipeline(s) <= Pipeline(t)
    decreases |s.client.cq|
  {
    if s.client.cq == [] {
      t := s;
    } else {
      StepReachable(c, s, ClientStep);
      OnlyAppends(c, s, ClientStep);
      ClientKeepsPages(c, s);
      t := LooksAtAll(c, Apply(c, s, ClientStep));
      PrefixOfPrefix(Pipeline(s), Pipeline(Apply(c, s, ClientStep)), Pipeline(t));
    }
  }

  /** Then that page can be the first to arrive. */
  lemma Overtakes(c: Config) returns (t: State)
    requires CanRun(c) && c.n >= 2
    ensures Reachable(c, t) && t.client.received != [] && t.client.received[0] == c.Id(1)
  {
    InitReachable(c);
    InitIsClientOnly(c);
    HasMoreToSend(c, Init());
    var s := TwoInFlight(c, Init(), 3);
    s := SecondFirst(c, s);
    MovesInOneRound(c, s);
    var u := Delivers(c, s, 1, 3);
    t := LooksAtAll(c, u);
    PrefixOfPrefix(Pipeline(s), Pipeline(u), Pipeline(t));
    ReachableInv(c, t);
    assert |t.client.received| == 1 && t.client.received[0] == Pipeline(t)[0];
  }

  lemma InitIsClientOnly(c: Config)
    ensures ClientOnly(c, Init())
  {
    InitReachable(c);
    assert c.Ids(0) == [] && Pipeline(Init()) == [];
  }

  // ---- The exact condition ----

  ghost predicate ReceivesInOrder(c: Config, s: State) {
    s.client.received == c.Ids(|s.client.received|)
  }

  /** Pages are sure to arrive in request order exactly when there is at most one request, or the ring lets none be sent. */
  lemma InOrderIff(c: Config)
    requires c.pageSize >= 1 && c.upCapacity >= 1 && c.downCapacity >= 1
    ensures (forall s :: Reachable(c, s) ==> ReceivesInOrder(c, s)) <==> c.n <= 1 || c.ring < 4
  {
    if c.n <= 1 || c.ring < 4 {
      forall s | Reachable(c, s) ensures ReceivesInOrder(c, s) { AtMostOneInOrder(c, s); }
    } else {
      var s := Overtakes(c);
      assert c.Ids(|s.client.received|)[0] == c.Id(0) != c.Id(1);
      assert !ReceivesInOrder(c, s);
    }
  }

  lemma AtMostOneInOrder(c: Config, s: State)
    requires c.pageSize >= 1 && Reachable(c, s) && (c.n <= 1 || c.ring < 4)
    ensures ReceivesInOrder(c, s)
  {
    if c.n > 0 && c.ring < 4 {
      SmallRingNeverSends(c, s);
    } else if s.client.received != [] {
      NoMoreThanRequested(c, s);
      var k := ReceivedWasRequested(c, s, 0);
      assert s.client.received == [c.Id(0)];
    }
  }

  lemma NoMoreThanRequested(c: Config, s: State)
    requires c.pageSize >= 1 && Reachable(c, s)
    ensures |s.client.received| <= c.n
  {
    ReachableInv(c, s);
  }

  /** Two requests, a ring of eight entries: page 1 is received first. */
  lemma OvertakingIsPossible()
    ensures var c := Config(8, 1, 0, 2, 2, 2);
            exists s :: Reachable(c, s) && s.client.received != [] && s.client.received[0] == 1
  {
    var s := Overtakes(Config(8, 1, 0, 2, 2, 2));
  }
}
