/** What holds in every state any run of the page protocol can reach. */
module PipelineSafety {
  import opened Protocol

  lemma {:induction false} RunKeepsInv(c: Config, s: State, run: seq<Step>)
    requires c.pageSize >= 1 && Inv(c, s) && Legal(c, s, run)
    ensures Inv(c, After(c, s, run))
    decreases |run|
  {
    if run != [] {
      StepKeepsInv(c, s, run[0]);
      RunKeepsInv(c, Apply(c, s, run[0]), run[1..]);
    }
  }

  lemma ReachableInv(c: Config, s: State)
    requires c.pageSize >= 1 && Reachable(c, s)
    ensures Inv(c, s) && TokenCount(s)
  {
    InitInv(c);
    var run :| Legal(c, Init(), run) && After(c, Init(), run) == s;
    RunKeepsInv(c, Init(), run);
    TokensAreCounted(c, s);
  }

  /** The two windows hold throughout, although each guard looks at the counters only before its own increment. */
  lemma Windows(c: Config, s: State)
    requires c.pageSize >= 1 && Reachable(c, s)
    ensures s.client.iterations <= s.client.recvIndex <= s.client.sendIndex <= c.n
    ensures s.client.sendIndex - s.client.recvIndex <= c.ring / 4
    ensures s.client.recvIndex - s.client.iterations <= c.ring / 2
    ensures s.client.totalReceived == s.client.iterations * (c.pageSize * 4)
  {
    ReachableInv(c, s);
  }

  function Least(a: int, b: int): int { if a < b then a else b }

  /**
   When the client thread leaves a filling loop, its window is used to the full: the requests sent are all there are
   or RING_SIZE / 4 more than the receives posted, the receives posted are one for each request sent or RING_SIZE / 2
   more than the pages received.
   */
  lemma WindowsAreFilled(c: Config, s: State)
    requires c.pageSize >= 1 && Reachable(c, s) && s.client.phase in {Sending, Receiving}
    ensures var k, t := s.client, Apply(c, s, ClientStep).client;
            && (k.phase == Sending && t.phase == Receiving ==> k.sendIndex == Least(c.n, k.recvIndex + c.ring / 4))
            && (k.phase == Receiving && t.phase == Reaping ==> k.recvIndex == Least(k.sendIndex, k.iterations + c.ring / 2))
  {
    Windows(c, s);
  }

  /** io_uring_get_sqe never fails on the client: between two submits at most q sends and h receives are queued. */
  lemma ClientSubmissionFits(c: Config, s: State)
    requires c.pageSize >= 1 && Reachable(c, s)
    ensures |s.client.queuedSends| <= c.ring / 4 && s.client.queuedRecvs <= c.ring / 2
    ensures |s.client.queuedSends| + s.client.queuedRecvs <= c.ring
  {
    ReachableInv(c, s);
  }

  /** So whenever one of the two filling loops goes on, there is an entry left to take. */
  lemma EntryLeft(c: Config, s: State)
    requires c.pageSize >= 1 && Reachable(c, s)
    requires (s.client.phase == Sending && SendGuard(c, s.client)) || (s.client.phase == Receiving && RecvGuard(c, s.client))
    ensures |s.client.queuedSends| + s.client.queuedRecvs < c.ring
  {
    ReachableInv(c, s);
  }

  /** The client's completion queue of 2 * RING_SIZE slots never overflows, counting the slots not yet advanced over. */
  lemma ClientCompletionsFit(c: Config, s: State)
    requires c.pageSize >= 1 && Reachable(c, s)
    ensures |s.client.cq| + s.client.count <= Outstanding(s.client) <= c.ring / 4 + 2 * (c.ring / 2) <= 2 * c.ring
  {
    ReachableInv(c, s);
  }

  /** Nor on the server: its prologue queues q reads, and each answer queues one write and one read. */
  lemma ServerSubmissionFits(c: Config, s: State)
    requires c.pageSize >= 1 && Reachable(c, s)
    ensures s.server.queuedReads <= c.ring / 4 <= c.ring
    ensures s.server.cq != [] ==> 2 <= c.ring
  {
    ReachableInv(c, s);
  }

  /** However far the client gets in reaping, it has reaped at least as many sends as pages. */
  lemma {:induction false} PrefixBallot(ahead: int, cq: seq<ClientCqe>, m: nat)
    requires Ballot(ahead, cq) && m <= |cq|
    ensures |Recvs(cq[..m])| <= ahead + SendsIn(cq[..m])
    decreases m
  {
    if m > 0 {
      assert cq[..m][1..] == cq[1..][..m - 1];
      PrefixBallot(if cq[0].SendDone? then ahead + 1 else ahead - 1, cq[1..], m - 1);
    }
  }

  lemma SendsReapedFirst(c: Config, s: State, m: nat)
    requires c.pageSize >= 1 && Reachable(c, s) && m <= |s.client.cq|
    ensures s.client.iterations + |Recvs(s.client.cq[..m])| <= s.client.sendsReaped + SendsIn(s.client.cq[..m])
  {
    ReachableInv(c, s);
    PrefixBallot(s.client.sendsReaped - s.client.iterations, s.client.cq, m);
  }

  /**
   The server puts no limit on its writes, yet those not reaped never exceed the client's two windows together,
   and with its reads it never has more than RING_SIZE operations outstanding.
   */
  lemma ServerStaysBounded(c: Config, s: State)
    requires c.pageSize >= 1 && Reachable(c, s)
    ensures ServerWrites(s.server) <= c.ring / 4 + c.ring / 2
    ensures s.server.openReads + |s.server.writes| + |s.server.cq| <= 2 * (c.ring / 4) + c.ring / 2 <= c.ring
    ensures c.ring >= 1 ==> |s.server.cq| + (if s.server.handled then 1 else 0) <= 2 * c.ring
  {
    ReachableInv(c, s);
    if WritesIn(s.server.cq) > 0 {
      LagBounds(s.server.cq, 0, |s.server.writes|, c.SendWindow() + c.RecvWindow() - 1);
    }
  }

  /** Counting what its prologue has queued but not submitted as well. */
  lemma ServerOperationsFit(c: Config, s: State)
    requires c.pageSize >= 1 && Reachable(c, s)
    ensures s.server.queuedReads + s.server.openReads + |s.server.writes| + |s.server.cq| <= 2 * (c.ring / 4) + c.ring / 2
  {
    ReachableInv(c, s);
    ServerStaysBounded(c, s);
  }

  /** The read pool is exact: once started, q reads are posted or completed and unanswered, never more or fewer. */
  lemma ReadPoolConstant(c: Config, s: State)
    requires c.pageSize >= 1 && Reachable(c, s) && s.server.started
    ensures s.server.openReads + |Reads(s.server.cq)| == c.ring / 4
  {
    ReachableInv(c, s);
  }

  // ---- Requests answered ----

  /** Pages the server has queued so far: still being written, on their way, completed or received. */
  function Answered(s: State): nat {
    |s.client.received| + |Recvs(s.client.cq)| + |s.down| + |s.server.writes|
  }

  predicate Answers(s: State, step: Step) {
    step == ServerStep && s.server.started && !s.server.handled && s.server.cq != [] && s.server.cq[0].ReadDone?
  }

  /** Only the handler's turn at a completed read adds one; every other step keeps all of them. */
  lemma AnsweredOnce(c: Config, s: State, step: Step)
    requires Enabled(c, s, step)
    ensures Answered(Apply(c, s, step)) == Answered(s) + if Answers(s, step) then 1 else 0
  {
    match step
    case ClientStep =>
    case ServerStep =>
    case KernelSend(i) => RecvsAppend(s.client.cq, SendDone);
    case KernelRecv => RecvsAppend(s.client.cq, RecvDone(s.down[0]));
    case KernelRead =>
    case KernelWrite(i) =>
  }

  // ---- Exactly once ----

  /** The ids not handed out yet. */
  function Unsent(c: Config, s: State): seq<int>
    requires s.client.sendIndex <= c.n
  {
    seq(c.n - s.client.sendIndex, j requires 0 <= j => c.Id(s.client.sendIndex + j))
  }

  lemma IdsDistinct(c: Config, j: nat, k: nat)
    requires c.n <= TWO_TO_THE_32 && j < k < c.n
    ensures c.Id(j) != c.Id(k)
  {
  }

  /** Ids 2^32 apart are the same, so a thread's ids differ exactly up to that many. */
  lemma IdsDistinctIff(c: Config)
    ensures (forall j: nat, k: nat :: j < k < c.n ==> c.Id(j) != c.Id(k)) <==> c.n <= TWO_TO_THE_32
  {
    if c.n <= TWO_TO_THE_32 {
      forall j: nat, k: nat | j < k < c.n ensures c.Id(j) != c.Id(k) { IdsDistinct(c, j, k); }
    } else {
      assert c.Id(0) == c.Id(TWO_TO_THE_32);
    }
  }

  lemma CountsOnce<T>(s: seq<T>, k: nat)
    requires k < |s|
    requires forall j :: 0 <= j < |s| && j != k ==> s[j] != s[k]
    ensures multiset(s)[s[k]] == 1
  {
    assert s == s[..k] + [s[k]] + s[k + 1..];
    assert s[k] !in s[..k] && s[k] !in s[k + 1..];
  }

  /**
   Under every interleaving and execution order, each id of the thread's range is in exactly one place: not yet
   sent, queued or in flight as a send, in the socket, in a server read, in a server write, in a page on its way back,
   in a completed receive, or received. Nothing is lost, duplicated or invented.
   */
  lemma ExactlyOnce(c: Config, s: State)
    requires c.pageSize >= 1 && c.n <= TWO_TO_THE_32 && Reachable(c, s)
    ensures s.client.sendIndex <= c.n
    ensures multiset(Pipeline(s) + Unsent(c, s)) == multiset(c.Ids(c.n))
    ensures forall k :: 0 <= k < c.n ==> multiset(Pipeline(s) + Unsent(c, s))[c.Id(k)] == 1
  {
    ReachableInv(c, s);
    assert c.Ids(s.client.sendIndex) + Unsent(c, s) == c.Ids(c.n);
    forall k | 0 <= k < c.n ensures multiset(c.Ids(c.n))[c.Id(k)] == 1 {
      forall j | 0 <= j < c.n && j != k ensures c.Id(j) != c.Id(k) {
        if j < k { IdsDistinct(c, j, k); } else { IdsDistinct(c, k, j); }
      }
      CountsOnce(c.Ids(c.n), k);
    }
  }

  /** Every id received was asked for. */
  lemma ReceivedWasRequested(c: Config, s: State, m: nat) returns (k: nat)
    requires c.pageSize >= 1 && Reachable(c, s) && m < |s.client.received|
    ensures k < s.client.sendIndex <= c.n && s.client.received[m] == c.Id(k)
  {
    ReachableInv(c, s);
    ReceivedPart(c, s);
    var ids := c.Ids(s.client.sendIndex);
    assert s.client.received[m] in multiset(s.client.received);
    assert s.client.received[m] in ids;
    k :| k < |ids| && ids[k] == s.client.received[m];
  }

  /** And none is received twice. */
  lemma ReceivedDistinct(c: Config, s: State, l: nat, m: nat)
    requires c.pageSize >= 1 && c.n <= TWO_TO_THE_32 && Reachable(c, s) && l < m < |s.client.received|
    ensures s.client.received[l] != s.client.received[m]
  {
    var k := ReceivedWasRequested(c, s, m);
    ExactlyOnce(c, s);
    OncePrefix(s.client.received, Pipeline(s) + Unsent(c, s), l, m) by {
      ReceivedFirst(s, Unsent(c, s));
    }
  }

  lemma ReceivedFirst(s: State, more: seq<int>)
    ensures s.client.received <= Pipeline(s) + more
  {
  }

  lemma OncePrefix<T>(part: seq<T>, all: seq<T>, l: nat, m: nat)
    requires part <= all && l < m < |part| && multiset(all)[part[m]] == 1
    ensures part[l] != part[m]
  {
    PrefixPart(part, all);
    assert part == part[..m] + [part[m]] + part[m + 1..];
    assert part[l] in part[..m];
  }

  // ---- How the client exits ----

  /** The loop leaves with every receive posted but possibly not completed: at most h pages are missing. */
  lemma ExitShortfall(c: Config, s: State)
    requires c.pageSize >= 1 && Reachable(c, s) && s.client.phase == Exited
    ensures s.client.sendIndex == s.client.recvIndex == c.n
    ensures 0 <= c.n - s.client.iterations <= c.ring / 2
    ensures multiset(s.client.received) <= multiset(c.Ids(c.n))
    ensures s.client.totalReceived == c.n * c.PageBytes() <==> multiset(s.client.received) == multiset(c.Ids(c.n))
  {
    ReachableInv(c, s);
    ReceivedPart(c, s);
    BreakMeansAll(c, s.client);
    AllOrFewer(c, s);
  }

  lemma {:induction false} SendsAndRecvs(cq: seq<ClientCqe>)
    ensures |cq| == SendsIn(cq) + |Recvs(cq)|
  {
    if cq != [] { SendsAndRecvs(cq[1..]); }
  }

  /** Operations the client leaves behind: its sends and its receives not reaped. */
  lemma OutstandingAtExit(c: Config, s: State)
    requires c.pageSize >= 1 && Reachable(c, s) && s.client.phase == Exited
    ensures var k := s.client;
            && k.iterations <= k.sendsReaped <= c.n && k.queuedSends == [] && k.queuedRecvs == 0
            && |k.sends| + k.recvs + |k.cq| == (c.n - k.sendsReaped) + (c.n - k.iterations)
  {
    ReachableInv(c, s);
    SendsAndRecvs(s.client.cq);
  }

  /** Having received as many pages as were asked for is having received those very pages. */
  lemma AllOrFewer(c: Config, s: State)
    requires Tokens(c, s) && TokenCount(s) && |s.client.received| == s.client.iterations && s.client.sendIndex == c.n
    ensures s.client.iterations == c.n <==> multiset(s.client.received) == multiset(c.Ids(c.n))
  {
    if s.client.iterations == c.n {
      assert Pipeline(s) == s.client.received;
    } else {
      assert |multiset(c.Ids(c.n))| == |c.Ids(c.n)|;
      assert |multiset(s.client.received)| == |s.client.received|;
    }
  }

  lemma PrefixPart<T>(a: seq<T>, s: seq<T>)
    requires a <= s
    ensures multiset(a) <= multiset(s)
  {
    assert s == a + s[|a|..];
  }

  lemma ReceivedPart(c: Config, s: State)
    requires Tokens(c, s)
    ensures multiset(s.client.received) <= multiset(c.Ids(s.client.sendIndex))
  {
    assert s.client.received <= Pipeline(s);
    PrefixPart(s.client.received, Pipeline(s));
  }

  /** When the break inside the loop fires, every page requested has been received, each once. */
  lemma BreakIsComplete(c: Config, s: State)
    requires c.pageSize >= 1 && Reachable(c, s) && BreakGuard(c, s.client)
    ensures s.client.iterations == c.n
    ensures multiset(s.client.received) == multiset(c.Ids(c.n))
  {
    ReachableInv(c, s);
    BreakMeansAll(c, s.client);
    assert Pipeline(s) == s.client.received;
  }

  /** The loop condition alone does not wait for the pages: with one request the client can leave empty-handed. */
  lemma ExitCanBeShort()
    ensures var c := Config(4, 1, 0, 1, 1, 1);
            exists s :: Reachable(c, s) && s.client.phase == Exited && s.client.iterations == 0 < c.n
  {
    var c := Config(4, 1, 0, 1, 1, 1);
    var s0 := Init();
    InitReachable(c);
    var s1 := Apply(c, s0, ClientStep);
    StepReachable(c, s0, ClientStep);
    var s2 := Apply(c, s1, ClientStep);
    StepReachable(c, s1, ClientStep);
    var s3 := Apply(c, s2, ClientStep);
    StepReachable(c, s2, ClientStep);
    var s4 := Apply(c, s3, ClientStep);
    StepReachable(c, s3, ClientStep);
    var s5 := Apply(c, s4, ClientStep);
    StepReachable(c, s4, ClientStep);
    var s6 := Apply(c, s5, ClientStep);
    StepReachable(c, s5, ClientStep);
    var s7 := Apply(c, s6, ClientStep);
    StepReachable(c, s6, ClientStep);
  }
}
