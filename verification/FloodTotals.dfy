/** When the counter that max_server waits on gets to the bytes of all requests. */
module FloodTotals {
  import opened Sequences
  import opened Flood
  import opened FloodLiveness

  /** Connection i at moment k. */
  ghost function Here(b: Behavior, i: nat, k: nat): Connection
    requires i < |b.state(k).connections|
  {
    b.state(k).connections[i]
  }

  predicate IsRead(e: Event, i: nat) { e.Take? && e.step.ReadDone? && e.step.i == i }

  predicate IsHandling(e: Event, i: nat) { e == Take(ReceiverStep(i)) }

  predicate IsReadFailure(e: Event) { e.Take? && e.step.ReadDone? && e.step.res < 0 }

  predicate IsShort(c: Config, e: Event) { e.Take? && Shortage(c, e.step) > 0 }

  /** From k on, there is a moment when connection i has nothing to read or no read posted, or a read of it finishes. */
  ghost predicate ReadServed(b: Behavior, i: nat, k: nat) {
    exists j: nat :: k <= j && (i >= |b.state(j).connections| || Here(b, i, j).stream == 0
                                || Here(b, i, j).receiver.posted == 0 || IsRead(b.event(j), i))
  }

  /** And one when its handler has ended or has no completion to look at, or takes a turn. */
  ghost predicate HandlingServed(b: Behavior, i: nat, k: nat) {
    exists j: nat :: k <= j && (i >= |b.state(j).connections| || Here(b, i, j).receiver.closed
                                || Here(b, i, j).receiver.cq == [] || IsHandling(b.event(j), i))
  }

  /** Weak fairness towards everyone. */
  ghost predicate AllFair(counts: seq<nat>, b: Behavior) {
    && (forall i: nat :: i < |counts| ==> Fair(b, i))
    && (forall i: nat, k: nat :: i < |counts| ==> ReadServed(b, i, k) && HandlingServed(b, i, k))
  }

  ghost predicate NoReadFails(b: Behavior) {
    forall k: nat :: !IsReadFailure(b.event(k))
  }

  // ---- Receivers while no read fails ----

  /** Every byte read is ahead of the first empty read, and that comes only after the last byte. */
  ghost predicate Ordered(n: Connection) {
    && (forall x, y :: 0 <= x < y < |n.receiver.cq| && n.receiver.cq[y] > 0 ==> n.receiver.cq[x] > 0)
    && (forall x :: 0 <= x < |n.receiver.cq| && n.receiver.cq[x] <= 0 ==> n.stream == 0 && n.sender.phase == Done)
    && (n.receiver.closed ==> n.stream == 0 && n.sender.phase == Done
                              && forall x :: 0 <= x < |n.receiver.cq| ==> n.receiver.cq[x] <= 0)
  }

  function Positives(cq: seq<int>): nat {
    if cq == [] then 0 else (if cq[0] > 0 then 1 else 0) + Positives(cq[1..])
  }

  lemma {:induction false} PositivesAppend(cq: seq<int>, res: int)
    ensures Positives(cq + [res]) == Positives(cq) + if res > 0 then 1 else 0
  {
    if cq != [] {
      assert (cq + [res])[1..] == cq[1..] + [res];
      PositivesAppend(cq[1..], res);
    }
  }

  lemma {:induction false} NoPositives(cq: seq<int>)
    ensures Positives(cq) == 0 <==> forall x :: 0 <= x < |cq| ==> cq[x] <= 0
    ensures Positives(cq) == 0 ==> Pending(cq) == 0
  {
    if cq != [] {
      NoPositives(cq[1..]);
      if cq[0] <= 0 && Positives(cq[1..]) == 0 {
        forall x | 0 <= x < |cq| ensures cq[x] <= 0 { if x > 0 { assert cq[x] == cq[1..][x - 1]; } }
      } else if cq[0] <= 0 {
        var x :| 0 <= x < |cq[1..]| && cq[1..][x] > 0;
        assert cq[x + 1] > 0;
      }
    }
  }

  /** Reads and completions a drained connection is away from. */
  function ToDrain(n: Connection): nat { 2 * n.stream + Positives(n.receiver.cq) }

  /** What one event does to connection i. */
  ghost predicate HappensTo(c: Config, n: Connection, t: Connection, e: Event, i: nat) {
    if e.Take? && e.step.i == i then
      && (e.step.SenderStep? ==> n.sender.phase != Done)
      && (e.step.ReceiverStep? ==> !n.receiver.closed && n.receiver.cq != [])
      && (e.step.SendDone? ==> n.sender.inFlight > 0)
      && (e.step.ReadDone? ==> n.receiver.posted > 0 && Bytes(e.step.res) <= n.stream
                               && (e.step.res == 0 ==> n.stream == 0 && n.sender.phase == Done))
      && t == Moved(c, n, e.step)
    else t == n
  }

  lemma NextHere(c: Config, counts: seq<nat>, b: Behavior, i: nat, k: nat)
    requires IsBehavior(c, counts, b) && i < |counts|
    ensures |b.state(k).connections| == |b.state(k + 1).connections| == |counts|
    ensures ConnectionInv(c, Here(b, i, k))
    ensures HappensTo(c, Here(b, i, k), Here(b, i, k + 1), b.event(k), i)
  {
    BehaviorInv(c, counts, b, k);
    BehaviorInv(c, counts, b, k + 1);
    assert Follows(c, b, k);
  }

  lemma KeepsOrdered(c: Config, n: Connection, t: Connection, e: Event, i: nat)
    requires ConnectionInv(c, n) && Ordered(n) && HappensTo(c, n, t, e, i) && !IsReadFailure(e)
    ensures Ordered(t)
  {
  }

  lemma {:induction false} OrderedThroughout(c: Config, counts: seq<nat>, b: Behavior, i: nat, k: nat)
    requires IsBehavior(c, counts, b) && i < |counts| && NoReadFails(b)
    ensures |b.state(k).connections| == |counts| && Ordered(Here(b, i, k))
  {
    if k == 0 {
      BehaviorInv(c, counts, b, 0);
    } else {
      var before := k - 1;
      OrderedThroughout(c, counts, b, i, before);
      NextHere(c, counts, b, i, before);
      assert !IsReadFailure(b.event(before));
      KeepsOrdered(c, Here(b, i, before), Here(b, i, k), b.event(before), i);
    }
  }

  /** Once the sender has left, every read that brings something and every look at such a read comes closer to drained. */
  lemma ComesToDrain(c: Config, n: Connection, t: Connection, e: Event, i: nat)
    requires ConnectionInv(c, n) && Ordered(n) && n.sender.phase == Done && HappensTo(c, n, t, e, i) && !IsReadFailure(e)
    ensures t.sender.phase == Done && (ToDrain(t) < ToDrain(n) || (ToDrain(t) == ToDrain(n) && t.stream == n.stream))
    ensures IsRead(e, i) && n.stream > 0 ==> ToDrain(t) < ToDrain(n)
    ensures IsHandling(e, i) && Positives(n.receiver.cq) > 0 ==> ToDrain(t) < ToDrain(n)
  {
    if IsRead(e, i) { PositivesAppend(n.receiver.cq, e.step.res); }
    if IsHandling(e, i) && Positives(n.receiver.cq) > 0 { HeadPositive(n); }
  }

  lemma HeadPositive(n: Connection)
    requires Ordered(n) && Positives(n.receiver.cq) > 0
    ensures n.receiver.cq != [] && n.receiver.cq[0] > 0 && !n.receiver.closed
  {
    NoPositives(n.receiver.cq);
    var x :| 0 <= x < |n.receiver.cq| && n.receiver.cq[x] > 0;
  }

  lemma DrainStep(c: Config, counts: seq<nat>, b: Behavior, i: nat, k: nat)
    requires IsBehavior(c, counts, b) && i < |counts| && NoReadFails(b) && Leaves(b, i, k)
    ensures |b.state(k).connections| == |b.state(k + 1).connections| == |counts| && Leaves(b, i, k + 1)
    ensures var n, t := Here(b, i, k), Here(b, i, k + 1);
            && (ToDrain(t) < ToDrain(n) || (ToDrain(t) == ToDrain(n) && t.stream == n.stream))
            && (IsRead(b.event(k), i) && n.stream > 0 ==> ToDrain(t) < ToDrain(n))
            && (IsHandling(b.event(k), i) && Positives(n.receiver.cq) > 0 ==> ToDrain(t) < ToDrain(n))
  {
    NextHere(c, counts, b, i, k);
    OrderedThroughout(c, counts, b, i, k);
    assert !IsReadFailure(b.event(k));
    ComesToDrain(c, Here(b, i, k), Here(b, i, k + 1), b.event(k), i);
  }

  /** Bytes read wait only for the handler. */
  lemma {:induction false} HandlerDrains(c: Config, counts: seq<nat>, b: Behavior, i: nat, k: nat, j: nat) returns (m: nat)
    requires IsBehavior(c, counts, b) && i < |counts| && NoReadFails(b) && Leaves(b, i, k) && k <= j
    requires |b.state(k).connections| == |b.state(j).connections| == |counts|
    requires Positives(Here(b, i, k).receiver.cq) > 0
    requires Here(b, i, j).receiver.closed || Here(b, i, j).receiver.cq == [] || IsHandling(b.event(j), i)
    ensures k <= m && |b.state(m).connections| == |counts| && Leaves(b, i, m) && ToDrain(Here(b, i, m)) < ToDrain(Here(b, i, k))
    decreases j - k
  {
    DrainStep(c, counts, b, i, k);
    OrderedThroughout(c, counts, b, i, k);
    HeadPositive(Here(b, i, k));
    if ToDrain(Here(b, i, k + 1)) < ToDrain(Here(b, i, k)) {
      m := k + 1;
    } else {
      m := HandlerDrains(c, counts, b, i, k + 1, j);
    }
  }

  lemma AllPosted(c: Config, n: Connection)
    requires ConnectionInv(c, n) && Ordered(n) && n.stream > 0 && Positives(n.receiver.cq) == 0 && c.ring >= 1
    ensures n.receiver.posted > 0
  {
    NoPositives(n.receiver.cq);
  }

  /** Bytes in the stream wait only for a read to finish. */
  lemma {:induction false} ReadDrains(c: Config, counts: seq<nat>, b: Behavior, i: nat, k: nat, j: nat) returns (m: nat)
    requires IsBehavior(c, counts, b) && i < |counts| && NoReadFails(b) && Leaves(b, i, k) && k <= j && c.ring >= 1
    requires |b.state(k).connections| == |b.state(j).connections| == |counts|
    requires Here(b, i, k).stream > 0 && Positives(Here(b, i, k).receiver.cq) == 0
    requires Here(b, i, j).stream == 0 || Here(b, i, j).receiver.posted == 0 || IsRead(b.event(j), i)
    ensures k <= m && |b.state(m).connections| == |counts| && Leaves(b, i, m) && ToDrain(Here(b, i, m)) < ToDrain(Here(b, i, k))
    decreases j - k
  {
    DrainStep(c, counts, b, i, k);
    OrderedThroughout(c, counts, b, i, k);
    BehaviorInv(c, counts, b, k);
    AllPosted(c, Here(b, i, k));
    if ToDrain(Here(b, i, k + 1)) < ToDrain(Here(b, i, k)) {
      m := k + 1;
    } else {
      m := ReadDrains(c, counts, b, i, k + 1, j);
    }
  }

  lemma DrainsMore(c: Config, counts: seq<nat>, b: Behavior, i: nat, k: nat) returns (m: nat)
    requires IsBehavior(c, counts, b) && i < |counts| && NoReadFails(b) && AllFair(counts, b) && Leaves(b, i, k) && c.ring >= 1
    requires |b.state(k).connections| == |counts| && ToDrain(Here(b, i, k)) > 0
    ensures k <= m && |b.state(m).connections| == |counts| && Leaves(b, i, m) && ToDrain(Here(b, i, m)) < ToDrain(Here(b, i, k))
  {
    if Positives(Here(b, i, k).receiver.cq) > 0 {
      assert HandlingServed(b, i, k);
      var j: nat :| k <= j && (i >= |b.state(j).connections| || Here(b, i, j).receiver.closed
                               || Here(b, i, j).receiver.cq == [] || IsHandling(b.event(j), i));
      BehaviorInv(c, counts, b, j);
      m := HandlerDrains(c, counts, b, i, k, j);
    } else {
      assert ReadServed(b, i, k);
      var j: nat :| k <= j && (i >= |b.state(j).connections| || Here(b, i, j).stream == 0
                               || Here(b, i, j).receiver.posted == 0 || IsRead(b.event(j), i));
      BehaviorInv(c, counts, b, j);
      m := ReadDrains(c, counts, b, i, k, j);
    }
  }

  ghost predicate Drained(counts: seq<nat>, b: Behavior, i: nat, k: nat) {
    |b.state(k).connections| == |counts| && i < |counts| && Leaves(b, i, k) && ToDrain(Here(b, i, k)) == 0
  }

  lemma {:induction false} DrainsFrom(c: Config, counts: seq<nat>, b: Behavior, i: nat, k: nat) returns (m: nat)
    requires IsBehavior(c, counts, b) && i < |counts| && NoReadFails(b) && AllFair(counts, b) && Leaves(b, i, k) && c.ring >= 1
    requires |b.state(k).connections| == |counts|
    ensures Drained(counts, b, i, m)
    decreases ToDrain(Here(b, i, k))
  {
    if ToDrain(Here(b, i, k)) == 0 {
      m := k;
    } else {
      m := DrainsMore(c, counts, b, i, k);
      m := DrainsFrom(c, counts, b, i, m);
    }
  }

  lemma {:induction false} StaysDrained(c: Config, counts: seq<nat>, b: Behavior, i: nat, k: nat, m: nat)
    requires IsBehavior(c, counts, b) && NoReadFails(b) && Drained(counts, b, i, k) && k <= m
    ensures Drained(counts, b, i, m)
    decreases m - k
  {
    if k < m {
      DrainStep(c, counts, b, i, k);
      StaysDrained(c, counts, b, i, k + 1, m);
    }
  }

  ghost predicate FirstDrained(counts: seq<nat>, b: Behavior, count: nat, k: nat) {
    forall i :: 0 <= i < count ==> Drained(counts, b, i, k)
  }

  lemma OneDrains(c: Config, counts: seq<nat>, b: Behavior, i: nat) returns (k: nat)
    requires IsBehavior(c, counts, b) && i < |counts| && NoReadFails(b) && AllFair(counts, b)
    requires c.entries >= c.ring >= 1 && NeverFails(b, i)
    ensures Drained(counts, b, i, k)
  {
    var left := LeavesFrom(c, counts, b, i, 0);
    BehaviorInv(c, counts, b, left);
    k := DrainsFrom(c, counts, b, i, left);
  }

  /** Without failures, there is a moment when all senders have left and all streams are drained. */
  lemma {:induction false} AllDrain(c: Config, counts: seq<nat>, b: Behavior, count: nat) returns (k: nat)
    requires IsBehavior(c, counts, b) && count <= |counts| && NoReadFails(b) && AllFair(counts, b)
    requires c.entries >= c.ring >= 1 && forall i: nat :: i < |counts| ==> NeverFails(b, i)
    ensures FirstDrained(counts, b, count, k)
  {
    if count == 0 {
      k := 0;
    } else {
      var some := AllDrain(c, counts, b, count - 1);
      var one := OneDrains(c, counts, b, count - 1);
      k := if some < one then one else some;
      forall i | 0 <= i < count ensures Drained(counts, b, i, k) {
        StaysDrained(c, counts, b, i, if i < count - 1 then some else one, k);
      }
    }
  }

  // ---- The counter ----

  lemma BalanceNext(c: Config, counts: seq<nat>, b: Behavior, k: nat)
    requires IsBehavior(c, counts, b)
    ensures Balance(c, b.state(k + 1)) == Balance(c, b.state(k)) - (if b.event(k).Take? then Shortage(c, b.event(k).step) else 0)
    ensures b.state(k).total <= b.state(k + 1).total
  {
    BehaviorInv(c, counts, b, k);
    assert Follows(c, b, k);
    if b.event(k).Take? {
      StepBalance(c, b.state(k), b.event(k).step);
      StepKeepsInv(c, b.state(k), counts, b.event(k).step);
    }
  }

  lemma {:induction false} BalanceFalls(c: Config, counts: seq<nat>, b: Behavior, j: nat, k: nat)
    requires IsBehavior(c, counts, b) && j <= k
    ensures Balance(c, b.state(k)) <= Balance(c, b.state(j))
    ensures (forall i: nat :: j <= i < k ==> !IsShort(c, b.event(i))) ==> Balance(c, b.state(k)) == Balance(c, b.state(j))
    ensures b.state(j).total <= b.state(k).total
    decreases k - j
  {
    if j < k {
      BalanceNext(c, counts, b, j);
      BalanceFalls(c, counts, b, j + 1, k);
    }
  }

  ghost predicate NeverShort(c: Config, b: Behavior) {
    forall k: nat :: !IsShort(c, b.event(k))
  }

  /** After a short send the counter stays behind for good. */
  lemma ShortStaysBehind(c: Config, counts: seq<nat>, b: Behavior, k: nat, m: nat)
    requires IsBehavior(c, counts, b) && IsShort(c, b.event(k))
    ensures b.state(m).total < Sum(counts) * c.pageBytes
  {
    var end := if m <= k then k + 1 else m;
    BalanceFalls(c, counts, b, m, end);
    BalanceSince(c, counts, b, k, end);
    BehaviorInv(c, counts, b, end);
    TotalWithinBalance(c, b.state(end), counts);
  }

  lemma BalanceSince(c: Config, counts: seq<nat>, b: Behavior, k: nat, m: nat)
    requires IsBehavior(c, counts, b) && IsShort(c, b.event(k)) && k < m
    ensures Balance(c, b.state(m)) < 0
  {
    var after := k + 1;
    BalanceAtFirst(c, counts, b);
    BalanceFalls(c, counts, b, 0, k);
    BalanceNext(c, counts, b, k);
    BalanceFalls(c, counts, b, after, m);
  }

  lemma BalanceAtFirst(c: Config, counts: seq<nat>, b: Behavior)
    requires IsBehavior(c, counts, b)
    ensures Balance(c, b.state(0)) == 0 && b.state(0).total == 0
  {
    StartBalance(c, counts);
  }

  lemma WholeNeverFails(c: Config, counts: seq<nat>, b: Behavior, i: nat)
    requires NeverShort(c, b) && c.pageBytes > 0
    ensures NeverFails(b, i)
  {
    forall k: nat ensures !IsFailure(b.event(k), i) { assert !IsShort(c, b.event(k)); }
  }

  lemma DrainedIsFinished(c: Config, counts: seq<nat>, b: Behavior, k: nat)
    requires IsBehavior(c, counts, b) && FirstDrained(counts, b, |counts|, k)
    ensures Finished(b.state(k))
  {
    BehaviorInv(c, counts, b, k);
    forall i | 0 <= i < |counts| ensures b.state(k).connections[i].sender.phase == Done && UnderWay(b.state(k))[i] == 0 {
      assert Drained(counts, b, i, k);
      NoPositives(Here(b, i, k).receiver.cq);
    }
  }

  /** With whole sends only, the counter gets there. */
  lemma ReachesTotal(c: Config, counts: seq<nat>, b: Behavior) returns (k: nat)
    requires c.entries >= c.ring >= 1 && IsBehavior(c, counts, b) && AllFair(counts, b) && NoReadFails(b) && NeverShort(c, b)
    ensures b.state(k).total == Sum(counts) * c.pageBytes
  {
    if c.pageBytes == 0 {
      k := 0;
      BalanceAtFirst(c, counts, b);
    } else {
      forall i: nat | i < |counts| ensures NeverFails(b, i) { WholeNeverFails(c, counts, b, i); }
      k := AllDrain(c, counts, b, |counts|);
      DrainedIsFinished(c, counts, b, k);
      BehaviorInv(c, counts, b, k);
      FinishedTotal(c, b.state(k), counts);
      BalanceAtFirst(c, counts, b);
      BalanceFalls(c, counts, b, 0, k);
    }
  }

  ghost predicate Shows(b: Behavior, total: nat, k: nat) {
    b.state(k).total == total
  }

  /**
   In a run fair to everyone in which no read fails, the shared counter gets to the bytes of all requests exactly
   when no send is short, a failed one included.
   */
  lemma FairTotalIff(c: Config, counts: seq<nat>, b: Behavior)
    requires c.entries >= c.ring >= 1 && IsBehavior(c, counts, b) && AllFair(counts, b) && NoReadFails(b)
    ensures (exists k: nat :: Shows(b, Sum(counts) * c.pageBytes, k)) <==> NeverShort(c, b)
  {
    if NeverShort(c, b) {
      var k := ReachesTotal(c, counts, b);
      assert Shows(b, Sum(counts) * c.pageBytes, k);
    } else {
      var k: nat :| IsShort(c, b.event(k));
      forall m: nat ensures !Shows(b, Sum(counts) * c.pageBytes, m) { ShortStaysBehind(c, counts, b, k, m); }
    }
  }

  // ---- There are such runs ----

  lemma NoBufferNoBytes(c: Config, n: Connection)
    requires ConnectionInv(c, n) && c.pageBytes == 0
    ensures n.stream == 0
  {
  }

  lemma ReadOrHandled(c: Config, s: State, counts: seq<nat>, res: int, i: nat, j: nat)
    requires Inv(c, s, counts) && i < |counts| && j / 4 % |s.connections| == i
    ensures j % 4 == 2 ==> s.connections[i].stream == 0 || s.connections[i].receiver.posted == 0 || IsRead(EventAt(c, s, res, j), i)
    ensures j % 4 == 3 ==> s.connections[i].receiver.closed || s.connections[i].receiver.cq == []
                           || IsHandling(EventAt(c, s, res, j), i)
  {
    if c.pageBytes == 0 { NoBufferNoBytes(c, s.connections[i]); }
  }

  lemma ReadComes(c: Config, counts: seq<nat>, res: int, i: nat, k: nat)
    requires i < |counts|
    ensures ReadServed(RoundRobin(c, counts, res), i, k) && HandlingServed(RoundRobin(c, counts, res), i, k)
  {
    var b := RoundRobin(c, counts, res);
    RoundRobinIsBehavior(c, counts, res);
    var r := ItsTurn(k, i, |counts|, 2);
    BehaviorInv(c, counts, b, r);
    ReadOrHandled(c, b.state(r), counts, res, i, r);
    assert Here(b, i, r).stream == 0 || Here(b, i, r).receiver.posted == 0 || IsRead(b.event(r), i);
    var h := ItsTurn(k, i, |counts|, 3);
    BehaviorInv(c, counts, b, h);
    ReadOrHandled(c, b.state(h), counts, res, i, h);
    assert Here(b, i, h).receiver.closed || Here(b, i, h).receiver.cq == [] || IsHandling(b.event(h), i);
  }

  /** Going round is fair to everyone, and no read fails in it: with all sends whole or all short, both sides occur. */
  lemma RoundRobinIsAllFair(c: Config, counts: seq<nat>, res: int)
    requires res <= c.pageBytes
    ensures IsBehavior(c, counts, RoundRobin(c, counts, res)) && AllFair(counts, RoundRobin(c, counts, res))
    ensures NoReadFails(RoundRobin(c, counts, res))
    ensures res == c.pageBytes ==> NeverShort(c, RoundRobin(c, counts, res))
  {
    var b := RoundRobin(c, counts, res);
    RoundRobinIsBehavior(c, counts, res);
    forall i: nat | i < |counts| ensures Fair(b, i) { RoundRobinIsFair(c, counts, res, i); }
    forall i: nat, k: nat | i < |counts| ensures ReadServed(b, i, k) && HandlingServed(b, i, k) { ReadComes(c, counts, res, i, k); }
    forall k: nat ensures !IsReadFailure(b.event(k)) && (res == c.pageBytes ==> !IsShort(c, b.event(k))) {
      assert b.event(k) == EventAt(c, b.state(k), res, k);
    }
  }
}
