/** How main divides the requests over threads, and what the threads' results add up to. */
module Ranges {
  import opened Arithmetic
  import opened Sequences
  import Protocol
  import PipelineSafety
  import Flood

  /** The requests from start up to stop. */
  datatype Range = Range(start: nat, stop: nat) {
    predicate Has(k: nat) { start <= k < stop }
    function Size(): int { stop - start }
  }

  function RangeOf(n: nat, threads: nat, i: nat): Range
    requires i < threads
  {
    Range(i * (n / threads), if i == threads - 1 then n else (i + 1) * (n / threads))
  }

  function Split(n: nat, threads: nat): seq<Range> {
    seq(threads, i requires 0 <= i < threads => RangeOf(n, threads, i))
  }

  /** The loop that starts the threads. */
  method StartThreads(n: nat, threads: nat) returns (ranges: seq<Range>)
    requires threads > 0
    ensures ranges == Split(n, threads)
  {
    var requestsPerThread := n / threads;
    ranges := [];
    for i := 0 to threads
      invariant ranges == Split(n, threads)[..i]
    {
      var startIndex := i * requestsPerThread;
      var endIndex := if i == threads - 1 then n else (i + 1) * requestsPerThread;
      assert Range(startIndex, endIndex) == RangeOf(n, threads, i);
      ranges := ranges + [Range(startIndex, endIndex)];
      assert Split(n, threads)[..i + 1] == Split(n, threads)[..i] + [RangeOf(n, threads, i)];
    }
  }

  lemma InOrder(n: nat, threads: nat, i: nat)
    requires i < threads
    ensures RangeOf(n, threads, i).start <= RangeOf(n, threads, i).stop <= n
    ensures i == 0 ==> RangeOf(n, threads, i).start == 0
    ensures if i + 1 < threads then RangeOf(n, threads, i).stop == RangeOf(n, threads, i + 1).start
            else RangeOf(n, threads, i).stop == n
  {
    Shares(n / threads, i, threads);
  }

  lemma Shares(per: nat, i: nat, threads: nat)
    requires i < threads
    ensures (i + 1) * per == i * per + per
    ensures if i + 1 == threads then (i + 1) * per == threads * per else (i + 1) * per <= threads * per
  {
    var rest := threads - i - 1;
    assert threads * per == (i + 1) * per + rest * per;
    assert rest * per >= 0;
  }

  /** Only the last thread gets more than an equal share, and it gets the whole remainder. */
  lemma Sizes(n: nat, threads: nat, i: nat)
    requires i < threads
    ensures RangeOf(n, threads, i).Size() == n / threads + if i == threads - 1 then n % threads else 0
    ensures RangeOf(n, threads, i).Size() <= n / threads + threads - 1
  {
    Shares(n / threads, i, threads);
  }

  /** Ranges further on start further on. */
  lemma {:induction false} Disjoint(n: nat, threads: nat, i: nat, j: nat)
    requires i < j < threads
    ensures RangeOf(n, threads, i).stop <= RangeOf(n, threads, j).start
  {
    InOrder(n, threads, j - 1);
    if i < j - 1 { Disjoint(n, threads, i, j - 1); }
  }

  /** The thread that gets request k. */
  function Owner(n: nat, threads: nat, k: nat): (i: nat)
    requires threads > 0
    ensures i < threads
  {
    var per := n / threads;
    if per == 0 || k / per >= threads then threads - 1 else k / per
  }

  /** Every request is in exactly one range. */
  lemma EachRequestOnce(n: nat, threads: nat, k: nat, i: nat)
    requires k < n && i < threads
    ensures RangeOf(n, threads, i).Has(k) <==> i == Owner(n, threads, k)
  {
    var o := Owner(n, threads, k);
    assert RangeOf(n, threads, o).Has(k) by { OwnerHas(n, threads, k); }
    if i < o { Disjoint(n, threads, i, o); }
    if o < i { Disjoint(n, threads, o, i); }
  }

  lemma OwnerHas(n: nat, threads: nat, k: nat)
    requires threads > 0 && k < n
    ensures RangeOf(n, threads, Owner(n, threads, k)).Has(k)
  {
    var per, o := n / threads, Owner(n, threads, k);
    InOrder(n, threads, o);
    if per != 0 {
      Euclid(k, per);
      Distribute(k / per, 1, per);
      AtMost(o, k / per, per);
    }
  }

  // ---- Totals ----

  function Counts(n: nat, threads: nat): (counts: seq<nat>)
    ensures |counts| == threads
  {
    seq<nat>(threads, i requires 0 <= i < threads => InOrder(n, threads, i); RangeOf(n, threads, i).Size())
  }

  lemma {:induction false} CountsUpTo(n: nat, threads: nat, i: nat)
    requires i < threads
    ensures Sum(Counts(n, threads)[..i + 1]) == RangeOf(n, threads, i).stop
  {
    var counts := Counts(n, threads);
    assert counts[..i + 1] == counts[..i] + [counts[i]];
    SumAppend(counts[..i], counts[i]);
    if i > 0 {
      CountsUpTo(n, threads, i - 1);
      InOrder(n, threads, i - 1);
    }
  }

  /** The threads' shares add up to all the requests. */
  lemma CountsAddUp(n: nat, threads: nat)
    requires threads > 0
    ensures Sum(Counts(n, threads)) == n
  {
    CountsUpTo(n, threads, threads - 1);
    assert Counts(n, threads)[..threads] == Counts(n, threads);
  }

  /** What each thread expects to receive. */
  function ExpectedByThread(n: nat, threads: nat, pageSize: nat): (bytes: seq<nat>)
    ensures |bytes| == threads
  {
    seq<nat>(threads, i requires 0 <= i < threads => Times(Counts(n, threads)[i], pageSize * 4))
  }

  const TWO_TO_THE_34 := 0x4_0000_0000
  const TWO_TO_THE_62 := 0x4000_0000_0000_0000
  const TWO_TO_THE_64 := 0x1_0000_0000_0000_0000

  /** A setting given as a decimal literal is an int below 2^31 and a long, of 64 bits, from there on. */
  predicate IsLong(literal: nat) {
    literal >= Protocol.TWO_TO_THE_31
  }

  /**
   The total main announces. Starting from an unsigned int, the product of requests and page size stays 32 bits wide
   unless one of the two is a long; the last factor is 64 bits wide in any case.
   */
  function ExpectedTotal(n: nat, pageSize: nat): nat {
    if IsLong(n) || IsLong(pageSize) then n * pageSize * 4 % TWO_TO_THE_64
    else n * pageSize % Protocol.TWO_TO_THE_32 * 4
  }

  /** When the width that the literals give the product is enough for it. */
  predicate Fits(n: nat, pageSize: nat) {
    n * pageSize < if IsLong(n) || IsLong(pageSize) then TWO_TO_THE_62 else Protocol.TWO_TO_THE_32
  }

  lemma KeptIffBelow(x: nat, w: nat)
    requires w > 0
    ensures x % w == x <==> x < w
  {
  }

  lemma ExpectedTogether(n: nat, threads: nat, pageSize: nat)
    requires threads > 0
    ensures Sum(ExpectedByThread(n, threads, pageSize)) == n * pageSize * 4
  {
    CountsAddUp(n, threads);
    Flood.SumOfProducts(Counts(n, threads), pageSize * 4, ExpectedByThread(n, threads, pageSize));
    Regroup(n, pageSize);
  }

  lemma AnnouncedIffFits(n: nat, pageSize: nat)
    ensures ExpectedTotal(n, pageSize) == n * pageSize * 4 <==> Fits(n, pageSize)
  {
    var x := n * pageSize;
    KeptIffBelow(x, Protocol.TWO_TO_THE_32);
    KeptIffBelow(x * 4, TWO_TO_THE_64);
  }

  lemma QuadrupleKept(x: nat)
    ensures x % Protocol.TWO_TO_THE_32 * 4 == x * 4 % TWO_TO_THE_34
  {
    Euclid(x, Protocol.TWO_TO_THE_32);
    DivMod(x * 4, x / Protocol.TWO_TO_THE_32, x % Protocol.TWO_TO_THE_32 * 4, TWO_TO_THE_34);
  }

  /** What is announced in any case: the total modulo 2^34, or modulo 2^64 when a literal is a long. */
  lemma AnnouncedValue(n: nat, pageSize: nat)
    ensures n < 0x8000_0000 && pageSize < 0x8000_0000 ==> ExpectedTotal(n, pageSize) == n * pageSize * 4 % TWO_TO_THE_34
    ensures n >= 0x8000_0000 || pageSize >= 0x8000_0000 ==> ExpectedTotal(n, pageSize) == n * pageSize * 4 % TWO_TO_THE_64
  {
    QuadrupleKept(n * pageSize);
  }

  /** What is announced is what the threads expect together exactly when the product fits its width. */
  lemma ExpectedTotalIsExactIff(n: nat, threads: nat, pageSize: nat)
    requires threads > 0
    ensures ExpectedTotal(n, pageSize) == Sum(ExpectedByThread(n, threads, pageSize)) <==> Fits(n, pageSize)
  {
    ExpectedTogether(n, threads, pageSize);
    AnnouncedIffFits(n, pageSize);
  }

  /** The default 1024 * 1024 requests for pages of 4096 numbers are announced as nothing; a long literal is not cut short. */
  lemma WidthMatters()
    ensures ExpectedTotal(1024 * 1024, 4096) == 0
    ensures ExpectedTotal(3_000_000_000, 2) == 24_000_000_000
  {
  }

  /** The loop that adds up what the threads received. */
  method TotalReceived(received: seq<nat>) returns (total: nat)
    ensures total == Sum(received)
  {
    total := 0;
    for i := 0 to |received|
      invariant total == Sum(received[..i])
    {
      assert received[..i + 1] == received[..i] + [received[i]];
      SumAppend(received[..i], received[i]);
      total := total + received[i];
    }
    assert received[..|received|] == received;
  }

  // ---- All threads of simple_iou_client ----

  /** Thread i's own pipeline: its range, with its own connection. */
  ghost predicate Exits(n: nat, threads: nat, ring: nat, pageSize: nat, i: nat, c: Protocol.Config, s: Protocol.State)
    requires i < threads
  {
    && c.ring == ring && c.pageSize == pageSize
    && c.start == RangeOf(n, threads, i).start && c.n == Counts(n, threads)[i]
    && Protocol.Reachable(c, s) && s.client.phase == Protocol.Exited
  }

  ghost predicate AllExit(n: nat, threads: nat, ring: nat, pageSize: nat,
                          cs: seq<Protocol.Config>, finals: seq<Protocol.State>) {
    && |cs| == |finals| == threads
    && forall i :: 0 <= i < threads ==> Exits(n, threads, ring, pageSize, i, cs[i], finals[i])
  }

  function Received(finals: seq<Protocol.State>): seq<nat> {
    seq<nat>(|finals|, i requires 0 <= i < |finals| => finals[i].client.totalReceived)
  }

  function MostMissing(threads: nat, bytes: nat): seq<nat> {
    seq<nat>(threads, _ => bytes)
  }

  lemma ThreadCounts(c: Protocol.Config, s: Protocol.State)
    requires c.pageSize >= 1 && Protocol.Reachable(c, s) && s.client.phase == Protocol.Exited
    ensures s.client.totalReceived == Times(s.client.iterations, c.PageBytes())
    ensures s.client.iterations <= c.n <= s.client.iterations + c.ring / 2
  {
    PipelineSafety.ReachableInv(c, s);
    PipelineSafety.ExitShortfall(c, s);
  }

  lemma ThreadShortfall(c: Protocol.Config, s: Protocol.State)
    requires c.pageSize >= 1 && Protocol.Reachable(c, s) && s.client.phase == Protocol.Exited
    ensures s.client.totalReceived <= Times(c.n, c.pageSize * 4)
            <= s.client.totalReceived + Times(c.ring / 2, c.pageSize * 4)
  {
    ThreadCounts(c, s);
    AtMost(s.client.iterations, c.n, c.PageBytes());
    AtMost(c.n, s.client.iterations + c.ring / 2, c.PageBytes());
    Distribute(s.client.iterations, c.ring / 2, c.PageBytes());
  }

  lemma {:induction false} SumOfEqual(threads: nat, bytes: nat)
    ensures Sum(MostMissing(threads, bytes)) == threads * bytes
  {
    if threads > 0 {
      assert MostMissing(threads, bytes)[1..] == MostMissing(threads - 1, bytes);
      SumOfEqual(threads - 1, bytes);
      Distribute(threads - 1, 1, bytes);
    }
  }

  /** What thread i received plus the most it can be missing. */
  function Most(received: seq<nat>, bytes: nat): seq<nat> {
    seq<nat>(|received|, i requires 0 <= i < |received| => received[i] + bytes)
  }

  lemma EachThreadBounded(n: nat, threads: nat, ring: nat, pageSize: nat,
                          cs: seq<Protocol.Config>, finals: seq<Protocol.State>, i: nat)
    requires pageSize >= 1 && AllExit(n, threads, ring, pageSize, cs, finals) && i < threads
    ensures Received(finals)[i] <= ExpectedByThread(n, threads, pageSize)[i]
            <= Most(Received(finals), Times(ring / 2, pageSize * 4))[i]
  {
    assert Exits(n, threads, ring, pageSize, i, cs[i], finals[i]);
    ThreadShortfall(cs[i], finals[i]);
  }

  lemma SumOfMost(received: seq<nat>, bytes: nat)
    ensures Sum(Most(received, bytes)) == Sum(received) + |received| * bytes
  {
    Flood.SumOfSums(received, MostMissing(|received|, bytes), Most(received, bytes));
    SumOfEqual(|received|, bytes);
  }

  /** Summed over the threads, at most RING_SIZE / 2 pages each are missing, and never a byte too many. */
  lemma TotalShortfall(n: nat, threads: nat, ring: nat, pageSize: nat,
                       cs: seq<Protocol.Config>, finals: seq<Protocol.State>)
    requires threads > 0 && pageSize >= 1 && AllExit(n, threads, ring, pageSize, cs, finals)
    ensures Sum(Received(finals)) <= n * pageSize * 4
            <= Sum(Received(finals)) + threads * (ring / 2 * (pageSize * 4))
  {
    var expected, received := ExpectedByThread(n, threads, pageSize), Received(finals);
    var most := Most(received, Times(ring / 2, pageSize * 4));
    forall i | 0 <= i < threads ensures received[i] <= expected[i] <= most[i] {
      EachThreadBounded(n, threads, ring, pageSize, cs, finals, i);
    }
    SumMonotone(received, expected);
    SumMonotone(expected, most);
    SumOfMost(received, Times(ring / 2, pageSize * 4));
    ExpectedTogether(n, threads, pageSize);
  }

  /** Two clients of ranges that follow one another receive different ids, as long as the ids fit 32 bits. */
  lemma ApartReceiveApart(c: Protocol.Config, s: Protocol.State, d: Protocol.Config, t: Protocol.State, l: nat, m: nat)
    requires c.pageSize >= 1 && d.pageSize >= 1 && Protocol.Reachable(c, s) && Protocol.Reachable(d, t)
    requires c.start + c.n <= d.start && d.start + d.n <= Protocol.TWO_TO_THE_32
    requires l < |s.client.received| && m < |t.client.received|
    ensures s.client.received[l] != t.client.received[m]
  {
    var a := PipelineSafety.ReceivedWasRequested(c, s, l);
    var b := PipelineSafety.ReceivedWasRequested(d, t, m);
    assert c.start + a < d.start + b < Protocol.TWO_TO_THE_32;
  }

  /** Over the whole range of requests the ids differ exactly up to 2^32 of them; 0 and 2^32 get the same one. */
  lemma AllIdsDiffer(n: nat)
    ensures (forall j: nat, k: nat :: j < k < n ==> Protocol.Int32(j) != Protocol.Int32(k)) <==> n <= Protocol.TWO_TO_THE_32
  {
    if n > Protocol.TWO_TO_THE_32 {
      assert Protocol.Int32(0) == Protocol.Int32(Protocol.TWO_TO_THE_32);
    }
  }

  ghost predicate RunsThread(n: nat, threads: nat, i: nat, c: Protocol.Config)
    requires i < threads
  {
    c.pageSize >= 1 && c.start == RangeOf(n, threads, i).start && c.n == Counts(n, threads)[i]
  }

  /** No page is received by two threads, in any states they reach. */
  lemma ThreadsReceiveDisjointIds(n: nat, threads: nat, i: nat, c: Protocol.Config, s: Protocol.State,
                                  j: nat, d: Protocol.Config, t: Protocol.State, l: nat, m: nat)
    requires n <= Protocol.TWO_TO_THE_32 && i < j < threads
    requires RunsThread(n, threads, i, c) && RunsThread(n, threads, j, d)
    requires Protocol.Reachable(c, s) && Protocol.Reachable(d, t)
    requires l < |s.client.received| && m < |t.client.received|
    ensures s.client.received[l] != t.client.received[m]
  {
    Disjoint(n, threads, i, j);
    InOrder(n, threads, i);
    InOrder(n, threads, j);
    ApartReceiveApart(c, s, d, t, l, m);
  }

  // ---- All threads of max_client, and max_server's counter ----

  /** max_server's expected total, computed in 64 bits. */
  function FloodTotal(n: nat, pageSize: nat): nat { n * pageSize * 4 }

  /** The counter never passes it. */
  lemma FloodNeverPassesTotal(c: Flood.Config, n: nat, threads: nat, pageSize: nat, run: seq<Flood.Step>)
    requires threads > 0 && c.pageBytes == pageSize * 4
    requires Flood.Legal(c, Flood.Start(c, Counts(n, threads)), run)
    ensures Flood.After(c, Flood.Start(c, Counts(n, threads)), run).total <= FloodTotal(n, pageSize)
  {
    CountsAddUp(n, threads);
    Flood.CounterBounded(c, Counts(n, threads), run);
    Regroup(n, pageSize);
  }

  /** Once all threads have left and everything was read and counted, it shows that total exactly when no send was short. */
  lemma FloodReachesTotal(c: Flood.Config, n: nat, threads: nat, pageSize: nat, run: seq<Flood.Step>)
    requires threads > 0 && c.pageBytes == pageSize * 4
    requires Flood.Legal(c, Flood.Start(c, Counts(n, threads)), run)
    requires Flood.Finished(Flood.After(c, Flood.Start(c, Counts(n, threads)), run))
    ensures Flood.After(c, Flood.Start(c, Counts(n, threads)), run).total == FloodTotal(n, pageSize)
            <==> Flood.NoneShort(c, run)
  {
    CountsAddUp(n, threads);
    Flood.EverythingArrives(c, Counts(n, threads), run);
    Regroup(n, pageSize);
  }
}
