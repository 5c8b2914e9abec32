/** The page protocol when each side's operations complete in the order they were submitted. */
module PipelineOrder {
  import opened Protocol

  ghost predicate AllInOrder(run: seq<Step>) {
    forall i :: 0 <= i < |run| ==> InOrder(run[i])
  }

  ghost predicate ReachableInOrder(c: Config, s: State) {
    exists run :: AllInOrder(run) && Legal(c, Init(), run) && After(c, Init(), run) == s
  }

  /** The pipeline is then not just a permutation of the ids handed out: it is those ids, oldest first. */
  lemma {:induction false} InOrderRun(c: Config, s: State, run: seq<Step>)
    requires AllInOrder(run) && Legal(c, s, run)
    requires Pipeline(s) == c.Ids(s.client.sendIndex)
    ensures Pipeline(After(c, s, run)) == c.Ids(After(c, s, run).client.sendIndex)
    decreases |run|
  {
    if run != [] {
      StepPipeline(c, s, run[0]);
      StepIds(c, s, run[0]);
      InOrderRun(c, Apply(c, s, run[0]), run[1..]);
    }
  }

  lemma PipelineInOrder(c: Config, s: State)
    requires ReachableInOrder(c, s)
    ensures Pipeline(s) == c.Ids(s.client.sendIndex)
  {
    assert c.Ids(0) == [] && Pipeline(Init()) == [];
    var run :| AllInOrder(run) && Legal(c, Init(), run) && After(c, Init(), run) == s;
    InOrderRun(c, Init(), run);
  }

  lemma PrefixOfIds(c: Config, part: seq<int>, count: nat)
    requires part <= c.Ids(count)
    ensures |part| <= count && part == c.Ids(|part|)
  {
    assert forall k :: 0 <= k < |part| ==> part[k] == c.Ids(count)[k];
  }

  /** The pages received are those of the first requests, in request order, under their own numbers up to 2^31. */
  lemma ReceivedInOrder(c: Config, s: State)
    requires ReachableInOrder(c, s)
    ensures s.client.received == c.Ids(|s.client.received|)
    ensures (forall k :: 0 <= k < |s.client.received| ==> s.client.received[k] == c.start + k)
            <==> s.client.received == [] || c.start + |s.client.received| <= TWO_TO_THE_31
  {
    PipelineInOrder(c, s);
    assert s.client.received <= Pipeline(s);
    PrefixOfIds(c, s.client.received, s.client.sendIndex);
    if c.start + |s.client.received| > TWO_TO_THE_31 && s.client.received != [] {
      var last := |s.client.received| - 1;
      assert s.client.received[last] == c.Id(last) != c.start + last;
    }
  }

  /** Every id the server has decoded and not merely been sent, oldest first. */
  function Decoded(s: State): seq<int> {
    s.client.received + Recvs(s.client.cq) + s.down + s.server.writes + Reads(s.server.cq)
  }

  /** The k-th read the server completes decodes the k-th request. */
  lemma DecodedInOrder(c: Config, s: State)
    requires ReachableInOrder(c, s)
    ensures Decoded(s) == c.Ids(|Decoded(s)|)
  {
    PipelineInOrder(c, s);
    assert Decoded(s) <= Pipeline(s);
    PrefixOfIds(c, Decoded(s), s.client.sendIndex);
  }
}
