/** The lock-step page service: handle_client of server.cpp and the request loop of client.cpp. */
module PageService {
  import opened Wire
  import opened MemoryBlocks

  const RESPONSE_SIZE: nat := 140

  /** The request in eight bytes from the network. */
  function RequestFromWire(bytes: seq<Byte>): Request
    requires |bytes| == REQUEST_SIZE
  {
    RequestIn(BigEndian, bytes)
  }

  /** A header and a page: the requested one, or status 400 and filler when there is no such page. */
  function Reply(block: seq<Byte>, pageCount: nat, r: Request): (bytes: seq<Byte>)
    requires |block| == PAGE_SIZE * pageCount
    ensures |bytes| == RESPONSE_SIZE
  {
    if r.pageNumber >= pageCount then
      HeaderOnWire(Header(r.requestId, INVALID_PAGE_NUMBER, r.pageNumber)) + seq<Byte>(PAGE_SIZE, _ => 0xFA)
    else
      PageInBlock(pageCount, r.pageNumber);
      HeaderOnWire(Header(r.requestId, SUCCESS, r.pageNumber)) + Slice(block, r.pageNumber)
  }

  /**
   A reply byte by byte: the request's id, status 200 with the page or 400 with filler as the page exists or not, and
   the page number asked for.
   */
  lemma ReplyBytes(block: seq<Byte>, pageCount: nat, r: Request)
    requires |block| == PAGE_SIZE * pageCount
    ensures var reply := Reply(block, pageCount, r);
            && |reply| == 140
            && reply[0..4] == NetworkBytes(r.requestId)
            && reply[4..8] == (if r.pageNumber < pageCount then [0, 0, 0, 0xC8] else [0, 0, 1, 0x90])
            && reply[8..12] == NetworkBytes(r.pageNumber)
    ensures if r.pageNumber < pageCount
            then Reply(block, pageCount, r)[12..] == block[r.pageNumber * 128..r.pageNumber * 128 + 128]
            else forall i :: 12 <= i < 140 ==> Reply(block, pageCount, r)[i] == 0xFA
  {
    var reply := Reply(block, pageCount, r);
    var h := Header(r.requestId, if r.pageNumber >= pageCount then INVALID_PAGE_NUMBER else SUCCESS, r.pageNumber);
    Layout(Request(0, 0), h);
    assert reply[..12] == HeaderOnWire(h);
    assert reply[0..4] == reply[..12][0..4] && reply[4..8] == reply[..12][4..8] && reply[8..12] == reply[..12][8..12];
  }

  /** The replies to the requests up to the first read that did not bring a whole one. */
  function Replies(block: seq<Byte>, pageCount: nat, arrivals: seq<seq<Byte>>): seq<Byte>
    requires |block| == PAGE_SIZE * pageCount
  {
    if arrivals == [] || |arrivals[0]| != REQUEST_SIZE then []
    else Reply(block, pageCount, RequestFromWire(arrivals[0])) + Replies(block, pageCount, arrivals[1..])
  }

  predicate AllWhole(arrivals: seq<seq<Byte>>) {
    forall k :: 0 <= k < |arrivals| ==> |arrivals[k]| == REQUEST_SIZE
  }

  /** How many requests are answered: those before the first that did not arrive whole. */
  function Served(arrivals: seq<seq<Byte>>): (n: nat)
    ensures n <= |arrivals| && AllWhole(arrivals[..n])
    ensures n < |arrivals| ==> |arrivals[n]| != REQUEST_SIZE
  {
    if arrivals == [] || |arrivals[0]| != REQUEST_SIZE then 0 else 1 + Served(arrivals[1..])
  }

  lemma {:induction false} RepliesLength(block: seq<Byte>, pageCount: nat, arrivals: seq<seq<Byte>>)
    requires |block| == PAGE_SIZE * pageCount
    ensures |Replies(block, pageCount, arrivals)| == RESPONSE_SIZE * Served(arrivals)
  {
    if arrivals != [] && |arrivals[0]| == REQUEST_SIZE { RepliesLength(block, pageCount, arrivals[1..]); }
  }

  /** The k-th block of a stream of replies. */
  function Part(stream: seq<Byte>, k: nat): (part: seq<Byte>)
    requires RESPONSE_SIZE * (k + 1) <= |stream|
    ensures |part| == RESPONSE_SIZE
  {
    stream[RESPONSE_SIZE * k..RESPONSE_SIZE * (k + 1)]
  }

  lemma PartBehind(first: seq<Byte>, rest: seq<Byte>, k: nat)
    requires |first| == RESPONSE_SIZE && RESPONSE_SIZE * (k + 1) <= |rest|
    ensures Part(first + rest, k + 1) == Part(rest, k)
  {
  }

  /** What is sent is one reply after the other: the k-th block of 140 bytes answers the k-th request. */
  lemma {:induction false} ReplyAt(block: seq<Byte>, pageCount: nat, arrivals: seq<seq<Byte>>, k: nat)
    requires |block| == PAGE_SIZE * pageCount && k < Served(arrivals)
    ensures |arrivals[k]| == REQUEST_SIZE && RESPONSE_SIZE * (k + 1) <= |Replies(block, pageCount, arrivals)|
    ensures Part(Replies(block, pageCount, arrivals), k) == Reply(block, pageCount, RequestFromWire(arrivals[k]))
    decreases k
  {
    RepliesLength(block, pageCount, arrivals);
    assert arrivals[..Served(arrivals)][k] == arrivals[k];
    var first, rest := Reply(block, pageCount, RequestFromWire(arrivals[0])), Replies(block, pageCount, arrivals[1..]);
    if k > 0 {
      ReplyAt(block, pageCount, arrivals[1..], k - 1);
      PartBehind(first, rest, k - 1);
    }
  }

  /** One more request adds its reply, if it and all before it arrived whole, and else nothing. */
  lemma {:induction false} RepliesAppend(block: seq<Byte>, pageCount: nat, arrivals: seq<seq<Byte>>, bytes: seq<Byte>)
    requires |block| == PAGE_SIZE * pageCount
    ensures Replies(block, pageCount, arrivals + [bytes]) ==
            Replies(block, pageCount, arrivals)
            + if AllWhole(arrivals) && |bytes| == REQUEST_SIZE then Reply(block, pageCount, RequestFromWire(bytes)) else []
    decreases |arrivals|
  {
    if arrivals == [] {
      assert [bytes][1..] == [];
    } else {
      assert (arrivals + [bytes])[1..] == arrivals[1..] + [bytes];
      AllWholeTail(arrivals);
      RepliesAppend(block, pageCount, arrivals[1..], bytes);
    }
  }

  lemma AllWholeTail(arrivals: seq<seq<Byte>>)
    requires arrivals != []
    ensures AllWhole(arrivals) <==> |arrivals[0]| == REQUEST_SIZE && AllWhole(arrivals[1..])
  {
    if |arrivals[0]| == REQUEST_SIZE && AllWhole(arrivals[1..]) {
      forall k | 0 <= k < |arrivals| ensures |arrivals[k]| == REQUEST_SIZE {
        if k > 0 { assert arrivals[k] == arrivals[1..][k - 1]; }
      }
    }
  }

  lemma Regrouped(sent: seq<Byte>, reply: seq<Byte>, later: seq<Byte>)
    ensures sent + (reply + later) == (sent + reply) + later
  {
  }

  lemma NoMoreReplies(block: seq<Byte>, pageCount: nat, arrivals: seq<seq<Byte>>, i: nat)
    requires |block| == PAGE_SIZE * pageCount && i <= |arrivals|
    requires i < |arrivals| ==> |arrivals[i]| != REQUEST_SIZE
    ensures Replies(block, pageCount, arrivals[i..]) == []
  {
  }

  lemma RepliesFrom(block: seq<Byte>, pageCount: nat, arrivals: seq<seq<Byte>>, i: nat)
    requires |block| == PAGE_SIZE * pageCount && i < |arrivals| && |arrivals[i]| == REQUEST_SIZE
    ensures Replies(block, pageCount, arrivals[i..]) ==
            Reply(block, pageCount, RequestFromWire(arrivals[i])) + Replies(block, pageCount, arrivals[i + 1..])
  {
    assert arrivals[i..][1..] == arrivals[i + 1..];
  }

  lemma FieldOnAnyHost(host: Host, bytes: seq<Byte>)
    requires |bytes| == 4
    ensures Htonl(host, Loaded(host, bytes)) == Loaded(BigEndian, bytes)
  {
    StoreLoaded(BigEndian, bytes);
    FieldReceived(host, Loaded(BigEndian, bytes));
  }

  /** The page number in a request as it comes from the network. */
  lemma PageAsked(bytes: seq<int>, r: Request)
    requires |bytes| == REQUEST_SIZE && forall i :: 0 <= i < REQUEST_SIZE ==> 0 <= bytes[i] < 256
    requires r == RequestFromWire(bytes)
    ensures r.pageNumber == bytes[4] * 0x100_0000 + bytes[5] * 0x1_0000 + bytes[6] * 0x100 + bytes[7]
    ensures NetworkBytes(r.requestId) == bytes[0..4] && NetworkBytes(r.pageNumber) == bytes[4..8]
  {
    StoreLoaded(BigEndian, bytes[..4]);
    StoreLoaded(BigEndian, bytes[4..]);
    assert bytes[0..4] == bytes[..4] && bytes[4..8] == bytes[4..];
  }

  /** A served page byte by byte. */
  lemma ServedContent(strategy: Strategy, pageCount: nat, r: Request)
    requires r.pageNumber < pageCount
    ensures forall i :: 12 <= i < 140 ==>
              Reply(Block(strategy, pageCount), pageCount, r)[i] == strategy.ValueAt(r.pageNumber * 128 + (i - 12))
  {
    var reply, page := Reply(Block(strategy, pageCount), pageCount, r), PageOf(strategy, pageCount, r.pageNumber);
    assert reply[12..] == page;
    forall i | 12 <= i < 140 ensures reply[i] == strategy.ValueAt(r.pageNumber * 128 + (i - 12)) {
      assert reply[i] == reply[12..][i - 12] == page[i - 12];
    }
  }

  class PageServer {
    const host: Host
    const pageCount: nat
    const memory: MemoryBlock

    ghost predicate Filled()
      reads this, memory, memory.data
    {
      memory.data[..] == Block(memory.strategy, pageCount)
    }

    constructor (host: Host, pageCount: nat, memory: MemoryBlock)
      requires memory.data[..] == Block(memory.strategy, pageCount)
      ensures this.host == host && this.pageCount == pageCount && this.memory == memory && Filled()
    {
      this.host, this.pageCount, this.memory := host, pageCount, memory;
    }

    /** One turn of the handler's loop: the reply to one whole request, whatever the host's byte order. */
    method Answer(bytes: seq<Byte>) returns (reply: seq<Byte>)
      requires Filled() && |bytes| == REQUEST_SIZE
      ensures reply == Reply(Block(memory.strategy, pageCount), pageCount, RequestFromWire(bytes))
      ensures |reply| == 140 && reply[0..4] == bytes[0..4] && reply[8..12] == bytes[4..8]
      ensures var b: seq<int> := bytes;
              var page := b[4] * 0x100_0000 + b[5] * 0x1_0000 + b[6] * 0x100 + b[7];
              if page < pageCount
              then reply[4..8] == [0, 0, 0, 0xC8]
                   && forall i :: 12 <= i < 140 ==> reply[i] == memory.strategy.ValueAt(page * 128 + (i - 12))
              else reply[4..8] == [0, 0, 1, 0x90] && forall i :: 12 <= i < 140 ==> reply[i] == 0xFA
    {
      reply := ComposeReply(bytes);
      ghost var r := RequestFromWire(bytes);
      PageAsked(bytes, r);
      ReplyBytes(Block(memory.strategy, pageCount), pageCount, r);
      if r.pageNumber < pageCount { ServedContent(memory.strategy, pageCount, r); }
    }

    /** Header and page, or the whole struct with filler. */
    method ComposeReply(bytes: seq<Byte>) returns (reply: seq<Byte>)
      requires Filled() && |bytes| == REQUEST_SIZE
      ensures reply == Reply(Block(memory.strategy, pageCount), pageCount, RequestFromWire(bytes))
    {
      var request := new GetPageRequest(RequestIn(host, bytes));
      FieldOnAnyHost(host, bytes[..4]);
      FieldOnAnyHost(host, bytes[4..]);
      request.ToHostOrder(host);
      var header := new GetPageResponseHeader(Header(request.requestId, 0, request.pageNumber));
      if request.pageNumber >= pageCount {
        header.status := INVALID_PAGE_NUMBER;
        header.ToNetworkOrder(host);
        reply := HeaderBytes(host, header.View()) + seq<Byte>(PAGE_SIZE, _ => 0xFA);
      } else {
        header.status := SUCCESS;
        PageInBlock(pageCount, request.pageNumber);
        var page := memory.data[request.pageNumber * PAGE_SIZE..(request.pageNumber + 1) * PAGE_SIZE];
        assert page == Slice(memory.data[..], request.pageNumber);
        header.ToNetworkOrder(host);
        reply := HeaderBytes(host, header.View()) + page;
      }
    }

    /** The handler's loop over what its reads bring; the first read short of a request ends it. */
    method HandleClient(arrivals: seq<seq<Byte>>) returns (sent: seq<Byte>)
      requires Filled()
      ensures sent == Replies(Block(memory.strategy, pageCount), pageCount, arrivals)
    {
      sent := [];
      ghost var block := Block(memory.strategy, pageCount);
      ghost var rest := Replies(block, pageCount, arrivals);
      ghost var all := rest;
      assert arrivals[0..] == arrivals;
      for i := 0 to |arrivals|
        invariant all == sent + rest && rest == Replies(block, pageCount, arrivals[i..])
      {
        if |arrivals[i]| != REQUEST_SIZE {
          NoMoreReplies(block, pageCount, arrivals, i);
          return;
        }
        var reply := Answer(arrivals[i]);
        RepliesFrom(block, pageCount, arrivals, i);
        ghost var later := Replies(block, pageCount, arrivals[i + 1..]);
        Regrouped(sent, reply, later);
        sent, rest := sent + reply, later;
      }
      NoMoreReplies(block, pageCount, arrivals, |arrivals|);
    }
  }
}
