/** The request loop of client.cpp, against the server of PageService. */
module PageClients {
  import opened Arithmetic
  import opened Wire
  import opened MemoryBlocks
  import opened PageService

  /** The client's host, what each side fills or expects pages with, and how many pages each side counts. */
  datatype Setting = Setting(host: Host, expected: Strategy, clientPages: nat, filled: Strategy, serverPages: nat)

  /**
   How one request goes: send fails, or the server's read brings so many bytes of it, and these are the results of
   the client's reads; further reads bring all that is asked for and there.
   */
  datatype Exchange = SendFails | Sent(arrived: nat, results: seq<int>)

  function Min(a: nat, b: nat): nat { if a < b then a else b }

  // ---- What the server gets and sends ----

  /** The requests' numbers fit the loop's int. */
  predicate Fits(s: Setting, exchanges: seq<Exchange>) {
    s.clientPages > 0 && |exchanges| <= 0x8000_0000
  }

  function RequestOf(s: Setting, i: nat): Request
    requires s.clientPages > 0 && i < 0x8000_0000
  {
    Request(i, i % s.clientPages)
  }

  /** What the server's read brings of the i-th request. */
  function Arrival(s: Setting, i: nat, arrived: nat): (bytes: seq<Byte>)
    requires s.clientPages > 0 && i < 0x8000_0000
    ensures |bytes| == Min(arrived, REQUEST_SIZE)
  {
    RequestOnWire(RequestOf(s, i))[..Min(arrived, REQUEST_SIZE)]
  }

  function Arrivals(s: Setting, exchanges: seq<Exchange>): seq<seq<Byte>>
    requires Fits(s, exchanges)
  {
    if exchanges == [] then []
    else
      var last := |exchanges| - 1;
      Arrivals(s, exchanges[..last])
      + if exchanges[last].Sent? then [Arrival(s, last, exchanges[last].arrived)] else []
  }

  /** Everything the server sends. */
  function Stream(s: Setting, exchanges: seq<Exchange>): seq<Byte>
    requires Fits(s, exchanges)
  {
    Replies(Block(s.filled, s.serverPages), s.serverPages, Arrivals(s, exchanges))
  }

  /** The server still answers: every request sent so far arrived whole. */
  predicate Open(exchanges: seq<Exchange>) {
    forall i :: 0 <= i < |exchanges| ==> exchanges[i].Sent? ==> exchanges[i].arrived >= REQUEST_SIZE
  }

  /** The last exchange gets an answer. */
  predicate IsAnswered(exchanges: seq<Exchange>)
    requires exchanges != []
  {
    exchanges[|exchanges| - 1].Sent? && Open(exchanges)
  }

  function Answered(exchanges: seq<Exchange>): nat {
    if exchanges == [] then 0
    else Answered(exchanges[..|exchanges| - 1]) + if IsAnswered(exchanges) then 1 else 0
  }

  /** The reply to request i. */
  function ReplyTo(s: Setting, i: nat): (bytes: seq<Byte>)
    requires s.clientPages > 0 && i < 0x8000_0000
    ensures |bytes| == RESPONSE_SIZE
  {
    Reply(Block(s.filled, s.serverPages), s.serverPages, RequestOf(s, i))
  }

  lemma OnTheWire(r: Request)
    ensures |RequestOnWire(r)| == REQUEST_SIZE && RequestFromWire(RequestOnWire(r)) == r
  {
    RequestRoundTrip(BigEndian, BigEndian, r);
    RequestSent(BigEndian, r);
    assert RequestOnWire(r)[..4] == NetworkBytes(r.requestId) && RequestOnWire(r)[4..] == NetworkBytes(r.pageNumber);
    LoadStored(BigEndian, r.requestId);
    LoadStored(BigEndian, r.pageNumber);
  }

  lemma WholeArrival(s: Setting, i: nat, arrived: nat)
    requires s.clientPages > 0 && i < 0x8000_0000 && arrived >= REQUEST_SIZE
    ensures |Arrival(s, i, arrived)| == REQUEST_SIZE && RequestFromWire(Arrival(s, i, arrived)) == RequestOf(s, i)
  {
    var wire := RequestOnWire(RequestOf(s, i));
    OnTheWire(RequestOf(s, i));
    assert wire[..REQUEST_SIZE] == wire;
  }

  lemma OpenFront(exchanges: seq<Exchange>)
    requires exchanges != []
    ensures var last := exchanges[|exchanges| - 1];
            Open(exchanges) <==> Open(exchanges[..|exchanges| - 1]) && (last.Sent? ==> last.arrived >= REQUEST_SIZE)
  {
    assert exchanges == exchanges[..|exchanges| - 1] + [exchanges[|exchanges| - 1]];
  }

  /** The last exchange's arrival, if there is one, joins those before. */
  lemma ArrivalsGrow(s: Setting, exchanges: seq<Exchange>)
    requires Fits(s, exchanges) && exchanges != []
    ensures var last := |exchanges| - 1;
            var before := Arrivals(s, exchanges[..last]);
            Arrivals(s, exchanges) ==
            if exchanges[last].Sent? then before + [Arrival(s, last, exchanges[last].arrived)] else before
  {
  }

  lemma {:induction false} OpenMeansWhole(s: Setting, exchanges: seq<Exchange>)
    requires Fits(s, exchanges)
    ensures Open(exchanges) <==> AllWhole(Arrivals(s, exchanges))
    decreases |exchanges|
  {
    if exchanges != [] {
      var last := |exchanges| - 1;
      OpenMeansWhole(s, exchanges[..last]);
      OpenFront(exchanges);
      ArrivalsGrow(s, exchanges);
      if exchanges[last].Sent? {
        AllWholeAppend(Arrivals(s, exchanges[..last]), Arrival(s, last, exchanges[last].arrived));
      }
    }
  }

  lemma AllWholeAppend(arrivals: seq<seq<Byte>>, bytes: seq<Byte>)
    ensures AllWhole(arrivals + [bytes]) <==> AllWhole(arrivals) && |bytes| == REQUEST_SIZE
  {
    if AllWhole(arrivals + [bytes]) {
      forall k | 0 <= k < |arrivals| ensures |arrivals[k]| == REQUEST_SIZE { assert (arrivals + [bytes])[k] == arrivals[k]; }
      assert (arrivals + [bytes])[|arrivals|] == bytes;
    }
  }

  /** Each answered exchange adds the reply to its own request to the stream, any other adds nothing. */
  lemma StreamGrows(s: Setting, exchanges: seq<Exchange>)
    requires Fits(s, exchanges) && exchanges != []
    ensures var last := |exchanges| - 1;
            Stream(s, exchanges) == Stream(s, exchanges[..last]) + if IsAnswered(exchanges) then ReplyTo(s, last) else []
  {
    var last := |exchanges| - 1;
    ArrivalsGrow(s, exchanges);
    OpenFront(exchanges);
    if exchanges[last].Sent? {
      OpenMeansWhole(s, exchanges[..last]);
      StreamTakes(s, Arrivals(s, exchanges[..last]), last, exchanges[last].arrived);
    }
  }

  lemma StreamTakes(s: Setting, before: seq<seq<Byte>>, i: nat, arrived: nat)
    requires s.clientPages > 0 && i < 0x8000_0000
    ensures var block := Block(s.filled, s.serverPages);
            Replies(block, s.serverPages, before + [Arrival(s, i, arrived)]) ==
            Replies(block, s.serverPages, before)
            + if AllWhole(before) && arrived >= REQUEST_SIZE then ReplyTo(s, i) else []
  {
    RepliesAppend(Block(s.filled, s.serverPages), s.serverPages, before, Arrival(s, i, arrived));
    if arrived >= REQUEST_SIZE { WholeArrival(s, i, arrived); }
  }

  lemma {:induction false} StreamLength(s: Setting, exchanges: seq<Exchange>)
    requires Fits(s, exchanges)
    ensures |Stream(s, exchanges)| == RESPONSE_SIZE * Answered(exchanges)
    decreases |exchanges|
  {
    if exchanges != [] {
      StreamLength(s, exchanges[..|exchanges| - 1]);
      StreamGrows(s, exchanges);
    }
  }

  // ---- What the client reads of it ----

  /** How many bytes reads with these results take, wanting so many while so many are there. */
  function BytesRead(results: seq<int>, wanted: nat, available: nat): (n: nat)
    ensures n <= wanted && n <= available
    decreases available
  {
    var result := if results == [] then wanted else results[0];
    if wanted == 0 || result < 0 then 0
    else
      var got := Min(Min(result, wanted), available);
      if got == 0 then 0
      else got + BytesRead(Later(results), wanted - got, available - got)
  }

  function Later(results: seq<int>): seq<int> { if results == [] then [] else results[1..] }

  lemma NextRead(results: seq<int>, wanted: nat, available: nat)
    requires wanted > 0
    ensures var result := if results == [] then wanted else results[0];
            var got := if result < 0 then 0 else Min(Min(result, wanted), available);
            BytesRead(results, wanted, available) ==
            if got == 0 then 0 else got + BytesRead(Later(results), wanted - got, available - got)
  {
  }

  /** The bytes there for the last exchange's reads: those left over before, and its own reply. */
  function Available(exchanges: seq<Exchange>): nat
    requires exchanges != []
    decreases |exchanges|, 0
  {
    Left(exchanges[..|exchanges| - 1]) + if IsAnswered(exchanges) then RESPONSE_SIZE else 0
  }

  /** The bytes sent and not read. */
  function Left(exchanges: seq<Exchange>): nat
    decreases |exchanges|, 1
  {
    if exchanges == [] then 0
    else
      var last := exchanges[|exchanges| - 1];
      Available(exchanges) - if last.Sent? then BytesRead(last.results, RESPONSE_SIZE, Available(exchanges)) else 0
  }

  /** The last exchange's reads fill the response. */
  predicate ReadWhole(exchanges: seq<Exchange>)
    requires exchanges != []
  {
    var last := exchanges[|exchanges| - 1];
    last.Sent? && BytesRead(last.results, RESPONSE_SIZE, Available(exchanges)) == RESPONSE_SIZE
  }

  lemma {:induction false} LeftInStream(s: Setting, exchanges: seq<Exchange>)
    requires Fits(s, exchanges)
    ensures Left(exchanges) <= |Stream(s, exchanges)|
    ensures exchanges != [] ==> Available(exchanges) <= |Stream(s, exchanges)|
    decreases |exchanges|
  {
    if exchanges != [] {
      LeftInStream(s, exchanges[..|exchanges| - 1]);
      StreamGrows(s, exchanges);
    }
  }

  /** The last n bytes. */
  function Last(stream: seq<Byte>, n: nat): (bytes: seq<Byte>)
    requires n <= |stream|
    ensures |bytes| == n
  {
    stream[|stream| - n..]
  }

  /** What the client has not read: the end of the stream. */
  function Unread(s: Setting, exchanges: seq<Exchange>): (bytes: seq<Byte>)
    requires Fits(s, exchanges)
    ensures |bytes| == Left(exchanges)
  {
    LeftInStream(s, exchanges);
    Last(Stream(s, exchanges), Left(exchanges))
  }

  /** What there is to read in the last exchange. */
  function There(s: Setting, exchanges: seq<Exchange>): (bytes: seq<Byte>)
    requires Fits(s, exchanges) && exchanges != []
    ensures |bytes| == Available(exchanges)
  {
    LeftInStream(s, exchanges);
    Last(Stream(s, exchanges), Available(exchanges))
  }

  /** What the last exchange finds in the response: the next 140 bytes of the stream, whosever reply they are. */
  function Response(s: Setting, exchanges: seq<Exchange>): (bytes: seq<Byte>)
    requires Fits(s, exchanges) && exchanges != [] && ReadWhole(exchanges)
    ensures |bytes| == RESPONSE_SIZE
  {
    There(s, exchanges)[..RESPONSE_SIZE]
  }

  /** What the client checks: success, and a page that verifies for the number the response carries. */
  predicate Good(s: Setting, response: seq<Byte>)
    requires |response| == RESPONSE_SIZE
  {
    var h := SwapHeader(s.host, HeaderIn(s.host, response[..HEADER_SIZE]));
    h.status == SUCCESS && Passes(s.expected, s.clientPages, response[HEADER_SIZE..], h.pageNumber)
  }

  /** The exchanges whose response is whole and good. */
  function Correct(s: Setting, exchanges: seq<Exchange>): nat
    requires Fits(s, exchanges)
  {
    if exchanges == [] then 0
    else
      Correct(s, exchanges[..|exchanges| - 1])
      + if ReadWhole(exchanges) && Good(s, Response(s, exchanges)) then 1 else 0
  }

  function Incorrect(s: Setting, exchanges: seq<Exchange>): nat
    requires Fits(s, exchanges)
  {
    if exchanges == [] then 0
    else
      Incorrect(s, exchanges[..|exchanges| - 1])
      + if ReadWhole(exchanges) && !Good(s, Response(s, exchanges)) then 1 else 0
  }

  /** One exchange: its reply, if there is one, joins what was unread before. */
  lemma ThereGrows(s: Setting, exchanges: seq<Exchange>)
    requires Fits(s, exchanges) && exchanges != []
    ensures var last := |exchanges| - 1;
            There(s, exchanges) == Unread(s, exchanges[..last]) + if IsAnswered(exchanges) then ReplyTo(s, last) else []
  {
    var last := |exchanges| - 1;
    StreamGrows(s, exchanges);
    LeftInStream(s, exchanges[..last]);
    LastWithMore(Stream(s, exchanges[..last]), if IsAnswered(exchanges) then ReplyTo(s, last) else [], Left(exchanges[..last]));
  }

  lemma LastWithMore(front: seq<Byte>, more: seq<Byte>, left: nat)
    requires left <= |front|
    ensures Last(front + more, left + |more|) == Last(front, left) + more
  {
  }

  /** And its reads take the front of what is there. */
  lemma Consumes(s: Setting, exchanges: seq<Exchange>)
    requires Fits(s, exchanges) && exchanges != []
    ensures Unread(s, exchanges) == There(s, exchanges)[Available(exchanges) - Left(exchanges)..]
  {
    LeftInStream(s, exchanges);
    LastOfLast(Stream(s, exchanges), Available(exchanges), Left(exchanges));
  }

  lemma LastOfLast(stream: seq<Byte>, available: nat, left: nat)
    requires left <= available <= |stream|
    ensures Last(stream, left) == Last(stream, available)[available - left..]
  {
  }

  // ---- Alignment ----

  /** Every request sent so far had its response filled. */
  predicate AllReadWhole(exchanges: seq<Exchange>) {
    forall i :: 0 <= i < |exchanges| ==> exchanges[i].Sent? ==> ReadWhole(exchanges[..i + 1])
  }

  lemma AllReadWholeFront(exchanges: seq<Exchange>)
    requires exchanges != []
    ensures AllReadWhole(exchanges) <==>
            AllReadWhole(exchanges[..|exchanges| - 1]) && (exchanges[|exchanges| - 1].Sent? ==> ReadWhole(exchanges))
  {
    var last := |exchanges| - 1;
    var front := exchanges[..last];
    assert exchanges[..last + 1] == exchanges;
    forall i | 0 <= i < last ensures front[..i + 1] == exchanges[..i + 1] && front[i] == exchanges[i] {}
    if AllReadWhole(exchanges) {
      forall i | 0 <= i < last && front[i].Sent? ensures ReadWhole(front[..i + 1]) { assert exchanges[i].Sent?; }
    }
  }

  /** While the server answers, what is left over never shrinks. */
  lemma LeftNeverShrinks(exchanges: seq<Exchange>)
    requires exchanges != [] && Open(exchanges)
    ensures Left(exchanges[..|exchanges| - 1]) <= Left(exchanges)
    ensures Left(exchanges) == Left(exchanges[..|exchanges| - 1]) <==>
            (exchanges[|exchanges| - 1].Sent? ==> ReadWhole(exchanges))
  {
  }

  /** So nothing is left over exactly as long as no reply was read short: the stream never realigns. */
  lemma {:induction false} AlignedIff(exchanges: seq<Exchange>)
    requires Open(exchanges)
    ensures Left(exchanges) == 0 <==> AllReadWhole(exchanges)
    decreases |exchanges|
  {
    if exchanges != [] {
      assert Open(exchanges[..|exchanges| - 1]);
      AlignedIff(exchanges[..|exchanges| - 1]);
      LeftNeverShrinks(exchanges);
      AllReadWholeFront(exchanges);
    }
  }

  /** A response that is filled while nothing was left over is the reply to its own request. */
  lemma AlignedResponse(s: Setting, exchanges: seq<Exchange>)
    requires Fits(s, exchanges) && exchanges != [] && ReadWhole(exchanges)
    requires Left(exchanges[..|exchanges| - 1]) == 0
    ensures Response(s, exchanges) == ReplyTo(s, |exchanges| - 1)
  {
    ThereGrows(s, exchanges);
    OnlyReply(Unread(s, exchanges[..|exchanges| - 1]), ReplyTo(s, |exchanges| - 1));
  }

  lemma OnlyReply(before: seq<Byte>, reply: seq<Byte>)
    requires before == [] && |reply| == RESPONSE_SIZE
    ensures (before + reply)[..RESPONSE_SIZE] == reply
  {
  }

  /** The block of 140 bytes with that many blocks after it. */
  function FromEnd(stream: seq<Byte>, behind: nat): seq<Byte>
    requires RESPONSE_SIZE * (behind + 1) <= |stream|
  {
    stream[|stream| - RESPONSE_SIZE * (behind + 1)..][..RESPONSE_SIZE]
  }

  lemma PartFromEnd(stream: seq<Byte>, count: nat, behind: nat)
    requires |stream| == RESPONSE_SIZE * count && behind < count
    ensures FromEnd(stream, behind) == Part(stream, count - 1 - behind)
  {
  }

  /** With whole replies left over, a response is the reply to an earlier request, as many back as are left over. */
  lemma ShiftedResponse(s: Setting, exchanges: seq<Exchange>, behind: nat)
    requires Fits(s, exchanges) && exchanges != [] && ReadWhole(exchanges)
    requires Available(exchanges) == RESPONSE_SIZE * (behind + 1)
    ensures var arrivals := Arrivals(s, exchanges);
            && behind < Served(arrivals) && |arrivals[Served(arrivals) - 1 - behind]| == REQUEST_SIZE
            && Response(s, exchanges) == Reply(Block(s.filled, s.serverPages), s.serverPages,
                                               RequestFromWire(arrivals[Served(arrivals) - 1 - behind]))
  {
    var block, arrivals := Block(s.filled, s.serverPages), Arrivals(s, exchanges);
    LeftInStream(s, exchanges);
    assert Response(s, exchanges) == FromEnd(Stream(s, exchanges), behind);
    RepliesLength(block, s.serverPages, arrivals);
    PartFromEnd(Stream(s, exchanges), Served(arrivals), behind);
    ReplyAt(block, s.serverPages, arrivals, Served(arrivals) - 1 - behind);
  }

  // ---- What the counts count ----

  predicate FilledAt(exchanges: seq<Exchange>, i: nat) {
    i < |exchanges| && ReadWhole(exchanges[..i + 1])
  }

  predicate ApprovedAt(s: Setting, exchanges: seq<Exchange>, i: nat)
    requires Fits(s, exchanges)
  {
    FilledAt(exchanges, i) && Good(s, Response(s, exchanges[..i + 1]))
  }

  /** The exchanges whose response was filled. */
  function Filled(exchanges: seq<Exchange>): set<nat> {
    set i: nat | i < |exchanges| && FilledAt(exchanges, i)
  }

  /** And those whose response was also good. */
  function Approved(s: Setting, exchanges: seq<Exchange>): set<nat>
    requires Fits(s, exchanges)
  {
    set i: nat | i < |exchanges| && ApprovedAt(s, exchanges, i)
  }

  lemma FrontPrefix(exchanges: seq<Exchange>, i: nat)
    requires i + 1 < |exchanges|
    ensures exchanges[..|exchanges| - 1][..i + 1] == exchanges[..i + 1]
  {
  }

  lemma FilledFront(exchanges: seq<Exchange>)
    requires exchanges != []
    ensures var last := |exchanges| - 1;
            last !in Filled(exchanges[..last])
            && Filled(exchanges) == Filled(exchanges[..last]) + if ReadWhole(exchanges) then {last} else {}
  {
    var last := |exchanges| - 1;
    assert exchanges[..last + 1] == exchanges;
    forall i: nat | i < last ensures FilledAt(exchanges, i) <==> FilledAt(exchanges[..last], i) { FrontPrefix(exchanges, i); }
  }

  lemma ApprovedEarlier(s: Setting, exchanges: seq<Exchange>, i: nat)
    requires Fits(s, exchanges) && i + 1 < |exchanges|
    ensures ApprovedAt(s, exchanges, i) <==> ApprovedAt(s, exchanges[..|exchanges| - 1], i)
  {
    FrontPrefix(exchanges, i);
  }

  lemma ApprovedLast(s: Setting, exchanges: seq<Exchange>)
    requires Fits(s, exchanges) && exchanges != []
    ensures ApprovedAt(s, exchanges, |exchanges| - 1) <==> ReadWhole(exchanges) && Good(s, Response(s, exchanges))
  {
    assert exchanges[..|exchanges|] == exchanges;
  }

  lemma ApprovedFront(s: Setting, exchanges: seq<Exchange>)
    requires Fits(s, exchanges) && exchanges != []
    ensures var last := |exchanges| - 1;
            last !in Approved(s, exchanges[..last])
            && Approved(s, exchanges) == Approved(s, exchanges[..last])
                                         + if ApprovedAt(s, exchanges, last) then {last} else {}
  {
    var last := |exchanges| - 1;
    forall i: nat | i < last ensures ApprovedAt(s, exchanges, i) <==> ApprovedAt(s, exchanges[..last], i) {
      ApprovedEarlier(s, exchanges, i);
    }
  }

  /** The counts of one more exchange. */
  lemma CountsGrow(s: Setting, exchanges: seq<Exchange>)
    requires Fits(s, exchanges) && exchanges != []
    ensures var last := |exchanges| - 1;
            && Correct(s, exchanges) == Correct(s, exchanges[..last]) + (if ApprovedAt(s, exchanges, last) then 1 else 0)
            && Correct(s, exchanges) + Incorrect(s, exchanges)
               == Correct(s, exchanges[..last]) + Incorrect(s, exchanges[..last]) + if ReadWhole(exchanges) then 1 else 0
  {
    ApprovedLast(s, exchanges);
  }

  lemma OneMore(before: set<nat>, after: set<nat>, last: nat, joins: bool)
    requires last !in before && after == before + if joins then {last} else {}
    ensures |after| == |before| + if joins then 1 else 0
  {
  }

  /**
   In every course, whatever fails: a request is counted exactly if its response was filled, and as correct exactly
   if the response was good. Failed sends, failed reads and closed connections are not counted at all.
   */
  lemma {:induction false} WhatIsCounted(s: Setting, exchanges: seq<Exchange>)
    requires Fits(s, exchanges)
    ensures Correct(s, exchanges) == |Approved(s, exchanges)|
    ensures Correct(s, exchanges) + Incorrect(s, exchanges) == |Filled(exchanges)|
    decreases |exchanges|
  {
    if exchanges == [] {
      assert Approved(s, []) == {} && Filled([]) == {};
    } else {
      var last := |exchanges| - 1;
      WhatIsCounted(s, exchanges[..last]);
      CountsGrow(s, exchanges);
      FilledFront(exchanges);
      OneMore(Filled(exchanges[..last]), Filled(exchanges), last, ReadWhole(exchanges));
      ApprovedFront(s, exchanges);
      OneMore(Approved(s, exchanges[..last]), Approved(s, exchanges), last, ApprovedAt(s, exchanges, last));
    }
  }

  /** What good means, in the bytes of the response: status 200, an existing page, and that page's content. */
  lemma GoodBytes(s: Setting, response: seq<Byte>)
    requires |response| == RESPONSE_SIZE
    ensures var b: seq<int> := response;
            var page := b[8] * 0x100_0000 + b[9] * 0x1_0000 + b[10] * 0x100 + b[11];
            Good(s, response) <==>
            && response[4..8] == [0, 0, 0, 0xC8] && page < s.clientPages
            && forall i :: 12 <= i < 140 ==> response[i] == s.expected.ValueAt(page * 128 + (i - 12))
  {
    var b: seq<int> := response;
    var page := b[8] * 0x100_0000 + b[9] * 0x1_0000 + b[10] * 0x100 + b[11];
    GoodFields(s, response);
    StatusIs200(response[4..8]);
    PassesByteForByte(s.expected, s.clientPages, response[HEADER_SIZE..], page);
    ContentAt(s.expected, response, page);
  }

  lemma GoodFields(s: Setting, response: seq<Byte>)
    requires |response| == RESPONSE_SIZE
    ensures var b: seq<int> := response;
            var page := b[8] * 0x100_0000 + b[9] * 0x1_0000 + b[10] * 0x100 + b[11];
            Good(s, response) <==>
            Loaded(BigEndian, response[4..8]) == 200 && Passes(s.expected, s.clientPages, response[HEADER_SIZE..], page)
  {
    FieldsOfResponse(s.host, response);
  }

  lemma FieldsOfResponse(host: Host, response: seq<Byte>)
    requires |response| == RESPONSE_SIZE
    ensures var h := SwapHeader(host, HeaderIn(host, response[..HEADER_SIZE]));
            var b: seq<int> := response;
            && h.status == Loaded(BigEndian, response[4..8])
            && h.pageNumber == b[8] * 0x100_0000 + b[9] * 0x1_0000 + b[10] * 0x100 + b[11]
  {
    HeaderFields(host, response);
    FieldOnAnyHost(host, response[4..8]);
    FieldOnAnyHost(host, response[8..12]);
  }

  lemma ContentAt(strategy: Strategy, response: seq<Byte>, page: nat)
    requires |response| == RESPONSE_SIZE
    ensures (forall i :: 0 <= i < PAGE_SIZE ==> response[HEADER_SIZE..][i] == strategy.ValueAt(page * PAGE_SIZE + i)) <==>
            (forall i :: 12 <= i < 140 ==> response[i] == strategy.ValueAt(page * 128 + (i - 12)))
  {
    if forall i :: 0 <= i < PAGE_SIZE ==> response[HEADER_SIZE..][i] == strategy.ValueAt(page * PAGE_SIZE + i) {
      forall i | 12 <= i < 140 ensures response[i] == strategy.ValueAt(page * 128 + (i - 12)) {
        assert response[i] == response[HEADER_SIZE..][i - 12];
      }
    }
  }

  lemma StatusIs200(bytes: seq<Byte>)
    requires |bytes| == 4
    ensures Loaded(BigEndian, bytes) == 200 <==> bytes == [0, 0, 0, 0xC8]
  {
    if Loaded(BigEndian, bytes) == 200 { StoreLoaded(BigEndian, bytes); }
  }

  /** A read that fails at once: the request was answered, and nothing is counted. */
  lemma FailedReadCountsNothing(s: Setting)
    requires s.clientPages > 0
    ensures Correct(s, [Sent(8, [-1])]) == Incorrect(s, [Sent(8, [-1])]) == 0
  {
    UnreadFirst(s, Sent(8, [-1]), Sent(8, []));
    WhatIsCounted(s, [Sent(8, [-1])]);
    assert Filled([Sent(8, [-1])]) == {} by {
      FilledFront([Sent(8, [-1])]);
      assert Filled([]) == {};
    }
  }

  /** The first reply is never read; the second exchange finds it, carrying request id 0, and still counts it as correct. */
  lemma StaleReplyCounts(s: Setting)
    requires s.clientPages > 0 && s.serverPages > 0 && s.expected == s.filled
    ensures var exchanges := [Sent(8, [-1]), Sent(8, [])];
            && ReadWhole(exchanges) && Response(s, exchanges) == ReplyTo(s, 0)
            && SwapHeader(s.host, HeaderIn(s.host, Response(s, exchanges)[..HEADER_SIZE])).requestId == 0
            && Correct(s, exchanges) == 1 && Incorrect(s, exchanges) == 0
  {
    var first, second := Sent(8, [-1]), Sent(8, []);
    UnreadFirst(s, first, second);
    GoodReply(s, 0);
  }

  lemma UnreadFirst(s: Setting, first: Exchange, second: Exchange)
    requires s.clientPages > 0 && first == Sent(8, [-1]) && second == Sent(8, [])
    ensures !ReadWhole([first]) && ReadWhole([first, second])
    ensures Response(s, [first, second]) == ReplyTo(s, 0)
    ensures Correct(s, [first, second]) == if Good(s, ReplyTo(s, 0)) then 1 else 0
    ensures Incorrect(s, [first, second]) == if Good(s, ReplyTo(s, 0)) then 0 else 1
  {
    var one, two := [first], [first, second];
    assert one[..0] == [] && two[..1] == one;
    assert Available(one) == RESPONSE_SIZE && Left(one) == RESPONSE_SIZE;
    assert Available(two) == 2 * RESPONSE_SIZE;
    assert BytesRead([], RESPONSE_SIZE, 2 * RESPONSE_SIZE) == RESPONSE_SIZE;
    ThereGrows(s, one);
    Consumes(s, one);
    ThereGrows(s, two);
    assert Unread(s, one) == ReplyTo(s, 0);
    assert Correct(s, one) == Incorrect(s, one) == 0;
  }

  // ---- Runs in which no read fails ----

  predicate AllPositive(results: seq<int>) {
    forall i :: 0 <= i < |results| ==> results[i] > 0
  }

  /** No read fails, or is empty while there is something to read. */
  predicate Clean(exchanges: seq<Exchange>) {
    forall i :: 0 <= i < |exchanges| ==> exchanges[i].Sent? ==> AllPositive(exchanges[i].results)
  }

  function Total(results: seq<int>): int {
    if results == [] then 0 else results[0] + Total(results[1..])
  }

  /** Reads go on until the first that fails or brings nothing, whatever would come after it. */
  lemma {:induction false} StopsAtFailure(before: seq<int>, failure: int, later: seq<int>, wanted: nat, available: nat)
    requires AllPositive(before) && failure <= 0
    ensures Total(before) >= 0
    ensures BytesRead(before + [failure] + later, wanted, available) == Min(Total(before), Min(wanted, available))
    decreases |before|
  {
    var results := before + [failure] + later;
    if before != [] {
      assert results[1..] == before[1..] + [failure] + later;
      var got := Min(Min(before[0], wanted), available);
      StopsAtFailure(before[1..], failure, later, wanted - got, available - got);
    }
  }

  lemma {:induction false} PositiveReadsAll(results: seq<int>, wanted: nat, available: nat)
    requires AllPositive(results)
    ensures BytesRead(results, wanted, available) == Min(wanted, available)
    decreases available
  {
    var result := if results == [] then wanted else results[0];
    var got := Min(Min(result, wanted), available);
    if wanted > 0 && available > 0 {
      PositiveReadsAll(Later(results), wanted - got, available - got);
    }
  }

  /** Then nothing is ever left over: an exchange is read whole exactly when it is answered. */
  lemma {:induction false} CleanLeavesNothing(exchanges: seq<Exchange>)
    requires Clean(exchanges)
    ensures Left(exchanges) == 0
    ensures exchanges != [] ==> (ReadWhole(exchanges) <==> IsAnswered(exchanges))
    decreases |exchanges|
  {
    if exchanges != [] {
      var last := exchanges[|exchanges| - 1];
      CleanLeavesNothing(exchanges[..|exchanges| - 1]);
      if last.Sent? { PositiveReadsAll(last.results, RESPONSE_SIZE, Available(exchanges)); }
    }
  }

  /** Answered requests for a page the server has. */
  function Present(s: Setting, exchanges: seq<Exchange>): nat
    requires s.clientPages > 0
  {
    if exchanges == [] then 0
    else
      var last := |exchanges| - 1;
      Present(s, exchanges[..last]) + if IsAnswered(exchanges) && last % s.clientPages < s.serverPages then 1 else 0
  }

  /** The counts are then exact: a request is correct exactly when it was answered and the server has its page. */
  lemma {:induction false} CleanCounts(s: Setting, exchanges: seq<Exchange>)
    requires Fits(s, exchanges) && Clean(exchanges) && s.expected == s.filled
    ensures Correct(s, exchanges) == Present(s, exchanges)
    ensures Correct(s, exchanges) + Incorrect(s, exchanges) == Answered(exchanges)
    decreases |exchanges|
  {
    if exchanges != [] {
      var last := |exchanges| - 1;
      CleanCounts(s, exchanges[..last]);
      CleanLeavesNothing(exchanges[..last]);
      CleanLeavesNothing(exchanges);
      if ReadWhole(exchanges) {
        AlignedResponse(s, exchanges);
        GoodReply(s, last);
      }
    }
  }

  /** The requests below n, numbered round and round over c pages, that fall on the first s of them. */
  function OnFirstPages(n: nat, c: nat, s: nat): nat
    requires c > 0
  {
    if n == 0 then 0 else OnFirstPages(n - 1, c, s) + if (n - 1) % c < s then 1 else 0
  }

  lemma {:induction false} WholeAndPartialRounds(n: nat, c: nat, s: nat)
    requires c > 0
    ensures OnFirstPages(n, c, s) == n / c * Min(c, s) + Min(n % c, s)
  {
    if n == 0 {
      DivMod(0, 0, 0, c);
    } else {
      WholeAndPartialRounds(n - 1, c, s);
      NextRound(n - 1, c);
      Distribute((n - 1) / c, 1, Min(c, s));
    }
  }

  /** The first m requests are answered, and no other: the next, if there is one, does not arrive whole. */
  predicate AnsweredUpTo(exchanges: seq<Exchange>, m: nat) {
    && m <= |exchanges|
    && (forall i :: 0 <= i < m ==> exchanges[i].Sent? && exchanges[i].arrived >= REQUEST_SIZE)
    && (m < |exchanges| ==> exchanges[m].Sent? && exchanges[m].arrived < REQUEST_SIZE)
  }

  lemma {:induction false} PresentUpTo(s: Setting, exchanges: seq<Exchange>, m: nat)
    requires s.clientPages > 0 && AnsweredUpTo(exchanges, m)
    ensures Present(s, exchanges) == OnFirstPages(m, s.clientPages, s.serverPages) && Answered(exchanges) == m
    decreases |exchanges|
  {
    if exchanges != [] {
      var last := |exchanges| - 1;
      var front := exchanges[..last];
      PresentUpTo(s, front, Min(m, last));
      if m <= last { assert !Open(exchanges); } else { assert Open(exchanges); }
    }
  }

  /**
   Up to the first request that does not arrive whole, whose read ends the server's loop: whole rounds over the
   client's pages, and one partial round.
   */
  lemma CorrectClosedForm(s: Setting, exchanges: seq<Exchange>, m: nat)
    requires Fits(s, exchanges) && Clean(exchanges) && s.expected == s.filled && AnsweredUpTo(exchanges, m)
    ensures Correct(s, exchanges) == m / s.clientPages * Min(s.clientPages, s.serverPages)
                                     + Min(m % s.clientPages, s.serverPages)
    ensures Correct(s, exchanges) + Incorrect(s, exchanges) == m
  {
    CleanCounts(s, exchanges);
    PresentUpTo(s, exchanges, m);
    WholeAndPartialRounds(m, s.clientPages, s.serverPages);
  }

  lemma NextRound(k: nat, c: nat)
    requires c > 0
    ensures if k % c == c - 1 then (k + 1) / c == k / c + 1 && (k + 1) % c == 0
            else (k + 1) / c == k / c && (k + 1) % c == k % c + 1
  {
    var q, r := k / c, k % c;
    Euclid(k, c);
    if r == c - 1 {
      Distribute(q, 1, c);
      DivMod(k + 1, q + 1, 0, c);
    } else {
      DivMod(k + 1, q, r + 1, c);
    }
  }

  lemma HeaderOfReply(s: Setting, i: nat)
    requires s.clientPages > 0 && i < 0x8000_0000
    ensures SwapHeader(s.host, HeaderIn(s.host, ReplyTo(s, i)[..HEADER_SIZE])) ==
            Header(i, if i % s.clientPages >= s.serverPages then INVALID_PAGE_NUMBER else SUCCESS, i % s.clientPages)
  {
    var n := i % s.clientPages;
    var h := Header(i, if n >= s.serverPages then INVALID_PAGE_NUMBER else SUCCESS, n);
    assert ReplyTo(s, i)[..HEADER_SIZE] == HeaderOnWire(h);
    HeaderSent(s.host, h);
    HeaderRoundTrip(s.host, s.host, h);
  }

  /** A page does not depend on how many pages its block has. */
  lemma PageOfReply(s: Setting, i: nat)
    requires s.clientPages > 0 && i < 0x8000_0000 && i % s.clientPages < s.serverPages
    ensures ReplyTo(s, i)[HEADER_SIZE..] == PageOf(s.filled, s.clientPages, i % s.clientPages)
  {
    var n := i % s.clientPages;
    assert ReplyTo(s, i)[HEADER_SIZE..] == PageOf(s.filled, s.serverPages, n);
    assert PageOf(s.filled, s.serverPages, n) == PageOf(s.filled, s.clientPages, n);
  }

  /** The reply to request i carries its id, and is good exactly when the server has the page. */
  lemma GoodReply(s: Setting, i: nat)
    requires s.clientPages > 0 && i < 0x8000_0000 && s.expected == s.filled
    ensures SwapHeader(s.host, HeaderIn(s.host, ReplyTo(s, i)[..HEADER_SIZE])).requestId == i
    ensures Good(s, ReplyTo(s, i)) <==> i % s.clientPages < s.serverPages
  {
    HeaderOfReply(s, i);
    if i % s.clientPages < s.serverPages { PageOfReply(s, i); }
  }

  class PageClient {
    const host: Host
    const verifier: MemoryBlockVerifier
    /** The response struct, overlaid on its bytes. */
    const response: array<Byte>
    /** What the server sent and the client has not read, and whether the server still answers. */
    var inbox: seq<Byte>
    var serverOpen: bool
    var correct: nat
    var incorrect: nat

    constructor (host: Host, verifier: MemoryBlockVerifier)
      ensures this.host == host && this.verifier == verifier && fresh(response) && response.Length == RESPONSE_SIZE
      ensures inbox == [] && serverOpen && correct == incorrect == 0
    {
      this.host, this.verifier := host, verifier;
      response := new Byte[RESPONSE_SIZE](_ => 0);
      inbox, serverOpen, correct, incorrect := [], true, 0, 0;
    }

    function SettingWith(server: PageServer): Setting {
      Setting(host, verifier.strategy, verifier.pageCount, server.memory.strategy, server.pageCount)
    }

    /** Reassembly: reads of any size until the response is full, a read fails, or nothing more comes. */
    method ReadResponse(results: seq<int>) returns (totalRead: nat)
      requires response.Length == RESPONSE_SIZE
      modifies response, `inbox
      ensures totalRead == BytesRead(results, RESPONSE_SIZE, |old(inbox)|)
      ensures response[..] == old(inbox)[..totalRead] + old(response[..])[totalRead..]
      ensures inbox == old(inbox)[totalRead..]
    {
      totalRead := 0;
      var still := results;
      ghost var stream, first := inbox, response[..];
      ghost var total := BytesRead(results, RESPONSE_SIZE, |stream|);
      while totalRead < RESPONSE_SIZE
        invariant totalRead <= RESPONSE_SIZE && totalRead <= |stream|
        invariant response[..] == stream[..totalRead] + first[totalRead..] && inbox == stream[totalRead..]
        invariant totalRead + BytesRead(still, RESPONSE_SIZE - totalRead, |inbox|) == total
        decreases RESPONSE_SIZE - totalRead
      {
        var got := ReadOnce(totalRead, still, stream, first);
        if got == 0 { break; }
        totalRead, still := totalRead + got, Later(still);
      }
    }

    /** One read with the first of these results, as a part of the reassembly; nothing is read when it fails or finds nothing. */
    method ReadOnce(at: nat, results: seq<int>, ghost stream: seq<Byte>, ghost first: seq<Byte>) returns (got: nat)
      requires at < response.Length == |first| == RESPONSE_SIZE && at <= |stream|
      requires response[..] == stream[..at] + first[at..] && inbox == stream[at..]
      modifies response, `inbox
      ensures at + got <= RESPONSE_SIZE && at + got <= |stream|
      ensures response[..] == stream[..at + got] + first[at + got..] && inbox == stream[at + got..]
      ensures BytesRead(results, RESPONSE_SIZE - at, |old(inbox)|) ==
              if got == 0 then 0
              else got + BytesRead(Later(results), RESPONSE_SIZE - (at + got), |inbox|)
    {
      var wanted := RESPONSE_SIZE - at;
      var result := if results == [] then wanted else results[0];
      got := if result < 0 then 0 else Min(Min(result, wanted), |inbox|);
      NextRead(results, wanted, |inbox|);
      ghost var was := response[..];
      Receive(at, got);
      Reassembled(stream, first, was, response[..], at, got);
    }

    /** One read: bytes from the stream into the response, from that position on. */
    method Receive(at: nat, got: nat)
      requires at + got <= response.Length && got <= |inbox|
      modifies response, `inbox
      ensures response[..] == old(response[..at]) + old(inbox)[..got] + old(response[at + got..])
      ensures inbox == old(inbox)[got..]
    {
      forall i | 0 <= i < got { response[at + i] := inbox[i]; }
      inbox := inbox[got..];
    }

    method FieldToHostOrder(at: nat)
      requires at + 4 <= response.Length
      modifies response
      ensures response[..] == SwapField(host, old(response[..]), at)
    {
      var x := Htonl(host, Loaded(host, response[at..at + 4]));
      var bytes := Stored(host, x);
      response[at], response[at + 1], response[at + 2], response[at + 3] := bytes[0], bytes[1], bytes[2], bytes[3];
    }

    /** response.to_host_order(): the three header fields are rewritten in place. */
    method ToHostOrder()
      requires response.Length == RESPONSE_SIZE
      modifies response
      ensures HeaderIn(host, response[..HEADER_SIZE]) == SwapHeader(host, HeaderIn(host, old(response[..HEADER_SIZE])))
      ensures response[HEADER_SIZE..] == old(response[HEADER_SIZE..])
    {
      ghost var s := response[..];
      SwapFields(host, s);
      assert s[..HEADER_SIZE] == response[..HEADER_SIZE] && s[HEADER_SIZE..] == response[HEADER_SIZE..];
      FieldToHostOrder(0);
      FieldToHostOrder(4);
      FieldToHostOrder(8);
      assert response[..][..HEADER_SIZE] == response[..HEADER_SIZE] && response[..][HEADER_SIZE..] == response[HEADER_SIZE..];
    }

    /** The server's read brings that much of a request; it answers a whole one, and closes on any other. */
    method Deliver(server: PageServer, request: seq<Byte>, arrived: nat)
      requires |request| == REQUEST_SIZE && server.Filled()
      modifies `inbox, `serverOpen
      ensures serverOpen == (old(serverOpen) && arrived >= REQUEST_SIZE)
      ensures inbox == old(inbox) + if serverOpen
                         then Reply(Block(server.memory.strategy, server.pageCount), server.pageCount, RequestFromWire(request))
                         else []
    {
      var bytes := request[..Min(arrived, REQUEST_SIZE)];
      if serverOpen {
        if |bytes| != REQUEST_SIZE {
          serverOpen := false;
        } else {
          assert bytes == request;
          var reply := server.Answer(bytes);
          inbox := inbox + reply;
        }
      }
    }

    /**
     The loop's turn for one request: sending it and, if that went well, reading its response; tells whether the
     response is full. What is in the inbox and in a full response is what the whole course of exchanges says.
     */
    method RequestPage(server: PageServer, ghost exchanges: seq<Exchange>, i: nat, exchange: Exchange) returns (whole: bool)
      requires response.Length == RESPONSE_SIZE && response != server.memory.data && server.Filled()
      requires verifier.pageCount > 0 && |exchanges| == i + 1 <= 0x8000_0000 && exchanges[i] == exchange
      requires inbox == Unread(SettingWith(server), exchanges[..i]) && serverOpen == Open(exchanges[..i])
      modifies response, `inbox, `serverOpen
      ensures server.Filled()
      ensures inbox == Unread(SettingWith(server), exchanges) && serverOpen == Open(exchanges)
      ensures whole <==> ReadWhole(exchanges)
      ensures whole ==> response[..] == Response(SettingWith(server), exchanges)
    {
      ghost var s := SettingWith(server);
      ghost var before := inbox;
      OpenFront(exchanges);
      ThereGrows(s, exchanges);
      Consumes(s, exchanges);
      if exchange.SendFails? { return false; }
      var bytes := Prepare(i);
      Deliver(server, bytes, exchange.arrived);
      assert inbox == before + if IsAnswered(exchanges) then ReplyTo(s, i) else [];
      ghost var there := inbox;
      var totalRead := ReadResponse(exchange.results);
      whole := totalRead == RESPONSE_SIZE;
      if whole { assert response[..] == there[..RESPONSE_SIZE] + []; }
    }

    /** The request struct as it goes to send, in network order. */
    method Prepare(i: nat) returns (bytes: seq<Byte>)
      requires verifier.pageCount > 0 && i < 0x8000_0000
      ensures bytes == RequestOnWire(Request(i, i % verifier.pageCount)) && |bytes| == REQUEST_SIZE
      ensures RequestFromWire(bytes) == Request(i, i % verifier.pageCount)
    {
      var request := new GetPageRequest(Request(i, i % verifier.pageCount));
      request.ToNetworkOrder(host);
      bytes := RequestBytes(host, request.View());
      OnTheWire(Request(i, i % verifier.pageCount));
    }

    /** The status and page checks of a full response; the response's own page number is what gets verified. */
    method Check() returns (good: bool)
      requires response.Length == RESPONSE_SIZE
      modifies response
      ensures var h := SwapHeader(host, HeaderIn(host, old(response[..HEADER_SIZE])));
              good <==> h.status == 200
                        && Passes(verifier.strategy, verifier.pageCount, old(response[HEADER_SIZE..]), h.pageNumber)
    {
      ToHostOrder();
      var header := HeaderIn(host, response[..HEADER_SIZE]);
      if header.status != SUCCESS { return false; }
      good := verifier.Verify(response[HEADER_SIZE..], header.pageNumber);
    }

    /** One turn of the loop: what the counts and the inbox say of i exchanges they then say of one more. */
    method Turn(server: PageServer, exchanges: seq<Exchange>, i: nat)
      requires response.Length == RESPONSE_SIZE && response != server.memory.data && server.Filled()
      requires verifier.pageCount > 0 && i < |exchanges| <= 0x8000_0000
      requires inbox == Unread(SettingWith(server), exchanges[..i]) && serverOpen == Open(exchanges[..i])
      requires correct == Correct(SettingWith(server), exchanges[..i])
      requires incorrect == Incorrect(SettingWith(server), exchanges[..i])
      modifies this, response
      ensures server.Filled()
      ensures inbox == Unread(SettingWith(server), exchanges[..i + 1]) && serverOpen == Open(exchanges[..i + 1])
      ensures correct == Correct(SettingWith(server), exchanges[..i + 1])
      ensures incorrect == Incorrect(SettingWith(server), exchanges[..i + 1])
    {
      ghost var course := exchanges[..i + 1];
      assert course[..i] == exchanges[..i];
      var whole := RequestPage(server, course, i, exchanges[i]);
      if whole {
        assert response[..HEADER_SIZE] == response[..][..HEADER_SIZE];
        assert response[HEADER_SIZE..] == response[..][HEADER_SIZE..];
        var good := Check();
        if good { correct := correct + 1; } else { incorrect := incorrect + 1; }
      }
    }

    /** The loop over all requests: both counts, whatever fails on the way. */
    method Run(server: PageServer, exchanges: seq<Exchange>)
      requires response.Length == RESPONSE_SIZE && response != server.memory.data && server.Filled()
      requires verifier.pageCount > 0 && |exchanges| <= 0x8000_0000
      requires inbox == [] && serverOpen && correct == incorrect == 0
      modifies this, response
      ensures correct == Correct(SettingWith(server), exchanges)
      ensures incorrect == Incorrect(SettingWith(server), exchanges)
      ensures inbox == Unread(SettingWith(server), exchanges)
    {
      BeforeAndAfterAll(SettingWith(server), exchanges);
      for i := 0 to |exchanges|
        invariant server.Filled()
        invariant inbox == Unread(SettingWith(server), exchanges[..i]) && serverOpen == Open(exchanges[..i])
        invariant correct == Correct(SettingWith(server), exchanges[..i])
        invariant incorrect == Incorrect(SettingWith(server), exchanges[..i])
      {
        Turn(server, exchanges, i);
      }
    }
  }

  lemma BeforeAndAfterAll(s: Setting, exchanges: seq<Exchange>)
    requires Fits(s, exchanges)
    ensures Unread(s, exchanges[..0]) == [] && Open(exchanges[..0])
    ensures Correct(s, exchanges[..0]) == Incorrect(s, exchanges[..0]) == 0
    ensures exchanges[..|exchanges|] == exchanges
  {
  }

  lemma Reassembled(stream: seq<Byte>, first: seq<Byte>, was: seq<Byte>, now: seq<Byte>, at: nat, got: nat)
    requires at + got <= |stream| && at + got <= |first|
    requires was == stream[..at] + first[at..]
    requires now == was[..at] + stream[at..][..got] + was[at + got..]
    ensures now == stream[..at + got] + first[at + got..] && stream[at..][got..] == stream[at + got..]
  {
  }

  /** One 32-bit field of a struct, swapped where it lies. */
  function SwapField(host: Host, s: seq<Byte>, at: nat): (r: seq<Byte>)
    requires at + 4 <= |s|
    ensures |r| == |s|
  {
    s[..at] + Stored(host, Htonl(host, Loaded(host, s[at..at + 4]))) + s[at + 4..]
  }

  lemma SwapFieldAt(host: Host, s: seq<Byte>, at: nat)
    requires at + 4 <= |s|
    ensures Loaded(host, SwapField(host, s, at)[at..at + 4]) == Htonl(host, Loaded(host, s[at..at + 4]))
  {
    var x := Htonl(host, Loaded(host, s[at..at + 4]));
    assert SwapField(host, s, at)[at..at + 4] == Stored(host, x);
    LoadStored(host, x);
  }

  lemma SwapFieldElsewhere(host: Host, s: seq<Byte>, at: nat, from: nat, to: nat)
    requires at + 4 <= |s| && from <= to <= |s| && (to <= at || at + 4 <= from)
    ensures SwapField(host, s, at)[from..to] == s[from..to]
  {
    Spliced(s, Stored(host, Htonl(host, Loaded(host, s[at..at + 4]))), at, from, to);
  }

  lemma Spliced(s: seq<Byte>, four: seq<Byte>, at: nat, from: nat, to: nat)
    requires |four| == 4 && at + 4 <= |s| && from <= to <= |s| && (to <= at || at + 4 <= from)
    ensures (s[..at] + four + s[at + 4..])[from..to] == s[from..to]
  {
    var r := s[..at] + four + s[at + 4..];
    if to <= at {
      assert r[..at] == s[..at];
      assert r[from..to] == r[..at][from..to] && s[from..to] == s[..at][from..to];
    } else {
      assert r[at + 4..] == s[at + 4..];
      assert r[from..to] == r[at + 4..][from - at - 4..to - at - 4] && s[from..to] == s[at + 4..][from - at - 4..to - at - 4];
    }
  }

  /** The field at one position after all three swaps: swapped once, by the swap that is at that position. */
  lemma SwappedOnce(host: Host, s: seq<Byte>, at: nat)
    requires |s| >= HEADER_SIZE && at in {0, 4, 8}
    ensures Loaded(host, Swapped(host, s)[at..at + 4]) == Htonl(host, Loaded(host, s[at..at + 4]))
  {
    var a := SwapField(host, s, 0);
    var b := SwapField(host, a, 4);
    if at == 0 {
      SwapFieldAt(host, s, 0);
      SwapFieldElsewhere(host, a, 4, 0, 4);
      SwapFieldElsewhere(host, b, 8, 0, 4);
    } else if at == 4 {
      SwapFieldElsewhere(host, s, 0, 4, 8);
      SwapFieldAt(host, a, 4);
      SwapFieldElsewhere(host, b, 8, 4, 8);
    } else {
      SwapFieldElsewhere(host, s, 0, 8, 12);
      SwapFieldElsewhere(host, a, 4, 8, 12);
      SwapFieldAt(host, b, 8);
    }
  }

  lemma SwappedRest(host: Host, s: seq<Byte>)
    requires |s| >= HEADER_SIZE
    ensures Swapped(host, s)[HEADER_SIZE..] == s[HEADER_SIZE..]
  {
    var a := SwapField(host, s, 0);
    SwapFieldElsewhere(host, s, 0, 12, |s|);
    SwapFieldElsewhere(host, a, 4, 12, |s|);
    SwapFieldElsewhere(host, SwapField(host, a, 4), 8, 12, |s|);
    assert s[12..] == s[12..|s|];
  }

  lemma HeaderFields(host: Host, s: seq<Byte>)
    requires |s| >= HEADER_SIZE
    ensures HeaderIn(host, s[..HEADER_SIZE]) == Header(Loaded(host, s[0..4]), Loaded(host, s[4..8]), Loaded(host, s[8..12]))
  {
    var h := s[..HEADER_SIZE];
    assert h[..4] == s[0..4] && h[4..8] == s[4..8] && h[8..] == s[8..12];
  }

  /** The three header fields rewritten one after the other. */
  function Swapped(host: Host, s: seq<Byte>): (r: seq<Byte>)
    requires |s| >= HEADER_SIZE
    ensures |r| == |s|
  {
    SwapField(host, SwapField(host, SwapField(host, s, 0), 4), 8)
  }

  lemma SwapFields(host: Host, s: seq<Byte>)
    requires |s| == RESPONSE_SIZE
    ensures HeaderIn(host, Swapped(host, s)[..HEADER_SIZE]) == SwapHeader(host, HeaderIn(host, s[..HEADER_SIZE]))
    ensures Swapped(host, s)[HEADER_SIZE..] == s[HEADER_SIZE..]
  {
    SwappedOnce(host, s, 0);
    SwappedOnce(host, s, 4);
    SwappedOnce(host, s, 8);
    SwappedRest(host, s);
    HeaderFields(host, s);
    HeaderFields(host, Swapped(host, s));
  }
}
