/** Exactly when a response of the lock-step client is the reply to its own request. */
module PageAlignment {
  import opened Arithmetic
  import opened Wire
  import opened MemoryBlocks
  import opened PageService
  import opened PageClients

  // ---- The stream as the replies to increasing request numbers ----

  /** The numbers of the requests answered. */
  function Numbers(exchanges: seq<Exchange>): seq<nat> {
    if exchanges == [] then []
    else
      var last := |exchanges| - 1;
      Numbers(exchanges[..last]) + if IsAnswered(exchanges) then [last] else []
  }

  lemma {:induction false} NumbersIncrease(exchanges: seq<Exchange>)
    ensures |Numbers(exchanges)| == Answered(exchanges)
    ensures forall k :: 0 <= k < |Numbers(exchanges)| ==> Numbers(exchanges)[k] < |exchanges|
    ensures forall j, k :: 0 <= j < k < |Numbers(exchanges)| ==> Numbers(exchanges)[j] < Numbers(exchanges)[k]
    decreases |exchanges|
  {
    if exchanges != [] { NumbersIncrease(exchanges[..|exchanges| - 1]); }
  }

  /** The k-th 140 bytes of the stream are the reply to the k-th of them. */
  lemma {:induction false} PartIs(s: Setting, exchanges: seq<Exchange>, k: nat)
    requires Fits(s, exchanges) && k < Answered(exchanges)
    ensures |Stream(s, exchanges)| == RESPONSE_SIZE * Answered(exchanges)
    ensures |Numbers(exchanges)| == Answered(exchanges) && Numbers(exchanges)[k] < |exchanges|
    ensures Part(Stream(s, exchanges), k) == ReplyTo(s, Numbers(exchanges)[k])
    decreases |exchanges|
  {
    var last := |exchanges| - 1;
    var front := exchanges[..last];
    StreamGrows(s, exchanges);
    StreamLength(s, exchanges);
    StreamLength(s, front);
    NumbersIncrease(exchanges);
    NumbersIncrease(front);
    if k < Answered(front) {
      PartIs(s, front, k);
      PartOfFront(Stream(s, front), if IsAnswered(exchanges) then ReplyTo(s, last) else [], k);
    } else {
      PartAtEnd(Stream(s, front), ReplyTo(s, last), k);
    }
  }

  lemma PartOfFront(front: seq<Byte>, more: seq<Byte>, k: nat)
    requires RESPONSE_SIZE * (k + 1) <= |front|
    ensures Part(front + more, k) == Part(front, k)
  {
  }

  lemma PartAtEnd(front: seq<Byte>, more: seq<Byte>, k: nat)
    requires |front| == RESPONSE_SIZE * k && |more| == RESPONSE_SIZE
    ensures Part(front + more, k) == more
  {
  }

  // ---- What tells the bytes of a reply apart ----

  /** The smallest byte either strategy fills with; the filler of an error reply is larger. */
  const CONTENT: nat := 0x61

  /** The shape of the reply to request i: big-endian number, status 200 or 400, page number, content. */
  ghost predicate Shaped(reply: seq<Byte>, i: nat) {
    && |reply| == RESPONSE_SIZE && i < 0x8000_0000
    && reply[..4] == NetworkBytes(i)
    && reply[4] == reply[5] == 0
    && ((reply[6] == 0 && reply[7] == 0xC8) || (reply[6] == 1 && reply[7] == 0x90))
    && reply[8] <= i / 0x100_0000
    && forall j :: HEADER_SIZE <= j < RESPONSE_SIZE ==> reply[j] >= CONTENT
  }

  lemma TopDigit(a: nat, b: nat)
    requires a <= b
    ensures a / 0x100_0000 <= b / 0x100_0000
  {
  }

  lemma PageNumberSmall(i: nat, pages: nat)
    requires pages > 0
    ensures i % pages <= i
  {
    Euclid(i, pages);
  }

  lemma ReplyShaped(s: Setting, i: nat)
    requires s.clientPages > 0 && i < 0x8000_0000
    ensures Shaped(ReplyTo(s, i), i)
  {
    var n := i % s.clientPages;
    PageNumberSmall(i, s.clientPages);
    TopDigit(n, i);
    ReplyHeader(s, i);
    ReplyContent(s, i);
  }

  lemma ReplyHeader(s: Setting, i: nat)
    requires s.clientPages > 0 && i < 0x8000_0000
    ensures var reply := ReplyTo(s, i);
            && reply[..4] == NetworkBytes(i) && reply[4] == reply[5] == 0
            && ((reply[6] == 0 && reply[7] == 0xC8) || (reply[6] == 1 && reply[7] == 0x90))
            && reply[8] == i % s.clientPages / 0x100_0000
  {
    var n := i % s.clientPages;
    var status: UInt32 := if n >= s.serverPages then INVALID_PAGE_NUMBER else SUCCESS;
    HeaderShape(Header(i, status, n), ReplyTo(s, i));
    StatusBytes(status, ReplyTo(s, i)[4..8]);
  }

  lemma StatusBytes(status: UInt32, bytes: seq<Byte>)
    requires status == SUCCESS || status == INVALID_PAGE_NUMBER
    requires bytes == NetworkBytes(status)
    ensures bytes[0] == bytes[1] == 0 && ((bytes[2] == 0 && bytes[3] == 0xC8) || (bytes[2] == 1 && bytes[3] == 0x90))
  {
  }

  lemma ReplyContent(s: Setting, i: nat)
    requires s.clientPages > 0 && i < 0x8000_0000
    ensures forall j :: HEADER_SIZE <= j < RESPONSE_SIZE ==> ReplyTo(s, i)[j] >= CONTENT
  {
    var n, reply := i % s.clientPages, ReplyTo(s, i);
    if n < s.serverPages {
      assert reply[HEADER_SIZE..] == PageOf(s.filled, s.serverPages, n);
      forall j | HEADER_SIZE <= j < RESPONSE_SIZE ensures reply[j] >= CONTENT {
        assert reply[j] == PageOf(s.filled, s.serverPages, n)[j - HEADER_SIZE];
      }
    }
  }

  lemma HeaderShape(h: Header, reply: seq<Byte>)
    requires |reply| == RESPONSE_SIZE && reply[..HEADER_SIZE] == HeaderOnWire(h)
    requires h.status == SUCCESS || h.status == INVALID_PAGE_NUMBER
    ensures reply[..4] == NetworkBytes(h.requestId)
    ensures reply[4..8] == NetworkBytes(h.status)
    ensures reply[8] == h.pageNumber / 0x100_0000
  {
    assert reply[..4] == reply[..HEADER_SIZE][..4];
    assert reply[4..8] == reply[..HEADER_SIZE][4..8];
    assert reply[8] == reply[..HEADER_SIZE][8];
  }

  /** Numbers with the same bytes are the same. */
  lemma SameBytes(x: UInt32, y: UInt32)
    requires NetworkBytes(x) == NetworkBytes(y)
    ensures x == y
  {
    LoadStored(BigEndian, x);
    LoadStored(BigEndian, y);
  }

  /** A number whose bytes are those of a status is that status. */
  lemma StatusNumber(bytes: seq<Byte>, x: UInt32)
    requires |bytes| == 4 && bytes == NetworkBytes(x) && bytes[0] == bytes[1] == 0
    requires bytes[2] <= 1
    ensures x < 0x200
  {
    LoadStored(BigEndian, x);
  }

  lemma OtherReply(a: seq<Byte>, i: nat, b: seq<Byte>, j: nat)
    requires Shaped(a, i) && Shaped(b, j) && i != j
    ensures a != b
  {
    if a == b { SameBytes(i, j); }
  }

  /** The end of one reply and the start of the next. */
  function Straddle(a: seq<Byte>, b: seq<Byte>, r: nat): seq<Byte>
    requires |a| == |b| == RESPONSE_SIZE && r <= RESPONSE_SIZE
  {
    a[RESPONSE_SIZE - r..] + b[..RESPONSE_SIZE - r]
  }

  lemma FewBytesOff(a: seq<Byte>, i: nat, b: seq<Byte>, j: nat, own: seq<Byte>, k: nat, r: nat)
    requires Shaped(a, i) && Shaped(b, j) && Shaped(own, k) && 1 <= r <= 3
    ensures Straddle(a, b, r) != own
  {
    assert Straddle(a, b, r)[7] == b[7 - r];
  }

  lemma FourBytesOff(a: seq<Byte>, i: nat, b: seq<Byte>, j: nat, own: seq<Byte>, k: nat)
    requires Shaped(a, i) && Shaped(b, j) && Shaped(own, k)
    ensures Straddle(a, b, 4) != own
  {
    var x := Straddle(a, b, 4);
    assert x[4..8] == b[..4] && x[12] == b[8];
    if b[..4] == own[4..8] { StatusNumber(own[4..8], j); }
  }

  lemma ContentOff(a: seq<Byte>, i: nat, b: seq<Byte>, j: nat, own: seq<Byte>, k: nat, r: nat)
    requires Shaped(a, i) && Shaped(b, j) && Shaped(own, k) && 5 <= r <= 135
    ensures Straddle(a, b, r) != own
  {
    var x := Straddle(a, b, r);
    if r <= 132 {
      assert x[4] == a[RESPONSE_SIZE - r + 4] >= CONTENT;
    } else {
      assert x[r + 4] == b[4] == 0;
    }
  }

  lemma FourBytesBefore(a: seq<Byte>, i: nat, b: seq<Byte>, j: nat, own: seq<Byte>, k: nat)
    requires Shaped(a, i) && Shaped(b, j) && Shaped(own, k) && j <= k
    ensures Straddle(a, b, 136) != own
  {
    var x := Straddle(a, b, 136);
    assert x[..4] == a[4..8] && x[136] == b[0] == b[..4][0];
    TopDigit(j, k);
    if a[4..8] == own[..4] { StatusNumber(own[..4], k); }
  }

  lemma FewBytesBefore(a: seq<Byte>, i: nat, b: seq<Byte>, j: nat, own: seq<Byte>, k: nat, r: nat)
    requires Shaped(a, i) && Shaped(b, j) && Shaped(own, k) && 137 <= r <= 139
    ensures Straddle(a, b, r) != own
  {
    var x := Straddle(a, b, r);
    var at := 7 - (RESPONSE_SIZE - r);
    assert x[at] == a[7];
  }

  /** What lies across two replies is never a reply with no smaller number than theirs. */
  lemma StraddleIsNoReply(a: seq<Byte>, i: nat, b: seq<Byte>, j: nat, own: seq<Byte>, k: nat, r: nat)
    requires Shaped(a, i) && Shaped(b, j) && Shaped(own, k) && j <= k && 0 < r < RESPONSE_SIZE
    ensures Straddle(a, b, r) != own
  {
    if r <= 3 {
      FewBytesOff(a, i, b, j, own, k, r);
    } else if r == 4 {
      FourBytesOff(a, i, b, j, own, k);
    } else if r <= 135 {
      ContentOff(a, i, b, j, own, k, r);
    } else if r == 136 {
      FourBytesBefore(a, i, b, j, own, k);
    } else {
      FewBytesBefore(a, i, b, j, own, k, r);
    }
  }

  // ---- Any shift gives another response ----

  lemma PartsAcross(stream: seq<Byte>, k: nat, r: nat)
    requires 0 < r < RESPONSE_SIZE && RESPONSE_SIZE * (k + 2) <= |stream|
    ensures var p := RESPONSE_SIZE * (k + 1) - r;
            stream[p..p + RESPONSE_SIZE] == Straddle(Part(stream, k), Part(stream, k + 1), r)
  {
    var middle := RESPONSE_SIZE * (k + 1);
    var p := middle - r;
    assert stream[p..p + RESPONSE_SIZE] == stream[p..middle] + stream[middle..p + RESPONSE_SIZE];
    assert Part(stream, k)[RESPONSE_SIZE - r..] == stream[p..middle];
    assert Part(stream, k + 1)[..RESPONSE_SIZE - r] == stream[middle..p + RESPONSE_SIZE];
  }

  /** The 140 bytes with that many left after them. */
  function Window(stream: seq<Byte>, left: nat): (bytes: seq<Byte>)
    requires left + RESPONSE_SIZE <= |stream|
    ensures |bytes| == RESPONSE_SIZE
  {
    stream[|stream| - left - RESPONSE_SIZE..|stream| - left]
  }

  /** A window on a stream of m replies is one of them, or lies across two. */
  lemma WindowIs(stream: seq<Byte>, m: nat, left: nat) returns (k: nat, r: nat)
    requires |stream| == RESPONSE_SIZE * m && left + RESPONSE_SIZE <= |stream|
    ensures r < RESPONSE_SIZE && k < m && (left > 0 ==> r > 0 || k + 1 < m)
    ensures if r == 0 then Window(stream, left) == Part(stream, k)
            else k + 1 < m && Window(stream, left) == Straddle(Part(stream, k), Part(stream, k + 1), r)
  {
    r := left % RESPONSE_SIZE;
    var d := left / RESPONSE_SIZE;
    Euclid(left, RESPONSE_SIZE);
    if r == 0 {
      k := m - 1 - d;
    } else {
      k := m - 2 - d;
      PartsAcross(stream, k, r);
    }
  }

  /** A response is the window before what is left over from earlier exchanges. */
  lemma ResponseIsWindow(s: Setting, exchanges: seq<Exchange>)
    requires Fits(s, exchanges) && exchanges != [] && ReadWhole(exchanges) && IsAnswered(exchanges)
    ensures var left := Left(exchanges[..|exchanges| - 1]);
            && left + RESPONSE_SIZE <= |Stream(s, exchanges)|
            && Response(s, exchanges) == Window(Stream(s, exchanges), left)
  {
    LeftInStream(s, exchanges);
    FrontOfLast(Stream(s, exchanges), Left(exchanges[..|exchanges| - 1]));
  }

  lemma FrontOfLast(stream: seq<Byte>, left: nat)
    requires left + RESPONSE_SIZE <= |stream|
    ensures Last(stream, left + RESPONSE_SIZE)[..RESPONSE_SIZE] == Window(stream, left)
  {
  }

  /** Whole replies behind: the response is the reply to an earlier request. */
  lemma BehindIsNotOwn(s: Setting, exchanges: seq<Exchange>, k: nat)
    requires Fits(s, exchanges) && exchanges != [] && IsAnswered(exchanges) && k + 1 < Answered(exchanges)
    ensures RESPONSE_SIZE * (k + 1) <= |Stream(s, exchanges)|
    ensures Part(Stream(s, exchanges), k) != ReplyTo(s, |exchanges| - 1)
  {
    var last := |exchanges| - 1;
    PartIs(s, exchanges, k);
    NumbersIncrease(exchanges);
    var j := Numbers(exchanges)[k];
    assert j < Numbers(exchanges)[|Numbers(exchanges)| - 1] == last;
    ReplyShaped(s, j);
    ReplyShaped(s, last);
    OtherReply(ReplyTo(s, j), j, ReplyTo(s, last), last);
  }

  /** Some bytes of a reply behind: the response lies across two replies. */
  lemma AcrossIsNotOwn(s: Setting, exchanges: seq<Exchange>, k: nat, r: nat)
    requires Fits(s, exchanges) && exchanges != [] && k + 1 < Answered(exchanges) && 0 < r < RESPONSE_SIZE
    ensures RESPONSE_SIZE * (k + 2) <= |Stream(s, exchanges)|
    ensures Straddle(Part(Stream(s, exchanges), k), Part(Stream(s, exchanges), k + 1), r) != ReplyTo(s, |exchanges| - 1)
  {
    var last := |exchanges| - 1;
    PartIs(s, exchanges, k);
    PartIs(s, exchanges, k + 1);
    var i, j := Numbers(exchanges)[k], Numbers(exchanges)[k + 1];
    ReplyShaped(s, i);
    ReplyShaped(s, j);
    ReplyShaped(s, last);
    StraddleIsNoReply(ReplyTo(s, i), i, ReplyTo(s, j), j, ReplyTo(s, last), last, r);
  }

  /** With anything left over from before, a response is not the reply to its own request. */
  lemma ShiftedIsNotOwn(s: Setting, exchanges: seq<Exchange>)
    requires Fits(s, exchanges) && exchanges != [] && ReadWhole(exchanges) && IsAnswered(exchanges)
    requires Left(exchanges[..|exchanges| - 1]) > 0
    ensures Response(s, exchanges) != ReplyTo(s, |exchanges| - 1)
  {
    ResponseIsWindow(s, exchanges);
    StreamLength(s, exchanges);
    var k, r := WindowIs(Stream(s, exchanges), Answered(exchanges), Left(exchanges[..|exchanges| - 1]));
    if r == 0 {
      BehindIsNotOwn(s, exchanges, k);
    } else {
      AcrossIsNotOwn(s, exchanges, k, r);
    }
  }

  /**
   A full response to a request that was answered is the reply to that request exactly when every response before
   it was filled as well: no shift of the stream, by whole replies or by any number of bytes, can be mistaken.
   */
  lemma OwnReplyIff(s: Setting, exchanges: seq<Exchange>)
    requires Fits(s, exchanges) && exchanges != [] && ReadWhole(exchanges) && IsAnswered(exchanges)
    ensures Response(s, exchanges) == ReplyTo(s, |exchanges| - 1) <==> AllReadWhole(exchanges[..|exchanges| - 1])
  {
    OpenFront(exchanges);
    AlignedIff(exchanges[..|exchanges| - 1]);
    if AllReadWhole(exchanges[..|exchanges| - 1]) {
      AlignedResponse(s, exchanges);
    } else {
      ShiftedIsNotOwn(s, exchanges);
    }
  }
}
