/** The get-page messages of models/get_page.hpp: packed 32-bit fields, kept in host order and sent in network order. */
module Wire {
  import opened Arithmetic

  type Byte = x: int | 0 <= x < 256
  type UInt32 = x: int | 0 <= x < 0x1_0000_0000

  /** How the host keeps a 32-bit word in memory. */
  datatype Host = LittleEndian | BigEndian

  /** Most significant byte first, the order Appendix B of RFC 791 prescribes. */
  function NetworkBytes(x: UInt32): (bytes: seq<Byte>)
    ensures |bytes| == 4
  {
    [x / 0x100_0000, x / 0x1_0000 % 256, x / 256 % 256, x % 256]
  }

  function Reverse4(bytes: seq<Byte>): (r: seq<Byte>)
    requires |bytes| == 4
    ensures |r| == 4
  {
    [bytes[3], bytes[2], bytes[1], bytes[0]]
  }

  /** The memory of a 32-bit field. */
  function Stored(host: Host, x: UInt32): (bytes: seq<Byte>)
    ensures |bytes| == 4
  {
    if host == BigEndian then NetworkBytes(x) else Reverse4(NetworkBytes(x))
  }

  /** The value of the 32-bit field in those four bytes. */
  function Loaded(host: Host, bytes: seq<Byte>): UInt32
    requires |bytes| == 4
  {
    var b := if host == BigEndian then bytes else Reverse4(bytes);
    Word(b[0], b[1], b[2], b[3])
  }

  function Word(b3: int, b2: int, b1: int, b0: int): int {
    b3 * 0x100_0000 + b2 * 0x1_0000 + b1 * 256 + b0
  }

  /** htonl and ntohl are the same function: a byte swap on little-endian hosts, nothing on big-endian ones. */
  function Htonl(host: Host, x: UInt32): UInt32 {
    if host == BigEndian then x
    else Word(x % 256, x / 256 % 256, x / 0x1_0000 % 256, x / 0x100_0000)
  }

  /** Reading back what was stored. */
  lemma LoadStored(host: Host, x: UInt32)
    ensures Loaded(host, Stored(host, x)) == x
  {
    DigitsMakeWord(x);
  }

  lemma DigitsMakeWord(x: UInt32)
    ensures Word(x / 0x100_0000, x / 0x1_0000 % 256, x / 256 % 256, x % 256) == x
  {
    var h := x / 256;
    var k := h / 256;
    Euclid(x, 256);
    Euclid(h, 256);
    Euclid(k, 256);
    DivMod(x, k, h % 256 * 256 + x % 256, 0x1_0000);
    DivMod(x, k / 256, k % 256 * 0x1_0000 + h % 256 * 256 + x % 256, 0x100_0000);
  }

  lemma StoreLoaded(host: Host, bytes: seq<Byte>)
    requires |bytes| == 4
    ensures Stored(host, Loaded(host, bytes)) == bytes
  {
    var b := if host == BigEndian then bytes else Reverse4(bytes);
    WordDigits(b[0], b[1], b[2], b[3]);
    assert NetworkBytes(Loaded(host, bytes)) == b;
  }

  lemma WordDigits(b3: Byte, b2: Byte, b1: Byte, b0: Byte)
    ensures NetworkBytes(Word(b3, b2, b1, b0)) == [b3, b2, b1, b0]
  {
    var x := Word(b3, b2, b1, b0);
    DivMod(x, b3 * 0x1_0000 + b2 * 256 + b1, b0, 256);
    DivMod(x, b3 * 256 + b2, b1 * 256 + b0, 0x1_0000);
    DivMod(x, b3, b2 * 0x1_0000 + b1 * 256 + b0, 0x100_0000);
    DivMod(b3 * 0x1_0000 + b2 * 256 + b1, b3 * 256 + b2, b1, 256);
    DivMod(b3 * 256 + b2, b3, b2, 256);
  }

  /** Whatever the host, the memory of a field after htonl is the network's byte order. */
  lemma NetworkOrderOnTheWire(host: Host, x: UInt32)
    ensures Stored(host, Htonl(host, x)) == NetworkBytes(x)
  {
    if host == LittleEndian {
      StoreLoaded(host, NetworkBytes(x));
    }
  }

  lemma SwapTwice(host: Host, x: UInt32)
    ensures Htonl(host, Htonl(host, x)) == x
  {
    NetworkOrderOnTheWire(host, x);
    if host == LittleEndian {
      StoreLoaded(host, Stored(host, x));
      NetworkOrderOnTheWire(host, Htonl(host, x));
      LoadStored(BigEndian, x);
      LoadStored(host, x);
    }
  }

  /** Which byte is where: on the wire the most significant one is first, in a little-endian host's memory it is last. */
  lemma ByteOrder(x: UInt32)
    ensures var b: seq<int> := NetworkBytes(x);
            && x == b[0] * 0x100_0000 + b[1] * 0x1_0000 + b[2] * 0x100 + b[3]
            && Stored(BigEndian, x) == b && Stored(LittleEndian, x) == [b[3], b[2], b[1], b[0]]
            && Htonl(BigEndian, x) == x
            && Htonl(LittleEndian, x) == b[3] * 0x100_0000 + b[2] * 0x1_0000 + b[1] * 0x100 + b[0]
  {
    DigitsMakeWord(x);
  }

  // ---- Messages ----

  const SUCCESS: UInt32 := 200
  const INVALID_PAGE_NUMBER: UInt32 := 400

  datatype Request = Request(requestId: UInt32, pageNumber: UInt32)
  datatype Header = Header(requestId: UInt32, status: UInt32, pageNumber: UInt32)

  const REQUEST_SIZE: nat := 8
  const HEADER_SIZE: nat := 12

  function SwapRequest(host: Host, r: Request): Request {
    Request(Htonl(host, r.requestId), Htonl(host, r.pageNumber))
  }

  function SwapHeader(host: Host, h: Header): Header {
    Header(Htonl(host, h.requestId), Htonl(host, h.status), Htonl(host, h.pageNumber))
  }

  /** The packed structs in memory. */
  function RequestBytes(host: Host, r: Request): (bytes: seq<Byte>)
    ensures |bytes| == REQUEST_SIZE
  {
    Stored(host, r.requestId) + Stored(host, r.pageNumber)
  }

  function HeaderBytes(host: Host, h: Header): (bytes: seq<Byte>)
    ensures |bytes| == HEADER_SIZE
  {
    Stored(host, h.requestId) + Stored(host, h.status) + Stored(host, h.pageNumber)
  }

  function RequestIn(host: Host, bytes: seq<Byte>): Request
    requires |bytes| == REQUEST_SIZE
  {
    Request(Loaded(host, bytes[..4]), Loaded(host, bytes[4..]))
  }

  function HeaderIn(host: Host, bytes: seq<Byte>): Header
    requires |bytes| == HEADER_SIZE
  {
    Header(Loaded(host, bytes[..4]), Loaded(host, bytes[4..8]), Loaded(host, bytes[8..]))
  }

  /** The bytes a message has on the wire, whichever host sends it. */
  function RequestOnWire(r: Request): seq<Byte> {
    NetworkBytes(r.requestId) + NetworkBytes(r.pageNumber)
  }

  function HeaderOnWire(h: Header): (bytes: seq<Byte>)
    ensures |bytes| == HEADER_SIZE
  {
    NetworkBytes(h.requestId) + NetworkBytes(h.status) + NetworkBytes(h.pageNumber)
  }

  /** Where each field lies: a request is id and page number, a response header id, status and page number. */
  lemma Layout(r: Request, h: Header)
    ensures |RequestOnWire(r)| == 8
    ensures RequestOnWire(r)[0..4] == NetworkBytes(r.requestId) && RequestOnWire(r)[4..8] == NetworkBytes(r.pageNumber)
    ensures |HeaderOnWire(h)| == 12
    ensures HeaderOnWire(h)[0..4] == NetworkBytes(h.requestId) && HeaderOnWire(h)[4..8] == NetworkBytes(h.status)
    ensures HeaderOnWire(h)[8..12] == NetworkBytes(h.pageNumber)
  {
  }

  lemma RequestSent(host: Host, r: Request)
    ensures RequestBytes(host, SwapRequest(host, r)) == RequestOnWire(r)
  {
    NetworkOrderOnTheWire(host, r.requestId);
    NetworkOrderOnTheWire(host, r.pageNumber);
  }

  lemma HeaderSent(host: Host, h: Header)
    ensures HeaderBytes(host, SwapHeader(host, h)) == HeaderOnWire(h)
  {
    NetworkOrderOnTheWire(host, h.requestId);
    NetworkOrderOnTheWire(host, h.status);
    NetworkOrderOnTheWire(host, h.pageNumber);
  }

  /** A field in network order, loaded by any host and put in host order, is the field that was sent. */
  lemma FieldReceived(host: Host, x: UInt32)
    ensures Htonl(host, Loaded(host, NetworkBytes(x))) == x
  {
    NetworkOrderOnTheWire(host, x);
    LoadStored(host, Htonl(host, x));
    SwapTwice(host, x);
  }

  /** Sending on one host and receiving on another is the identity, for all fields and both byte orders. */
  lemma RequestRoundTrip(sender: Host, receiver: Host, r: Request)
    ensures SwapRequest(receiver, RequestIn(receiver, RequestBytes(sender, SwapRequest(sender, r)))) == r
  {
    RequestSent(sender, r);
    assert RequestOnWire(r)[..4] == NetworkBytes(r.requestId) && RequestOnWire(r)[4..] == NetworkBytes(r.pageNumber);
    FieldReceived(receiver, r.requestId);
    FieldReceived(receiver, r.pageNumber);
  }

  lemma HeaderRoundTrip(sender: Host, receiver: Host, h: Header)
    ensures SwapHeader(receiver, HeaderIn(receiver, HeaderBytes(sender, SwapHeader(sender, h)))) == h
  {
    HeaderSent(sender, h);
    var bytes := HeaderOnWire(h);
    assert bytes[..4] == NetworkBytes(h.requestId) && bytes[4..8] == NetworkBytes(h.status)
           && bytes[8..] == NetworkBytes(h.pageNumber);
    FieldReceived(receiver, h.requestId);
    FieldReceived(receiver, h.status);
    FieldReceived(receiver, h.pageNumber);
  }

  class GetPageRequest {
    var requestId: UInt32
    var pageNumber: UInt32

    function View(): Request
      reads this
    {
      Request(requestId, pageNumber)
    }

    constructor (r: Request)
      ensures View() == r
    {
      requestId, pageNumber := r.requestId, r.pageNumber;
    }

    method ToNetworkOrder(host: Host)
      modifies this
      ensures View() == SwapRequest(host, old(View()))
      ensures RequestBytes(host, View()) == RequestOnWire(old(View()))
    {
      RequestSent(host, View());
      requestId := Htonl(host, requestId);
      pageNumber := Htonl(host, pageNumber);
    }

    method ToHostOrder(host: Host)
      modifies this
      ensures View() == SwapRequest(host, old(View()))
      ensures forall r :: RequestBytes(host, old(View())) == RequestOnWire(r) ==> View() == r
    {
      forall r | RequestBytes(host, View()) == RequestOnWire(r) ensures SwapRequest(host, View()) == r {
        StoredIsIt(host, View(), r);
      }
      requestId := Htonl(host, requestId);
      pageNumber := Htonl(host, pageNumber);
    }
  }

  lemma StoredIsIt(host: Host, r: Request, sent: Request)
    requires RequestBytes(host, r) == RequestOnWire(sent)
    ensures SwapRequest(host, r) == sent
  {
    var bytes := RequestBytes(host, r);
    assert bytes[..4] == Stored(host, r.requestId) && bytes[4..] == Stored(host, r.pageNumber);
    assert bytes[..4] == NetworkBytes(sent.requestId) && bytes[4..] == NetworkBytes(sent.pageNumber);
    LoadStored(host, r.requestId);
    LoadStored(host, r.pageNumber);
    FieldReceived(host, sent.requestId);
    FieldReceived(host, sent.pageNumber);
  }

  class GetPageResponseHeader {
    var requestId: UInt32
    var status: UInt32
    var pageNumber: UInt32

    function View(): Header
      reads this
    {
      Header(requestId, status, pageNumber)
    }

    constructor (h: Header)
      ensures View() == h
    {
      requestId, status, pageNumber := h.requestId, h.status, h.pageNumber;
    }

    method ToNetworkOrder(host: Host)
      modifies this
      ensures View() == SwapHeader(host, old(View()))
      ensures HeaderBytes(host, View()) == HeaderOnWire(old(View()))
    {
      HeaderSent(host, View());
      requestId := Htonl(host, requestId);
      status := Htonl(host, status);
      pageNumber := Htonl(host, pageNumber);
    }
  }
}
