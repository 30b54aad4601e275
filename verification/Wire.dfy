/** include/protocol/protocol.h: the four packets, their in-memory layout and the byte-order conversions. */
module Wire {
  import opened Types

  const CAST: byte := 0x11
  const FLOW: byte := 0x22
  const SEND: byte := 0x33
  const RECV: byte := 0x44

  /** A packet with its fields in host order. Padding bytes are always 0 and are not represented. */
  datatype Packet =
    | Cast(crc16: u16)
    | Flow(chunkSize: u16, sequence: u32, crc32: u32)
    | Send(chsize: u16, chcount: u32, pchsize: u16, crc: u16)
    | Recv(ack: byte, check: u16, answered: u32)

  datatype Host = LittleEndian | BigEndian

  function Swap16(v: u16): u16 { (v % 0x100) * 0x100 + v / 0x100 }

  function Swap32(v: u32): u32 { Swap16(v % 0x1_0000) * 0x1_0000 + Swap16(v / 0x1_0000) }

  /** `htons`, which is also `ntohs`. */
  function Htons(h: Host, v: u16): u16 { if h.LittleEndian? then Swap16(v) else v }

  function Htonl(h: Host, v: u32): u32 { if h.LittleEndian? then Swap32(v) else v }

  /** The two bytes a host keeps in memory for a 16-bit value, lowest address first, and back. */
  function Store16(h: Host, v: u16): seq<byte> {
    if h.LittleEndian? then [v % 0x100, v / 0x100] else [v / 0x100, v % 0x100]
  }

  function Load16(h: Host, m: seq<byte>): u16
    requires |m| == 2
  {
    if h.LittleEndian? then m[0] as int + m[1] as int * 0x100 else m[0] as int * 0x100 + m[1] as int
  }

  function Store32(h: Host, v: u32): seq<byte> {
    if h.LittleEndian? then Store16(h, v % 0x1_0000) + Store16(h, v / 0x1_0000)
    else Store16(h, v / 0x1_0000) + Store16(h, v % 0x1_0000)
  }

  function Load32(h: Host, m: seq<byte>): u32
    requires |m| == 4
  {
    if h.LittleEndian? then Load16(h, m[..2]) as int + Load16(h, m[2..]) as int * 0x1_0000
    else Load16(h, m[..2]) as int * 0x1_0000 + Load16(h, m[2..]) as int
  }

  /** `pack_RUFShare_*`: the fields as the packed structure holds them, converted to network order. */
  function Pack(h: Host, p: Packet): Packet {
    match p
    case Cast(c) => Cast(Htons(h, c))
    case Flow(size, sq, c) => Flow(Htons(h, size), Htonl(h, sq), Htonl(h, c))
    case Send(size, n, last, c) => Send(Htons(h, size), Htonl(h, n), Htons(h, last), Htons(h, c))
    case Recv(a, c, sq) => Recv(a, Htons(h, c), Htonl(h, sq))
  }

  function TypeOf(p: Packet): byte {
    match p
    case Cast(_) => CAST
    case Flow(_, _, _) => FLOW
    case Send(_, _, _, _) => SEND
    case Recv(_, _, _) => RECV
  }

  predicate KnownType(t: byte) { t in {CAST, FLOW, SEND, RECV} }

  function SizeOf(t: byte): nat {
    if t == CAST then 4 else if t == RECV then 8 else 12
  }

  /** The bytes of the structure as `memcpy` copies them out of memory. */
  function Memory(h: Host, p: Packet): (m: seq<byte>)
    ensures |m| == SizeOf(TypeOf(p))
    ensures m[0] == TypeOf(p)
  {
    match p
    case Cast(c) => [CAST, 0] + Store16(h, c)
    case Flow(size, sq, c) => [FLOW, 0] + Store16(h, size) + Store32(h, sq) + Store32(h, c)
    case Send(size, n, last, c) => [SEND, 0] + Store16(h, size) + Store32(h, n) + Store16(h, last) + Store16(h, c)
    case Recv(a, c, sq) => [RECV, a] + Store16(h, c) + Store32(h, sq)
  }

  /** The structure of type `t` read back from memory; the caller has checked the type byte. */
  function FromMemory(h: Host, t: byte, m: seq<byte>): Packet
    requires KnownType(t) && |m| == SizeOf(t)
  {
    if t == CAST then Cast(Load16(h, m[2..4]))
    else if t == FLOW then Flow(Load16(h, m[2..4]), Load32(h, m[4..8]), Load32(h, m[8..12]))
    else if t == SEND then
      Send(Load16(h, m[2..4]), Load32(h, m[4..8]), Load16(h, m[8..10]), Load16(h, m[10..12]))
    else Recv(m[1], Load16(h, m[2..4]), Load32(h, m[4..8]))
  }

  /** `convert_*_byteorder`: every multi-byte field goes through `ntohs` or `ntohl`, as packing does. */
  function Convert(h: Host, p: Packet): Packet { Pack(h, p) }

  /** What one end puts on the stream for a packet, and what the other end makes of those bytes. */
  function Encode(h: Host, p: Packet): (m: seq<byte>)
    ensures |m| == SizeOf(TypeOf(p)) && m[0] == TypeOf(p)
  {
    var packed := Pack(h, p);
    assert TypeOf(packed) == TypeOf(p);
    Memory(h, packed)
  }

  function Decode(h: Host, t: byte, m: seq<byte>): Packet
    requires KnownType(t) && |m| == SizeOf(t)
  {
    Convert(h, FromMemory(h, t, m))
  }

  // ---------- the wire format does not depend on the host ----------

  function Big16(v: u16): (m: seq<byte>)
    ensures |m| == 2
  {
    [v / 0x100, v % 0x100]
  }

  function Big32(v: u32): (m: seq<byte>)
    ensures |m| == 4
  {
    Big16(v / 0x1_0000) + Big16(v % 0x1_0000)
  }

  /** The layout of the protocol description: big-endian fields in declaration order. */
  function NetworkBytes(p: Packet): seq<byte> {
    match p
    case Cast(c) => [CAST, 0] + Big16(c)
    case Flow(size, sq, c) => [FLOW, 0] + Big16(size) + Big32(sq) + Big32(c)
    case Send(size, n, last, c) => [SEND, 0] + Big16(size) + Big32(n) + Big16(last) + Big16(c)
    case Recv(a, c, sq) => [RECV, a] + Big16(c) + Big32(sq)
  }

  /** The value of big-endian bytes, most significant first. */
  function Number(m: seq<byte>): nat { if |m| == 0 then 0 else Number(m[..|m| - 1]) * 0x100 + m[|m| - 1] as int }

  lemma Number2(m: seq<byte>, at: nat)
    requires at + 2 <= |m|
    ensures Number(m[at..at + 2]) == m[at] as int * 0x100 + m[at + 1] as int
  {
    assert m[at..at + 2][..1] == [m[at]];
    assert Number([m[at]]) == Number([]) * 0x100 + m[at] as int;
  }

  lemma Number4(m: seq<byte>, at: nat)
    requires at + 4 <= |m|
    ensures Number(m[at..at + 4])
         == ((m[at] as int * 0x100 + m[at + 1] as int) * 0x100 + m[at + 2] as int) * 0x100 + m[at + 3] as int
  {
    Number2(m, at);
    assert m[at..at + 4][..3] == m[at..at + 3] && m[at..at + 3][..2] == m[at..at + 2];
  }

  lemma NumberBig16(m: seq<byte>, at: nat, v: u16)
    requires at + 2 <= |m| && m[at..at + 2] == Big16(v)
    ensures Number(m[at..at + 2]) == v
  {
    Number2(m, at);
    assert m[at] == m[at..at + 2][0] && m[at + 1] == m[at..at + 2][1];
  }

  lemma NumberBig32(m: seq<byte>, at: nat, v: u32)
    requires at + 4 <= |m| && m[at..at + 4] == Big32(v)
    ensures Number(m[at..at + 4]) == v
  {
    Number4(m, at);
    var b := m[at..at + 4];
    assert m[at] == b[0] && m[at + 1] == b[1] && m[at + 2] == b[2] && m[at + 3] == b[3];
  }

  lemma Middle(a: seq<byte>, b: seq<byte>, c: seq<byte>)
    ensures (a + b + c)[|a|..|a| + |b|] == b
    ensures a + (b + c) == a + b + c
    ensures c == [] ==> a + b + c == a + b
  {
  }

  /** Where each field of a packet is. */
  lemma Fields(p: Packet)
    ensures var m := NetworkBytes(p);
            match p
            case Cast(c) => |m| == 4 && m[..2] == [CAST, 0] && m[2..4] == Big16(c)
            case Flow(size, sq, c) =>
              |m| == 12 && m[..2] == [FLOW, 0] && m[2..4] == Big16(size) && m[4..8] == Big32(sq) && m[8..12] == Big32(c)
            case Send(size, n, last, c) =>
              && |m| == 12 && m[..2] == [SEND, 0] && m[2..4] == Big16(size) && m[4..8] == Big32(n)
              && m[8..10] == Big16(last) && m[10..12] == Big16(c)
            case Recv(ack, c, sq) => |m| == 8 && m[..2] == [RECV, ack] && m[2..4] == Big16(c) && m[4..8] == Big32(sq)
  {
    hide Big16, Big32;
    match p
    case Cast(c) =>
      Middle([], [CAST, 0], Big16(c));
      Middle([CAST, 0], Big16(c), []);
    case Flow(size, sq, c) =>
      Middle([], [FLOW, 0], Big16(size) + Big32(sq) + Big32(c));
      Middle([FLOW, 0], Big16(size), Big32(sq) + Big32(c));
      Middle([FLOW, 0] + Big16(size), Big32(sq), Big32(c));
      Middle([FLOW, 0] + Big16(size) + Big32(sq), Big32(c), []);
    case Send(size, n, last, c) =>
      Middle([], [SEND, 0], Big16(size) + Big32(n) + Big16(last) + Big16(c));
      Middle([SEND, 0], Big16(size), Big32(n) + Big16(last) + Big16(c));
      Middle([SEND, 0] + Big16(size), Big32(n), Big16(last) + Big16(c));
      Middle([SEND, 0] + Big16(size) + Big32(n), Big16(last), Big16(c));
      Middle([SEND, 0] + Big16(size) + Big32(n) + Big16(last), Big16(c), []);
    case Recv(ack, c, sq) =>
      Middle([], [RECV, ack], Big16(c) + Big32(sq));
      Middle([RECV, ack], Big16(c), Big32(sq));
      Middle([RECV, ack] + Big16(c), Big32(sq), []);
  }

  /**
   * The bytes on the wire, position by position: the type, the ack or padding, and each field as a big-endian number.
   */
  lemma WireLayout(h: Host, p: Packet)
    ensures var m := Encode(h, p);
            match p
            case Cast(crc16) => |m| == 4 && m[..2] == [0x11, 0] && Number(m[2..4]) == crc16
            case Flow(chunkSize, sequence, crc32) =>
              && |m| == 12 && m[..2] == [0x22, 0]
              && Number(m[2..4]) == chunkSize && Number(m[4..8]) == sequence && Number(m[8..12]) == crc32
            case Send(chsize, chcount, pchsize, crc) =>
              && |m| == 12 && m[..2] == [0x33, 0]
              && Number(m[2..4]) == chsize && Number(m[4..8]) == chcount
              && Number(m[8..10]) == pchsize && Number(m[10..12]) == crc
            case Recv(ack, check, answered) =>
              |m| == 8 && m[..2] == [0x44, ack] && Number(m[2..4]) == check && Number(m[4..8]) == answered
  {
    hide Number, Big16, Big32, Encode, NetworkBytes;
    EncodeIsBigEndian(h, p);
    Fields(p);
    var m := Encode(h, p);
    match p
    case Cast(crc16) =>
      NumberBig16(m, 2, crc16);
    case Flow(chunkSize, sequence, crc32) =>
      NumberBig16(m, 2, chunkSize);
      NumberBig32(m, 4, sequence);
      NumberBig32(m, 8, crc32);
    case Send(chsize, chcount, pchsize, crc) =>
      NumberBig16(m, 2, chsize);
      NumberBig32(m, 4, chcount);
      NumberBig16(m, 8, pchsize);
      NumberBig16(m, 10, crc);
    case Recv(ack, check, answered) =>
      NumberBig16(m, 2, check);
      NumberBig32(m, 4, answered);
  }

  lemma Swap16Parts(v: u16)
    ensures Swap16(v) / 0x100 == v % 0x100 && Swap16(v) % 0x100 == v / 0x100
    ensures Swap16(Swap16(v)) == v
  {
  }

  lemma Swap32Parts(v: u32)
    ensures Swap32(v) / 0x1_0000 == Swap16(v % 0x1_0000) && Swap32(v) % 0x1_0000 == Swap16(v / 0x1_0000)
    ensures Swap32(Swap32(v)) == v
  {
    Swap16Parts(v / 0x1_0000);
    Swap16Parts(v % 0x1_0000);
  }

  lemma StoredBig16(h: Host, v: u16)
    ensures Store16(h, Htons(h, v)) == Big16(v)
  {
    Swap16Parts(v);
  }

  lemma StoredBig32(h: Host, v: u32)
    ensures Store32(h, Htonl(h, v)) == Big32(v)
  {
    Swap32Parts(v);
    StoredBig16(h, v / 0x1_0000);
    StoredBig16(h, v % 0x1_0000);
  }

  /** Either kind of host emits the same bytes, the big-endian ones of the protocol description. */
  lemma EncodeIsBigEndian(h: Host, p: Packet)
    ensures Encode(h, p) == NetworkBytes(p)
  {
    match p
    case Cast(c) => StoredBig16(h, c);
    case Flow(size, sq, c) =>
      StoredBig16(h, size);
      StoredBig32(h, sq);
      StoredBig32(h, c);
    case Send(size, n, last, c) =>
      StoredBig16(h, size);
      StoredBig32(h, n);
      StoredBig16(h, last);
      StoredBig16(h, c);
    case Recv(a, c, sq) =>
      StoredBig16(h, c);
      StoredBig32(h, sq);
  }

  lemma LoadedBig16(h: Host, m: seq<byte>, v: u16)
    requires m == Big16(v)
    ensures Htons(h, Load16(h, m)) == v
  {
    Swap16Parts(v);
  }

  lemma LoadedBig32(h: Host, m: seq<byte>, v: u32)
    requires m == Big32(v)
    ensures Htonl(h, Load32(h, m)) == v
  {
    hide Big16, Load16, Swap16;
    var hi, lo := v / 0x1_0000, v % 0x1_0000;
    assert m[..2] == Big16(hi) && m[2..] == Big16(lo);
    LoadedBig16(h, m[..2], hi);
    LoadedBig16(h, m[2..], lo);
  }

  /** A packet written by a host of one endianness is read back unchanged by a host of any endianness. */
  lemma PacketRoundTrip(sender: Host, receiver: Host, p: Packet)
    ensures Decode(receiver, TypeOf(p), Encode(sender, p)) == p
  {
    EncodeIsBigEndian(sender, p);
    ReadsNetworkBytes(receiver, p, Encode(sender, p));
  }

  lemma ReadsNetworkBytes(h: Host, p: Packet, m: seq<byte>)
    requires m == NetworkBytes(p) && |m| == SizeOf(TypeOf(p))
    ensures Decode(h, TypeOf(p), m) == p
  {
    hide Big16, Big32, Load16, Load32, Htons, Htonl, NetworkBytes;
    Fields(p);
    match p
    case Cast(c) =>
      LoadedBig16(h, m[2..4], c);
    case Flow(size, sq, c) =>
      LoadedBig16(h, m[2..4], size);
      LoadedBig32(h, m[4..8], sq);
      LoadedBig32(h, m[8..12], c);
    case Send(size, n, last, c) =>
      LoadedBig16(h, m[2..4], size);
      LoadedBig32(h, m[4..8], n);
      LoadedBig16(h, m[8..10], last);
      LoadedBig16(h, m[10..12], c);
    case Recv(a, c, sq) =>
      assert m[..2][1] == m[1];
      LoadedBig16(h, m[2..4], c);
      LoadedBig32(h, m[4..8], sq);
  }
}
