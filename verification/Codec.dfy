/**
 The wire format: a 14-byte header and a payload. A `String` is a byte sequence that is valid
 UTF-8 in the sense of section 4 of RFC 3629, as it is in Rust.
 */
module Codec {
  import opened Prelude

  const MAGIC: Bytes := [0x51, 0x53, 0x54]
  const PROTOCOL_VERSION: byte := 0x03
  const HEADER_SIZE := 14
  const SEGMENT_NOT_READY: byte := 0x01
  const MAX_PAYLOAD := 65535

  // ----- UTF-8

  predicate Tail(b: byte) {
    0x80 <= b <= 0xBF
  }

  /** Length of the character at the front of `s`, 0 if there is none. */
  function Utf8Char(s: Bytes): (n: nat)
    ensures n <= |s| && n <= 4
  {
    if |s| >= 1 && s[0] <= 0x7F then 1
    else if |s| >= 2 && 0xC2 <= s[0] <= 0xDF && Tail(s[1]) then 2
    else if |s| >= 3 && s[0] == 0xE0 && 0xA0 <= s[1] <= 0xBF && Tail(s[2]) then 3
    else if |s| >= 3 && s[0] == 0xED && 0x80 <= s[1] <= 0x9F && Tail(s[2]) then 3
    else if |s| >= 3 && 0xE1 <= s[0] <= 0xEF && s[0] != 0xED && Tail(s[1]) && Tail(s[2]) then 3
    else if |s| >= 4 && s[0] == 0xF0 && 0x90 <= s[1] <= 0xBF && Tail(s[2]) && Tail(s[3]) then 4
    else if |s| >= 4 && 0xF1 <= s[0] <= 0xF3 && Tail(s[1]) && Tail(s[2]) && Tail(s[3]) then 4
    else if |s| >= 4 && s[0] == 0xF4 && 0x80 <= s[1] <= 0x8F && Tail(s[2]) && Tail(s[3]) then 4
    else 0
  }

  predicate ValidUtf8(s: Bytes) {
    s == [] || (Utf8Char(s) > 0 && ValidUtf8(s[Utf8Char(s)..]))
  }

  type Text = s: Bytes | ValidUtf8(s)

  // ----- Messages

  datatype SocketAddr =
    | V4(a: byte, b: byte, c: byte, d: byte, port: u16)
    | V6(octets: Bytes, port: u16)

  datatype Availability = Availability(newest: u64, mask: u16)

  datatype PeerEntry = PeerEntry(addr: SocketAddr, flags: byte)

  datatype AckType = Progress | Complete

  datatype Message =
    | HandshakeRequest(claimed: SocketAddr, name: Text)
    | HandshakeResponse(observed: SocketAddr, name: Text)
    | ManifestRequest
    | ManifestResponse(data: Bytes)
    | SegmentRequest(transferId: u16, filename: Text)
    | SegmentContents(transferId: u16, packetNumber: u16, totalPackets: u16, data: Bytes)
    | SegmentNotFound(transferId: u16, availability: Option<Availability>, retryable: bool)
    | Ack(transferId: u16, ackType: AckType, nextStart: u16, nextCount: u16)
    | PeerlistRequest
    | PeerlistResponse(peers: seq<PeerEntry>)
    | Ping(nonce: u32, name: Text)
    | Pong(availability: Option<Availability>)

  type u32 = x: int | 0 <= x < 0x1_0000_0000

  datatype ProtocolError =
    | TruncatedHeader(len: nat)
    | BadMagic(got: Bytes)
    | BadVersion(version: byte)
    | UnknownMessageType(code: byte)
    | TruncatedPayload(declared: u16, actual: nat)
    | InvalidUtf8
    | BadAckFlags(flags: byte)
    | BadAckPayload(len: nat)
    | BadPeerlistPayload(len: nat)
    | BadAvailabilityPayload(len: nat)

  // ----- Big-endian integers

  function BE16(n: u16): (s: Bytes)
    ensures |s| == 2
  {
    [n / 0x100, n % 0x100]
  }

  function U16(hi: byte, lo: byte): u16 {
    hi * 0x100 + lo
  }

  function BE32(n: u32): (s: Bytes)
    ensures |s| == 4
  {
    BE16(n / 0x1_0000) + BE16(n % 0x1_0000)
  }

  function U32(s: Bytes): u32
    requires |s| == 4
  {
    U16(s[0], s[1]) * 0x1_0000 + U16(s[2], s[3])
  }

  function BE64(n: u64): (s: Bytes)
    ensures |s| == 8
  {
    BE32(n / 0x1_0000_0000) + BE32(n % 0x1_0000_0000)
  }

  function U64(s: Bytes): u64
    requires |s| == 8
  {
    U32(s[..4]) * 0x1_0000_0000 + U32(s[4..])
  }

  lemma RoundTrip32(n: u32)
    ensures U32(BE32(n)) == n
  {
  }

  lemma RoundTrip64(n: u64)
    ensures U64(BE64(n)) == n
  {
    assert BE64(n)[..4] == BE32(n / 0x1_0000_0000);
    assert BE64(n)[4..] == BE32(n % 0x1_0000_0000);
    RoundTrip32(n / 0x1_0000_0000);
    RoundTrip32(n % 0x1_0000_0000);
  }

  // ----- Encoding

  function TypeCode(m: Message): (code: byte)
    ensures code in CODES
  {
    match m
    case HandshakeRequest(_, _) => 0x01
    case HandshakeResponse(_, _) => 0x02
    case ManifestRequest => 0x20
    case ManifestResponse(_) => 0x21
    case SegmentRequest(_, _) => 0x30
    case SegmentContents(_, _, _, _) => 0x31
    case SegmentNotFound(_, _, _) => 0x32
    case Ack(_, _, _, _) => 0x40
    case PeerlistRequest => 0x50
    case PeerlistResponse(_) => 0x51
    case Ping(_, _) => 0x60
    case Pong(_) => 0x61
  }

  const CODES: set<byte> := {0x01, 0x02, 0x20, 0x21, 0x30, 0x31, 0x32, 0x40, 0x50, 0x51, 0x60, 0x61}

  function FlagsOf(m: Message): byte {
    match m
    case SegmentNotFound(_, _, retryable) => if retryable then SEGMENT_NOT_READY else 0
    case Ack(_, ackType, _, _) => if ackType.Complete? then 0x04 else 0x00
    case _ => 0
  }

  function TransferIdOf(m: Message): u16 {
    if m.SegmentRequest? || m.SegmentContents? || m.SegmentNotFound? || m.Ack? then m.transferId else 0
  }

  function PacketNumberOf(m: Message): u16 {
    if m.SegmentContents? then m.packetNumber else 0
  }

  function TotalPacketsOf(m: Message): u16 {
    if m.SegmentContents? then m.totalPackets else 0
  }

  function EndpointBytes(addr: SocketAddr): (p: Bytes)
    ensures |p| == 6
  {
    if addr.V4? && addr.port != 0
    then [addr.a, addr.b, addr.c, addr.d] + BE16(addr.port)
    else [0, 0, 0, 0, 0, 0]
  }

  function AvailabilityBytes(a: Option<Availability>): Bytes {
    if a.None? then [] else BE64(a.value.newest) + BE16(a.value.mask)
  }

  function PeerBytes(e: PeerEntry): Bytes {
    if e.addr.V4?
    then [e.addr.a, e.addr.b, e.addr.c, e.addr.d] + BE16(e.addr.port) + [e.flags]
    else []
  }

  function PeersBytes(peers: seq<PeerEntry>): Bytes {
    if peers == [] then [] else PeersBytes(peers[..|peers| - 1]) + PeerBytes(peers[|peers| - 1])
  }

  function Payload(m: Message): Bytes {
    match m
    case HandshakeRequest(claimed, name) => EndpointBytes(claimed) + name
    case HandshakeResponse(observed, name) => EndpointBytes(observed) + name
    case ManifestRequest => []
    case ManifestResponse(data) => data
    case SegmentRequest(_, filename) => filename
    case SegmentContents(_, _, _, data) => data
    case SegmentNotFound(_, availability, _) => AvailabilityBytes(availability)
    case Ack(_, ackType, nextStart, nextCount) =>
      if ackType.Progress? then BE16(nextStart) + BE16(nextCount) else []
    case PeerlistRequest => []
    case PeerlistResponse(peers) => PeersBytes(peers)
    case Ping(nonce, name) => BE32(nonce) + name
    case Pong(availability) => AvailabilityBytes(availability)
  }

  /** The length field is the payload length `as u16`. */
  function Header(m: Message): (h: Bytes)
    ensures |h| == HEADER_SIZE
  {
    MAGIC + [PROTOCOL_VERSION, TypeCode(m), FlagsOf(m)] + BE16(Trunc16(|Payload(m)|))
      + BE16(TransferIdOf(m)) + BE16(PacketNumberOf(m)) + BE16(TotalPacketsOf(m))
  }

  function Encode(m: Message): Bytes {
    Header(m) + Payload(m)
  }

  // ----- Decoding

  function Utf8Name(p: Bytes): Result<Text, ProtocolError> {
    if ValidUtf8(p) then Ok(p) else Err(InvalidUtf8)
  }

  datatype Endpoint = Endpoint(addr: SocketAddr, name: Text)

  function SplitEndpointName(p: Bytes): Result<Endpoint, ProtocolError> {
    if |p| < 6 then Err(TruncatedPayload(|p|, 0))
    else if !ValidUtf8(p[6..]) then Err(InvalidUtf8)
    else Ok(Endpoint(V4(p[0], p[1], p[2], p[3], U16(p[4], p[5])), p[6..]))
  }

  function ParseAvailability(p: Bytes): Result<Option<Availability>, ProtocolError> {
    if |p| == 0 then Ok(None)
    else if |p| == 10 then Ok(Some(Availability(U64(p[..8]), U16(p[8], p[9]))))
    else Err(BadAvailabilityPayload(|p|))
  }

  /** One 7-byte chunk; port 0 is skipped. */
  function ParsePeer(chunk: Bytes): seq<PeerEntry>
    requires |chunk| == 7
  {
    var port := U16(chunk[4], chunk[5]);
    if port == 0 then [] else [PeerEntry(V4(chunk[0], chunk[1], chunk[2], chunk[3], port), chunk[6])]
  }

  function ParsePeers(p: Bytes): seq<PeerEntry>
    requires |p| % 7 == 0
  {
    if p == [] then [] else ParsePeers(p[..|p| - 7]) + ParsePeer(p[|p| - 7..])
  }

  function DecodePayload(code: byte, flags: byte, id: u16, number: u16, total: u16, p: Bytes): Result<Message, ProtocolError>
    requires |p| <= MAX_PAYLOAD && code in CODES
  {
    if code == 0x01 || code == 0x02 then
      match SplitEndpointName(p)
      case Err(e) => Err(e)
      case Ok(e) => Ok(if code == 0x01 then HandshakeRequest(e.addr, e.name) else HandshakeResponse(e.addr, e.name))
    else if code == 0x20 then Ok(ManifestRequest)
    else if code == 0x21 then Ok(ManifestResponse(p))
    else if code == 0x30 then
      match Utf8Name(p)
      case Err(e) => Err(e)
      case Ok(name) => Ok(SegmentRequest(id, name))
    else if code == 0x31 then Ok(SegmentContents(id, number, total, p))
    else if code == 0x32 then
      match ParseAvailability(p)
      case Err(e) => Err(e)
      case Ok(a) => Ok(SegmentNotFound(id, a, flags % 2 != 0))
    else if code == 0x40 then
      if flags == 0x04 then Ok(Ack(id, Complete, 0, 0))
      else if flags != 0x00 then Err(BadAckFlags(flags))
      else if |p| != 4 then Err(BadAckPayload(|p|))
      else Ok(Ack(id, Progress, U16(p[0], p[1]), U16(p[2], p[3])))
    else if code == 0x50 then Ok(PeerlistRequest)
    else if code == 0x51 then
      if |p| % 7 != 0 then Err(BadPeerlistPayload(|p|)) else Ok(PeerlistResponse(ParsePeers(p)))
    else if code == 0x60 then
      if |p| < 4 then Err(TruncatedPayload(|p|, 0))
      else
        match Utf8Name(p[4..])
        case Err(e) => Err(e)
        case Ok(name) => Ok(Ping(U32(p[..4]), name))
    else
      match ParseAvailability(p)
      case Err(e) => Err(e)
      case Ok(a) => Ok(Pong(a))
  }

  function Decode(d: Bytes): Result<Message, ProtocolError> {
    if |d| < HEADER_SIZE then Err(TruncatedHeader(|d|))
    else if d[..3] != MAGIC then Err(BadMagic(d[..3]))
    else if d[3] != PROTOCOL_VERSION then Err(BadVersion(d[3]))
    else if d[4] !in CODES then Err(UnknownMessageType(d[4]))
    else
      var len := U16(d[6], d[7]);
      if |d| - HEADER_SIZE < len then Err(TruncatedPayload(len, |d| - HEADER_SIZE))
      else DecodePayload(d[4], d[5], U16(d[8], d[9]), U16(d[10], d[11]), U16(d[12], d[13]),
                         d[HEADER_SIZE..HEADER_SIZE + len])
  }

  // ----- The loops

  method EncodePeers(peers: seq<PeerEntry>) returns (payload: Bytes)
    ensures payload == PeersBytes(peers)
  {
    payload := [];
    for i := 0 to |peers|
      invariant payload == PeersBytes(peers[..i])
    {
      assert peers[..i + 1][..i] == peers[..i];
      var addr := peers[i].addr;
      if addr.V4? {
        payload := payload + [addr.a, addr.b, addr.c, addr.d];
        payload := payload + BE16(addr.port);
        payload := payload + [peers[i].flags];
      }
    }
    assert peers[..|peers|] == peers;
  }

  method DecodePeers(payload: Bytes) returns (r: Result<seq<PeerEntry>, ProtocolError>)
    ensures r == if |payload| % 7 != 0 then Err(BadPeerlistPayload(|payload|)) else Ok(ParsePeers(payload))
  {
    hide ParsePeers, U16, ValidUtf8;
    if |payload| % 7 != 0 {
      return Err(BadPeerlistPayload(|payload|));
    }
    var peers: seq<PeerEntry> := [];
    NoPeers();
    for i := 0 to |payload| / 7
      invariant peers == ParsePeers(payload[..7 * i])
    {
      var chunk := payload[7 * i..7 * i + 7];
      var port := U16(chunk[4], chunk[5]);
      NextChunk(payload, i);
      if port != 0 {
        peers := peers + [PeerEntry(V4(chunk[0], chunk[1], chunk[2], chunk[3], port), chunk[6])];
      }
    }
    assert payload[..7 * (|payload| / 7)] == payload;
    r := Ok(peers);
  }

  method EncodeMessage(m: Message) returns (buf: Bytes)
    ensures buf == Encode(m)
  {
    var payload := Payload(m);
    if m.PeerlistResponse? {
      payload := EncodePeers(m.peers);
    }
    buf := MAGIC;
    buf := buf + [PROTOCOL_VERSION];
    buf := buf + [TypeCode(m)];
    buf := buf + [FlagsOf(m)];
    buf := buf + BE16(Trunc16(|payload|));
    buf := buf + BE16(TransferIdOf(m));
    buf := buf + BE16(PacketNumberOf(m));
    buf := buf + BE16(TotalPacketsOf(m));
    buf := buf + payload;
  }

  // ----- What survives the wire

  function NormAddr(addr: SocketAddr): SocketAddr {
    if addr.V4? && addr.port != 0 then addr else V4(0, 0, 0, 0, 0)
  }

  function Kept(e: PeerEntry): seq<PeerEntry> {
    if e.addr.V4? && e.addr.port != 0 then [e] else []
  }

  function NormPeers(peers: seq<PeerEntry>): seq<PeerEntry> {
    if peers == [] then [] else NormPeers(peers[..|peers| - 1]) + Kept(peers[|peers| - 1])
  }

  function Norm(m: Message): Message {
    match m
    case HandshakeRequest(claimed, name) => HandshakeRequest(NormAddr(claimed), name)
    case HandshakeResponse(observed, name) => HandshakeResponse(NormAddr(observed), name)
    case Ack(id, Complete, _, _) => Ack(id, Complete, 0, 0)
    case PeerlistResponse(peers) => PeerlistResponse(NormPeers(peers))
    case _ => m
  }

  lemma AvailabilityRoundTrip(a: Option<Availability>)
    ensures ParseAvailability(AvailabilityBytes(a)) == Ok(a)
  {
    if a.Some? {
      var p := AvailabilityBytes(a);
      assert p[..8] == BE64(a.value.newest);
      RoundTrip64(a.value.newest);
    }
  }

  lemma Halves16(n: u16)
    ensures BE16(n) == [n / 0x100, n % 0x100] && U16(BE16(n)[0], BE16(n)[1]) == n
  {
  }

  lemma NoPeers()
    ensures ParsePeers([]) == []
  {
  }

  lemma ParsePeersSnoc(front: Bytes, chunk: Bytes)
    requires |front| % 7 == 0 && |chunk| == 7
    ensures ParsePeers(front + chunk) == ParsePeers(front) + ParsePeer(chunk)
  {
    var p := front + chunk;
    assert p[..|p| - 7] == front && p[|p| - 7..] == chunk;
  }

  lemma NextChunk(payload: Bytes, i: nat)
    requires 7 * i + 7 <= |payload|
    ensures ParsePeers(payload[..7 * (i + 1)]) == ParsePeers(payload[..7 * i]) + ParsePeer(payload[7 * i..7 * i + 7])
  {
    ParsePeersSnoc(payload[..7 * i], payload[7 * i..7 * i + 7]);
    assert payload[..7 * (i + 1)] == payload[..7 * i] + payload[7 * i..7 * i + 7];
  }

  lemma PeerRoundTrip(e: PeerEntry)
    requires e.addr.V4?
    ensures |PeerBytes(e)| == 7 && ParsePeer(PeerBytes(e)) == Kept(e)
  {
    Halves16(e.addr.port);
  }

  lemma {:induction false} PeersRoundTrip(peers: seq<PeerEntry>)
    ensures |PeersBytes(peers)| % 7 == 0
    ensures ParsePeers(PeersBytes(peers)) == NormPeers(peers)
  {
    hide PeerBytes, ParsePeer;
    if peers != [] {
      var front, last := peers[..|peers| - 1], peers[|peers| - 1];
      PeersRoundTrip(front);
      if last.addr.V4? {
        PeerRoundTrip(last);
        ParsePeersSnoc(PeersBytes(front), PeerBytes(last));
      } else {
        IPv6IsSkipped(last);
        assert PeersBytes(peers) == PeersBytes(front);
      }
    }
  }

  lemma IPv6IsSkipped(e: PeerEntry)
    requires e.addr.V6?
    ensures PeerBytes(e) == []
  {
  }

  lemma EndpointRoundTrip(addr: SocketAddr, name: Text)
    ensures SplitEndpointName(EndpointBytes(addr) + name) == Ok(Endpoint(NormAddr(addr), name))
  {
    assert (EndpointBytes(addr) + name)[6..] == name;
    if addr.V4? {
      Halves16(addr.port);
    }
  }

  /** A payload read with the header fields of a message. */
  function Reread(m: Message, payload: Bytes): Result<Message, ProtocolError>
    requires |payload| <= MAX_PAYLOAD
  {
    DecodePayload(TypeCode(m), FlagsOf(m), TransferIdOf(m), PacketNumberOf(m), TotalPacketsOf(m), payload)
  }

  lemma PayloadRoundTrip(m: Message)
    requires |Payload(m)| <= MAX_PAYLOAD
    ensures Reread(m, Payload(m)) == Ok(Norm(m))
  {
    hide SplitEndpointName, EndpointBytes, ParseAvailability, AvailabilityBytes, ParsePeers, PeersBytes, BE32, U32, ValidUtf8;
    match m
    case HandshakeRequest(claimed, name) => EndpointRoundTrip(claimed, name);
    case HandshakeResponse(observed, name) => EndpointRoundTrip(observed, name);
    case SegmentNotFound(_, availability, _) => AvailabilityRoundTrip(availability);
    case Ack(_, _, nextStart, nextCount) =>
      Halves16(nextStart);
      Halves16(nextCount);
    case PeerlistResponse(peers) => PeersRoundTrip(peers);
    case Ping(nonce, name) =>
      assert Payload(m)[..4] == BE32(nonce) && Payload(m)[4..] == name;
      RoundTrip32(nonce);
    case Pong(availability) => AvailabilityRoundTrip(availability);
    case _ =>
  }

  /** As much of a payload as its 16-bit length field admits to. */
  function Cut(payload: seq<byte>): (r: seq<byte>)
    ensures |r| <= MAX_PAYLOAD
    ensures |payload| <= MAX_PAYLOAD ==> r == payload
    ensures |payload| > MAX_PAYLOAD ==> |r| < |payload|
  {
    payload[..Trunc16(|payload|)]
  }

  /** Of a frame the decoder reads the fields of the header and as much payload as the length field says. */
  lemma FrameIsRead(h: Bytes, p: Bytes)
    requires |h| == HEADER_SIZE && h[..3] == MAGIC && h[3] == PROTOCOL_VERSION && h[4] in CODES
    requires U16(h[6], h[7]) <= |p|
    ensures Decode(h + p) ==
      DecodePayload(h[4], h[5], U16(h[8], h[9]), U16(h[10], h[11]), U16(h[12], h[13]), p[..U16(h[6], h[7])])
  {
    hide DecodePayload;
    var d, len := h + p, U16(h[6], h[7]);
    assert d[..3] == h[..3];
    assert d[HEADER_SIZE..HEADER_SIZE + len] == p[..len];
  }

  lemma EncodedIsFramed(m: Message)
    ensures Decode(Encode(m)) == Reread(m, Cut(Payload(m)))
  {
    hide Header, Payload, DecodePayload, Decode, TypeCode, FlagsOf, TransferIdOf, PacketNumberOf, TotalPacketsOf, U16;
    HeaderFields(m);
    FrameIsRead(Header(m), Payload(m));
  }

  lemma HeaderFields(m: Message)
    ensures var h := Header(m);
      && h[..3] == MAGIC && h[3] == PROTOCOL_VERSION && h[4] == TypeCode(m) && h[5] == FlagsOf(m)
      && U16(h[6], h[7]) == Trunc16(|Payload(m)|)
      && U16(h[8], h[9]) == TransferIdOf(m)
      && U16(h[10], h[11]) == PacketNumberOf(m)
      && U16(h[12], h[13]) == TotalPacketsOf(m)
  {
  }

  /** Normal form: every message whose payload fits the length field is decoded to its normal form. */
  lemma RoundTrip(m: Message)
    requires |Payload(m)| <= MAX_PAYLOAD
    ensures Decode(Encode(m)) == Ok(Norm(m))
  {
    hide Decode, Encode, DecodePayload, Payload, Norm, TypeCode;
    EncodedIsFramed(m);
    PayloadRoundTrip(m);
  }

  lemma NormPeersSnoc(front: seq<PeerEntry>, e: PeerEntry)
    ensures NormPeers(front + [e]) == NormPeers(front) + Kept(e)
  {
    assert (front + [e])[..|front|] == front;
  }

  lemma {:induction false} NormPeersIdempotent(peers: seq<PeerEntry>)
    ensures NormPeers(NormPeers(peers)) == NormPeers(peers)
  {
    if peers != [] {
      var front, last := peers[..|peers| - 1], peers[|peers| - 1];
      NormPeersIdempotent(front);
      if Kept(last) == [last] {
        NormPeersSnoc(NormPeers(front), last);
      } else {
        assert NormPeers(peers) == NormPeers(front);
      }
    }
  }

  predicate Sendable(e: PeerEntry) {
    e.addr.V4? && e.addr.port != 0
  }

  predicate AllSendable(peers: seq<PeerEntry>) {
    forall i :: 0 <= i < |peers| ==> Sendable(peers[i])
  }

  lemma {:induction false} NormPeersKeeps(peers: seq<PeerEntry>)
    ensures |NormPeers(peers)| <= |peers|
    ensures NormPeers(peers) == peers <==> AllSendable(peers)
  {
    if peers != [] {
      var front, last := peers[..|peers| - 1], peers[|peers| - 1];
      NormPeersKeeps(front);
      assert peers == front + [last];
      if NormPeers(peers) == peers {
        assert NormPeers(peers)[|peers| - 1] == last;
        assert NormPeers(front) == front;
      } else if NormPeers(front) != front {
        var i :| 0 <= i < |front| && !Sendable(front[i]);
        assert !Sendable(peers[i]);
      }
    }
  }

  /** Messages that have one wire form of their own. */
  predicate WellFormed(m: Message) {
    match m
    case HandshakeRequest(claimed, _) => claimed.V4? && (claimed.port == 0 ==> claimed == V4(0, 0, 0, 0, 0))
    case HandshakeResponse(observed, _) => observed.V4? && (observed.port == 0 ==> observed == V4(0, 0, 0, 0, 0))
    case Ack(_, Complete, nextStart, nextCount) => nextStart == 0 && nextCount == 0
    case PeerlistResponse(peers) => AllSendable(peers)
    case _ => true
  }

  /** The trip is exact on well-formed messages and on no others; normalising twice is normalising once. */
  lemma NormIsIdempotent(m: Message)
    ensures Norm(Norm(m)) == Norm(m)
    ensures Norm(m) == m <==> WellFormed(m)
  {
    hide NormPeers, AllSendable, ValidUtf8;
    if m.PeerlistResponse? {
      NormPeersIdempotent(m.peers);
      NormPeersKeeps(m.peers);
    }
  }

  lemma {:induction false} ParsedPeers(p: Bytes)
    requires |p| % 7 == 0
    ensures 7 * |ParsePeers(p)| <= |p| && AllSendable(ParsePeers(p))
  {
    if p != [] {
      ParsedPeers(p[..|p| - 7]);
    }
  }

  lemma {:induction false} SendablePeersBytes(peers: seq<PeerEntry>)
    requires AllSendable(peers)
    ensures |PeersBytes(peers)| == 7 * |peers|
  {
    if peers != [] {
      assert Sendable(peers[|peers| - 1]);
      SendablePeersBytes(peers[..|peers| - 1]);
    }
  }

  /** A decoded message has no longer a payload than the one it was read from. */
  lemma DecodedIsNoLonger(code: byte, flags: byte, id: u16, number: u16, total: u16, p: Bytes)
    requires |p| <= MAX_PAYLOAD && code in CODES
    ensures var r := DecodePayload(code, flags, id, number, total, p); r.Ok? ==> |Payload(r.value)| <= |p|
  {
    hide PeersBytes, ParsePeers, AllSendable, ValidUtf8, U16, U32, U64, EndpointBytes;
    if code == 0x51 && |p| % 7 == 0 {
      ParsedPeers(p);
      SendablePeersBytes(ParsePeers(p));
    }
  }

  /** A payload that does not fit its length field is cut, and the message with it. */
  lemma TooLongIsCut(m: Message)
    requires |Payload(m)| > MAX_PAYLOAD
    ensures Decode(Encode(m)) != Ok(m)
  {
    hide Decode, Encode, Payload, DecodePayload, Cut, TypeCode, FlagsOf, TransferIdOf, PacketNumberOf, TotalPacketsOf;
    EncodedIsFramed(m);
    DecodedIsNoLonger(TypeCode(m), FlagsOf(m), TransferIdOf(m), PacketNumberOf(m), TotalPacketsOf(m), Cut(Payload(m)));
  }

  /** The trip is exact if and only if the message is well-formed and its payload fits the length field. */
  lemma ExactRoundTrip(m: Message)
    ensures Decode(Encode(m)) == Ok(m) <==> WellFormed(m) && |Payload(m)| <= MAX_PAYLOAD
  {
    hide Decode, Encode, Payload, Norm, WellFormed;
    if |Payload(m)| <= MAX_PAYLOAD {
      RoundTrip(m);
      NormIsIdempotent(m);
    } else {
      TooLongIsCut(m);
    }
  }

  /** Decoding looks at the first 14 + length bytes only. */
  lemma DecodeReadsOneFrame(d: Bytes)
    requires |d| >= HEADER_SIZE
    ensures var end := HEADER_SIZE + U16(d[6], d[7]);
      |d| >= end ==> Decode(d) == Decode(d[..end])
  {
    var end := HEADER_SIZE + U16(d[6], d[7]);
    if |d| >= end {
      assert d[..end][..3] == d[..3];
      assert d[..end][HEADER_SIZE..end] == d[HEADER_SIZE..end];
    }
  }

  /** What has come off the wire can be sent again and arrives in its normal form. */
  lemma DecodedCanBeResent(d: Bytes)
    requires Decode(d).Ok?
    ensures var m := Decode(d).value;
      |Payload(m)| <= MAX_PAYLOAD && Decode(Encode(m)) == Ok(Norm(m))
  {
    hide Payload, DecodePayload, Encode, Norm;
    var m := Decode(d).value;
    DecodedIsNoLonger(d[4], d[5], U16(d[8], d[9]), U16(d[10], d[11]), U16(d[12], d[13]),
                      d[HEADER_SIZE..HEADER_SIZE + U16(d[6], d[7])]);
    RoundTrip(m);
  }
}
