/** The wire format byte by byte, and what the decoder makes of arbitrary bytes. */
module CodecLayout {
  import opened Prelude
  import opened Codec

  // ----- Encoding

  /** The 14 header bytes of a frame. */
  function HeaderBytes(code: byte, flags: byte, len: nat, id: u16, number: u16, total: u16): Bytes
    requires len <= 65535
  {
    [0x51, 0x53, 0x54, 0x03, code, flags, len / 256, len % 256,
     id / 256, id % 256, number / 256, number % 256, total / 256, total % 256]
  }

  lemma HeaderLayout(m: Message)
    requires |Payload(m)| <= 65535
    ensures Header(m) ==
      HeaderBytes(TypeCode(m), FlagsOf(m), |Payload(m)|, TransferIdOf(m), PacketNumberOf(m), TotalPacketsOf(m))
  {
    hide TypeCode, FlagsOf, Payload, TransferIdOf, PacketNumberOf, TotalPacketsOf;
  }

  /** The transfer messages: request, contents, refusal. */
  lemma TransferLayout(id: u16, number: u16, total: u16, name: Text, data: Bytes)
    requires |name| <= 65535 && |data| <= 65535
    ensures Encode(SegmentRequest(id, name)) == HeaderBytes(0x30, 0, |name|, id, 0, 0) + name
    ensures Encode(SegmentContents(id, number, total, data)) == HeaderBytes(0x31, 0, |data|, id, number, total) + data
    ensures Encode(SegmentNotFound(id, None, false)) == HeaderBytes(0x32, 0, 0, id, 0, 0)
    ensures Encode(SegmentNotFound(id, None, true)) == HeaderBytes(0x32, 0x01, 0, id, 0, 0)
  {
    hide Header;
    HeaderLayout(SegmentRequest(id, name));
    HeaderLayout(SegmentContents(id, number, total, data));
    HeaderLayout(SegmentNotFound(id, None, false));
    HeaderLayout(SegmentNotFound(id, None, true));
  }

  lemma AckLayout(id: u16, start: u16, count: u16)
    ensures Encode(Ack(id, Progress, start, count)) ==
      HeaderBytes(0x40, 0x00, 4, id, 0, 0) + [start / 256, start % 256, count / 256, count % 256]
    ensures Encode(Ack(id, Complete, start, count)) == HeaderBytes(0x40, 0x04, 0, id, 0, 0)
  {
    hide Header;
    HeaderLayout(Ack(id, Progress, start, count));
    HeaderLayout(Ack(id, Complete, start, count));
  }

  /** The messages of the network around the transfers. */
  lemma NodeLayout(name: Text, data: Bytes, nonce: u32, a: byte, b: byte, c: byte, d: byte, port: u16)
    requires |name| <= 65529 && |data| <= 65535 && port != 0
    ensures var endpoint := [a, b, c, d, port / 256, port % 256];
      && Encode(HandshakeRequest(V4(a, b, c, d, port), name)) == HeaderBytes(0x01, 0, 6 + |name|, 0, 0, 0) + endpoint + name
      && Encode(HandshakeResponse(V4(a, b, c, d, port), name)) == HeaderBytes(0x02, 0, 6 + |name|, 0, 0, 0) + endpoint + name
    ensures Encode(ManifestRequest) == HeaderBytes(0x20, 0, 0, 0, 0, 0)
    ensures Encode(ManifestResponse(data)) == HeaderBytes(0x21, 0, |data|, 0, 0, 0) + data
    ensures Encode(PeerlistRequest) == HeaderBytes(0x50, 0, 0, 0, 0, 0)
    ensures Encode(Ping(nonce, name)) == HeaderBytes(0x60, 0, 4 + |name|, 0, 0, 0) + Bytes32(nonce) + name
    ensures Encode(Pong(None)) == HeaderBytes(0x61, 0, 0, 0, 0, 0)
  {
    hide Header, ValidUtf8, Bytes32, HeaderBytes;
    HeaderLayout(HandshakeRequest(V4(a, b, c, d, port), name));
    HeaderLayout(HandshakeResponse(V4(a, b, c, d, port), name));
    HeaderLayout(ManifestRequest);
    HeaderLayout(ManifestResponse(data));
    HeaderLayout(PeerlistRequest);
    HeaderLayout(Pong(None));
    EndpointLayout(a, b, c, d, port);
    PingLayout(nonce, name);
    hide EndpointBytes;
    Associate(HeaderBytes(0x01, 0, 6 + |name|, 0, 0, 0), [a, b, c, d, port / 256, port % 256], name);
    Associate(HeaderBytes(0x02, 0, 6 + |name|, 0, 0, 0), [a, b, c, d, port / 256, port % 256], name);
  }

  lemma EndpointLayout(a: byte, b: byte, c: byte, d: byte, port: u16)
    requires port != 0
    ensures EndpointBytes(V4(a, b, c, d, port)) == [a, b, c, d, port / 256, port % 256]
  {
  }

  lemma PingLayout(nonce: u32, name: Text)
    requires |name| <= 65529
    ensures Encode(Ping(nonce, name)) == HeaderBytes(0x60, 0, 4 + |name|, 0, 0, 0) + Bytes32(nonce) + name
  {
    hide Header, ValidUtf8, Bytes32, HeaderBytes, BE32;
    HeaderLayout(Ping(nonce, name));
    Layout32(nonce);
    Associate(HeaderBytes(0x60, 0, 4 + |name|, 0, 0, 0), Bytes32(nonce), name);
  }

  /** The four bytes of a number, most significant first. */
  function Bytes32(x: u32): (s: Bytes)
    ensures |s| == 4
  {
    [x / 0x100_0000, x / 0x1_0000 % 256, x / 256 % 256, x % 256]
  }

  lemma Layout32(x: u32)
    ensures BE32(x) == Bytes32(x)
  {
    assert x / 0x1_0000 / 256 == x / 0x100_0000;
    var high, low := x / 0x1_0000, x % 0x1_0000;
    assert x == 0x1_0000 * high + low && low == 256 * (low / 256) + low % 256;
    assert x / 256 == 256 * high + low / 256;
  }

  /** An inventory is its newest segment number in eight bytes and its mask in two. */
  lemma InventoryLayout(newest: u64, mask: u16, id: u16)
    ensures var p := Bytes32(newest / 0x1_0000_0000) + Bytes32(newest % 0x1_0000_0000) + [mask / 256, mask % 256];
      && Encode(Pong(Some(Availability(newest, mask)))) == HeaderBytes(0x61, 0, 10, 0, 0, 0) + p
      && Encode(SegmentNotFound(id, Some(Availability(newest, mask)), false)) == HeaderBytes(0x32, 0, 10, id, 0, 0) + p
  {
    hide Header, Bytes32;
    HeaderLayout(Pong(Some(Availability(newest, mask))));
    HeaderLayout(SegmentNotFound(id, Some(Availability(newest, mask)), false));
    Layout32(newest / 0x1_0000_0000);
    Layout32(newest % 0x1_0000_0000);
  }

  /** A peer takes seven bytes, in the order of the list. */
  lemma PeersLayout(peers: seq<PeerEntry>, a: byte, b: byte, c: byte, d: byte, port: u16, flags: byte)
    ensures PeersBytes(peers + [PeerEntry(V4(a, b, c, d, port), flags)]) ==
      PeersBytes(peers) + [a, b, c, d, port / 256, port % 256, flags]
    ensures PeersBytes([]) == []
    ensures Payload(PeerlistResponse(peers)) == PeersBytes(peers) && TypeCode(PeerlistResponse(peers)) == 0x51
  {
    var e := PeerEntry(V4(a, b, c, d, port), flags);
    assert (peers + [e])[..|peers|] == peers;
  }

  // ----- Decoding

  /** A number of two bytes, the first the more significant. */
  function Number16(high: byte, low: byte): u16 {
    var h: nat, l: nat := high, low;
    256 * h + l
  }

  /** The frame starts like a frame of this protocol and is not cut short. */
  predicate HeaderIsGood(d: Bytes) {
    && |d| >= 14
    && d[0] == 0x51 && d[1] == 0x53 && d[2] == 0x54 && d[3] == 0x03
    && d[4] in {0x01, 0x02, 0x20, 0x21, 0x30, 0x31, 0x32, 0x40, 0x50, 0x51, 0x60, 0x61}
    && |d| - 14 >= Number16(d[6], d[7])
  }

  /** The payload: as many bytes after the header as the length field says. */
  function PayloadOf(d: Bytes): Bytes
    requires HeaderIsGood(d)
  {
    d[14..14 + Number16(d[6], d[7])]
  }

  /** What each message kind demands of its payload. */
  predicate PayloadIsGood(code: byte, flags: byte, p: Bytes) {
    match code
    case 0x01 => |p| >= 6 && ValidUtf8(p[6..])
    case 0x02 => |p| >= 6 && ValidUtf8(p[6..])
    case 0x30 => ValidUtf8(p)
    case 0x32 => |p| == 0 || |p| == 10
    case 0x40 => flags == 0x04 || (flags == 0x00 && |p| == 4)
    case 0x51 => |p| % 7 == 0
    case 0x60 => |p| >= 4 && ValidUtf8(p[4..])
    case 0x61 => |p| == 0 || |p| == 10
    case _ => true
  }

  /** Exactly which byte strings are messages. */
  lemma DecodesExactly(d: Bytes)
    ensures Decode(d).Ok? <==> HeaderIsGood(d) && PayloadIsGood(d[4], d[5], PayloadOf(d))
  {
    hide ValidUtf8;
    if |d| >= 14 {
      assert d[..3] == [d[0], d[1], d[2]];
    }
  }

  /** Which error a bad frame gives: the first that applies, from the front of the frame to the back. */
  lemma FirstErrorIsReported(d: Bytes)
    ensures !HeaderIsGood(d) ==>
      Decode(d) ==
      if |d| < 14 then Err(TruncatedHeader(|d|))
      else if d[0] != 0x51 || d[1] != 0x53 || d[2] != 0x54 then Err(BadMagic([d[0], d[1], d[2]]))
      else if d[3] != 0x03 then Err(BadVersion(d[3]))
      else if d[4] !in {0x01, 0x02, 0x20, 0x21, 0x30, 0x31, 0x32, 0x40, 0x50, 0x51, 0x60, 0x61} then Err(UnknownMessageType(d[4]))
      else Err(TruncatedPayload(Number16(d[6], d[7]), |d| - 14))
    ensures HeaderIsGood(d) && !PayloadIsGood(d[4], d[5], PayloadOf(d)) ==>
      var p := PayloadOf(d);
      Decode(d) == Err(
        if d[4] == 0x32 || d[4] == 0x61 then BadAvailabilityPayload(|p|)
        else if d[4] == 0x51 then BadPeerlistPayload(|p|)
        else if d[4] == 0x40 then (if d[5] != 0 then BadAckFlags(d[5]) else BadAckPayload(|p|))
        else if |p| < (if d[4] == 0x60 then 4 else if d[4] == 0x30 then 0 else 6) then TruncatedPayload(|p|, 0)
        else InvalidUtf8)
  {
    hide ValidUtf8;
    if |d| >= 14 {
      assert d[..3] == [d[0], d[1], d[2]];
    }
  }

  /** What a good frame says: its kind, its numbers where the kind has them, and the contents of its payload. */
  lemma DecodedSaysTheFrame(d: Bytes)
    requires Decode(d).Ok?
    ensures HeaderIsGood(d)
    ensures var m, p, id := Decode(d).value, PayloadOf(d), Number16(d[8], d[9]);
      match d[4]
      case 0x01 => m == HandshakeRequest(V4(p[0], p[1], p[2], p[3], Number16(p[4], p[5])), p[6..])
      case 0x02 => m == HandshakeResponse(V4(p[0], p[1], p[2], p[3], Number16(p[4], p[5])), p[6..])
      case 0x20 => m == ManifestRequest
      case 0x21 => m == ManifestResponse(p)
      case 0x30 => m == SegmentRequest(id, p)
      case 0x31 => m == SegmentContents(id, Number16(d[10], d[11]), Number16(d[12], d[13]), p)
      case 0x32 => m.SegmentNotFound? && m.transferId == id && m.retryable == (d[5] % 2 == 1) && SaysInventory(p, m.availability)
      case 0x40 =>
        m == if d[5] == 0x04 then Ack(id, Complete, 0, 0)
             else Ack(id, Progress, Number16(p[0], p[1]), Number16(p[2], p[3]))
      case 0x50 => m == PeerlistRequest
      case 0x51 => m.PeerlistResponse? && m.peers == ParsePeers(p)
      case 0x60 => m == Ping(Number32(p[..4]), p[4..])
      case _ => m.Pong? && SaysInventory(p, m.availability)
  {
    hide ValidUtf8;
    DecodesExactly(d);
    hide ParsePeers;
  }

  predicate SaysInventory(p: Bytes, a: Option<Availability>) {
    if |p| == 0 then a == None
    else
      && |p| == 10 && a.Some?
      && (var high: nat, low: nat := Number32(p[..4]), Number32(p[4..8]); a.value.newest == 0x1_0000_0000 * high + low)
      && a.value.mask == Number16(p[8], p[9])
  }

  function Number32(s: Bytes): u32
    requires |s| == 4
  {
    var high: nat, low: nat := Number16(s[0], s[1]), Number16(s[2], s[3]);
    0x1_0000 * high + low
  }

  /** Of the peer chunks those with a port are kept, in order. */
  lemma PeersAreReadInOrder(p: Bytes, a: byte, b: byte, c: byte, d: byte, port: u16, flags: byte)
    requires |p| % 7 == 0
    ensures ParsePeers([]) == []
    ensures ParsePeers(p + [a, b, c, d, port / 256, port % 256, flags]) ==
      ParsePeers(p) + if port == 0 then [] else [PeerEntry(V4(a, b, c, d, port), flags)]
  {
    hide ParsePeers;
    NoPeers();
    ParsePeersSnoc(p, [a, b, c, d, port / 256, port % 256, flags]);
  }
}
