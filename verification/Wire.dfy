/** The transfers on the wire: every datagram two nodes ever exchange survives the codec. */
module Wire {
  import opened Prelude
  import Segments
  import WindowSchedule
  import SenderMachine
  import ReceiverMachine
  import ReceiverLaws
  import Registry
  import Network
  import ManyTransfers
  import Text
  import Codec

  const MAX_CONTENT_DATAGRAM := 1414

  // ----- Names as UTF-8

  function Utf8OfChar(c: char): (s: Bytes)
    ensures 1 <= |s| <= 4
  {
    var n, p, q := c as int, c as int / 0x40, c as int / 0x40 / 0x40;
    if n < 0x80 then [n]
    else if n < 0x800 then [0xC0 + p, 0x80 + n % 0x40]
    else if n < 0x1_0000 then [0xE0 + q, 0x80 + p % 0x40, 0x80 + n % 0x40]
    else [0xF0 + q / 0x40, 0x80 + q % 0x40, 0x80 + p % 0x40, 0x80 + n % 0x40]
  }

  function Utf8Of(name: string): Bytes {
    if name == "" then [] else Utf8OfChar(name[0]) + Utf8Of(name[1..])
  }

  lemma CharIsRead(c: char, rest: Bytes)
    ensures Codec.Utf8Char(Utf8OfChar(c) + rest) == |Utf8OfChar(c)|
  {
    var s := Utf8OfChar(c) + rest;
    assert forall i :: 0 <= i < |Utf8OfChar(c)| ==> s[i] == Utf8OfChar(c)[i];
  }

  /** The encoding of a name is well-formed UTF-8. */
  lemma {:induction false} NameIsUtf8(name: string)
    ensures Codec.ValidUtf8(Utf8Of(name))
  {
    if name != "" {
      hide Utf8OfChar, Codec.Utf8Char;
      NameIsUtf8(name[1..]);
      CharIsRead(name[0], Utf8Of(name[1..]));
      assert Utf8Of(name)[|Utf8OfChar(name[0])|..] == Utf8Of(name[1..]);
    }
  }

  lemma CharsDiffer(c: char, d: char)
    requires Utf8OfChar(c) == Utf8OfChar(d)
    ensures c == d
  {
    hide Utf8OfChar;
    CharIsCoded(c);
    CharIsCoded(d);
  }

  function CodePoint(s: Bytes): int
    requires 1 <= |s| <= 4
  {
    match |s|
    case 1 => s[0]
    case 2 => Shift(Minus(s[0], 0xC0), s[1])
    case 3 => Shift(Shift(Minus(s[0], 0xE0), s[1]), s[2])
    case _ => Shift(Shift(Shift(Minus(s[0], 0xF0), s[1]), s[2]), s[3])
  }

  function Minus(b: int, offset: int): int {
    b - offset
  }

  function Shift(high: int, b: int): int {
    0x40 * high + b - 0x80
  }

  lemma CharIsCoded(c: char)
    ensures CodePoint(Utf8OfChar(c)) == c as int
  {
  }

  /** Different names have different encodings. */
  lemma {:induction false} NamesDiffer(a: string, b: string)
    requires Utf8Of(a) == Utf8Of(b)
    ensures a == b
  {
    hide Utf8OfChar, Codec.Utf8Char;
    if a != "" && b != "" {
      CharIsRead(a[0], Utf8Of(a[1..]));
      CharIsRead(b[0], Utf8Of(b[1..]));
      var n := |Utf8OfChar(a[0])|;
      assert Utf8OfChar(a[0]) == Utf8Of(a)[..n] && Utf8OfChar(b[0]) == Utf8Of(b)[..n];
      assert Utf8Of(a[1..]) == Utf8Of(a)[n..] && Utf8Of(b[1..]) == Utf8Of(b)[n..];
      CharsDiffer(a[0], b[0]);
      NamesDiffer(a[1..], b[1..]);
      assert a == [a[0]] + a[1..] && b == [b[0]] + b[1..];
    }
  }

  predicate IsScalar(n: int) {
    0 <= n < 0xD800 || 0xE000 <= n < 0x11_0000
  }

  /** The bytes that are read as one character are the encoding of one. */
  lemma CharIsWritten(s: Bytes) returns (c: char)
    requires Codec.Utf8Char(s) > 0
    ensures Utf8OfChar(c) == s[..Codec.Utf8Char(s)]
  {
    var n := Codec.Utf8Char(s);
    CodeIsScalar(s);
    c := CodePoint(s[..n]) as char;
    CodeIsShifted(s, c);
  }

  lemma CodeIsScalar(s: Bytes)
    requires Codec.Utf8Char(s) > 0
    ensures IsScalar(CodePoint(s[..Codec.Utf8Char(s)]))
  {
  }

  lemma CodeIsShifted(s: Bytes, c: char)
    requires Codec.Utf8Char(s) > 0 && c as int == CodePoint(s[..Codec.Utf8Char(s)])
    ensures Utf8OfChar(c) == s[..Codec.Utf8Char(s)]
  {
    var n := Codec.Utf8Char(s);
    if n == 2 {
      Unshift(Minus(s[0], 0xC0), s[1]);
    } else if n == 3 {
      var high := Shift(Minus(s[0], 0xE0), s[1]);
      Unshift(Minus(s[0], 0xE0), s[1]);
      Unshift(high, s[2]);
    } else if n == 4 {
      var high := Shift(Minus(s[0], 0xF0), s[1]);
      Unshift(Minus(s[0], 0xF0), s[1]);
      Unshift(high, s[2]);
      Unshift(Shift(high, s[2]), s[3]);
    }
  }

  lemma Unshift(high: int, b: int)
    requires 0x80 <= b <= 0xBF
    ensures Shift(high, b) / 0x40 == high && Shift(high, b) % 0x40 == b - 0x80
  {
  }

  lemma FirstCharOf(s: Bytes)
    requires Codec.ValidUtf8(s) && s != []
    ensures 0 < Codec.Utf8Char(s) <= |s| && Codec.ValidUtf8(s[Codec.Utf8Char(s)..])
  {
    hide Codec.Utf8Char;
  }

  lemma OneCharMore(c: char, rest: string)
    ensures Utf8Of([c] + rest) == Utf8OfChar(c) + Utf8Of(rest)
  {
    hide Utf8OfChar;
    assert ([c] + rest)[1..] == rest;
  }

  lemma {:induction false} TextOf(s: Bytes) returns (name: string)
    requires Codec.ValidUtf8(s)
    ensures Utf8Of(name) == s
    decreases |s|
  {
    hide Utf8OfChar, Utf8Of, Codec.Utf8Char, Codec.ValidUtf8;
    if s == [] {
      name := NoText();
    } else {
      FirstCharOf(s);
      var n := Codec.Utf8Char(s);
      var c := CharIsWritten(s);
      var rest := TextOf(s[n..]);
      name := [c] + rest;
      OneCharMore(c, rest);
      assert s == s[..n] + s[n..];
    }
  }

  lemma NoText() returns (name: string)
    ensures Utf8Of(name) == []
  {
    name := "";
  }

  /** A byte string is well-formed exactly if it is the encoding of some text. */
  lemma Utf8Exactly(s: Bytes)
    ensures Codec.ValidUtf8(s) <==> exists name :: Utf8Of(name) == s
  {
    hide Utf8Of, Codec.ValidUtf8;
    if name :| Utf8Of(name) == s {
      NameIsUtf8(name);
    }
    if Codec.ValidUtf8(s) {
      var name := TextOf(s);
    }
  }

  lemma {:induction false} AsciiIsShort(name: string)
    requires forall i :: 0 <= i < |name| ==> name[i] <= '~'
    ensures |Utf8Of(name)| == |name|
  {
    if name != "" {
      AsciiIsShort(name[1..]);
    }
  }

  function NameText(name: string): Codec.Text {
    NameIsUtf8(name);
    Utf8Of(name)
  }

  /** The message a datagram travels as. A NOT_FOUND also carries the sender's inventory of that moment. */
  function MessageOf(p: Registry.Packet, inventory: Option<Codec.Availability>): Codec.Message {
    match p
    case Ask(id, name) => Codec.SegmentRequest(id, NameText(name))
    case Carry(id, Request) => Codec.SegmentRequest(id, [])
    case Carry(id, Content(number, total, data)) => Codec.SegmentContents(id, number, total, data)
    case Carry(id, Progress(range)) => Codec.Ack(id, Codec.Progress, range.start, range.count)
    case Carry(id, Complete) => Codec.Ack(id, Codec.Complete, 0, 0)
    case Carry(id, NotFound(retryable)) => Codec.SegmentNotFound(id, inventory, retryable)
  }

  /** A name that fits the 16-bit length field. */
  predicate NameFits(p: Registry.Packet) {
    p.Ask? ==> |Utf8Of(p.name)| <= Codec.MAX_PAYLOAD
  }

  lemma SmallMessageArrives(p: Registry.Packet, inventory: Option<Codec.Availability>)
    requires p.Carry? && p.body.Content? ==> |p.body.data| <= Segments.SEGMENT_PACKET_SIZE
    ensures var m := MessageOf(p, inventory);
      && (Codec.Decode(Codec.Encode(m)) == Ok(m) <==> NameFits(p))
      && (p.Carry? && p.body.Content? ==> |Codec.Encode(m)| <= MAX_CONTENT_DATAGRAM)
  {
    hide Codec.Decode, Codec.Norm, Utf8Of;
    Codec.ExactRoundTrip(MessageOf(p, inventory));
  }

  /**
   In every run of the two nodes every datagram is decoded to exactly what was encoded, except a
   request for a name of more than 65535 bytes; and no content datagram exceeds 1414 bytes.
   */
  lemma EverythingSentArrives(files: map<string, Bytes>, labels: seq<ManyTransfers.Label>,
                              p: Registry.Packet, inventory: Option<Codec.Availability>)
    requires ManyTransfers.Legal(files, ManyTransfers.NewWorld(), labels)
    requires p in ManyTransfers.After(files, ManyTransfers.NewWorld(), labels).log
    ensures var m := MessageOf(p, inventory);
      && (Codec.Decode(Codec.Encode(m)) == Ok(m) <==> NameFits(p))
      && (p.Carry? && p.body.Content? ==> |Codec.Encode(m)| <= MAX_CONTENT_DATAGRAM)
  {
    hide Codec.Decode, Codec.Encode, MessageOf, NameFits;
    if p.Carry? && p.body.Content? {
      var w := ManyTransfers.After(files, ManyTransfers.NewWorld(), labels);
      ManyTransfers.RunHolds(files, ManyTransfers.NewWorld(), labels);
      assert ManyTransfers.Holds(files, w, p.id);
      ManyTransfers.InLogOf(w.log, p);
      ContentIsSmall(ManyTransfers.FileOf(files, w.started[p.id]), ManyTransfers.View(w, p.id), p.body);
    }
    SmallMessageArrives(p, inventory);
  }

  // ----- What the other node reads

  /** What a message says to the node that decodes it: it is the packet `p`. */
  predicate Tells(m: Codec.Message, p: Registry.Packet) {
    match m
    case SegmentRequest(id, name) => p.Ask? && p.id == id && Utf8Of(p.name) == name
    case SegmentContents(id, number, total, data) => p == Registry.Carry(id, Segments.Content(number, total, data))
    case SegmentNotFound(id, _, retryable) => p == Registry.Carry(id, Segments.NotFound(retryable))
    case Ack(id, ackType, start, count) =>
      p == Registry.Carry(id, if ackType.Complete? then Segments.Complete else Segments.Progress(WindowSchedule.Range(start, count)))
    case _ => false
  }

  /** A request is always sent with its name. */
  predicate IsNamed(p: Registry.Packet) {
    p.Carry? ==> !p.body.Request?
  }

  lemma MessageTells(p: Registry.Packet, q: Registry.Packet, inventory: Option<Codec.Availability>)
    requires IsNamed(p)
    ensures var m := MessageOf(p, inventory);
      Tells(m, p) && (Tells(m, q) ==> q == p)
  {
    hide Utf8Of;
    if p.Ask? && q.Ask? && Utf8Of(p.name) == Utf8Of(q.name) {
      NamesDiffer(p.name, q.name);
    }
  }

  lemma StepSendsNamed(files: map<string, Bytes>, w: ManyTransfers.World, l: ManyTransfers.Label)
    requires ManyTransfers.Enabled(w, l) && forall p <- w.log :: IsNamed(p)
    ensures forall p <- ManyTransfers.Next(files, w, l).log :: IsNamed(p)
  {
    hide ReceiverLaws.Receive, ReceiverLaws.Possible, ReceiverMachine.OnTick, SenderMachine.Tick;
  }

  lemma {:induction false} RunSendsNamed(files: map<string, Bytes>, w: ManyTransfers.World, labels: seq<ManyTransfers.Label>)
    requires ManyTransfers.Legal(files, w, labels) && forall p <- w.log :: IsNamed(p)
    ensures forall p <- ManyTransfers.After(files, w, labels).log :: IsNamed(p)
    decreases |labels|
  {
    hide ManyTransfers.Next, ManyTransfers.Enabled, IsNamed;
    if labels != [] {
      StepSendsNamed(files, w, labels[0]);
      RunSendsNamed(files, ManyTransfers.Next(files, w, labels[0]), labels[1..]);
    }
  }

  /**
   In every run of the two nodes: whatever is sent and fits is read at the other node as the packet
   that was sent, and as no other.
   */
  lemma ReadAsSent(files: map<string, Bytes>, labels: seq<ManyTransfers.Label>,
                   p: Registry.Packet, q: Registry.Packet, inventory: Option<Codec.Availability>)
    requires ManyTransfers.Legal(files, ManyTransfers.NewWorld(), labels)
    requires p in ManyTransfers.After(files, ManyTransfers.NewWorld(), labels).log && NameFits(p)
    ensures var r := Codec.Decode(Codec.Encode(MessageOf(p, inventory)));
      r.Ok? && Tells(r.value, p) && (Tells(r.value, q) ==> q == p)
  {
    hide Codec.Decode, Codec.Encode, MessageOf, NameFits, Tells, IsNamed;
    RunSendsNamed(files, ManyTransfers.NewWorld(), labels);
    EverythingSentArrives(files, labels, p, inventory);
    MessageTells(p, q, inventory);
  }

  /** The names the scheduler asks for always fit. */
  lemma ValidNamesFit(id: u16, name: string)
    requires Text.ValidFilename(name)
    ensures NameFits(Registry.Ask(id, name))
  {
    AsciiIsShort(name);
  }

  lemma ContentIsSmall(file: Bytes, s: Network.Net, d: Segments.Datagram)
    requires Network.Inv(file, s) && d in s.log && d.Content?
    ensures |d.data| <= Segments.SEGMENT_PACKET_SIZE
  {
    var k: nat :| Network.InvAt(file, k, s);
    assert Network.Sendable(file, k, d, |s.writes| == 1);
  }
}
