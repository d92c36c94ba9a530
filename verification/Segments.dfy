/** Packetisation of a segment file, and the datagrams of one transfer. */
module Segments {
  import opened Prelude
  import opened WindowSchedule

  const SEGMENT_PACKET_SIZE := 1400
  const MAX_PACKETS := 65535

  /** What the two machines say to each other under one transfer id. */
  datatype Datagram =
    | Request
    | Content(number: u16, total: u16, data: Bytes)
    | Progress(range: Range)
    | Complete
    | NotFound(retryable: bool)

  function PacketCount(size: nat): u16 {
    Min(Max((size + SEGMENT_PACKET_SIZE - 1) / SEGMENT_PACKET_SIZE, 1), MAX_PACKETS)
  }

  /** The slice `file[seek..end]` of packet `number` exists. */
  predicate InFile(file: Bytes, number: int) {
    1 <= number && (number - 1) * SEGMENT_PACKET_SIZE <= |file|
  }

  function Slice(file: Bytes, number: int): Bytes
    requires InFile(file, number)
  {
    var seek := (number - 1) * SEGMENT_PACKET_SIZE;
    file[seek..Min(seek + SEGMENT_PACKET_SIZE, |file|)]
  }

  /** The part of a file that `PacketCount` packets can carry. */
  function Carried(file: Bytes): Bytes {
    file[..Min(|file|, MAX_PACKETS * SEGMENT_PACKET_SIZE)]
  }

  /** Only a file longer than 65535 full packets loses bytes. */
  lemma CarriedIsWholeFile(file: Bytes)
    ensures Carried(file) == file <==> |file| <= 65535 * 1400
  {
    if |file| > MAX_PACKETS * SEGMENT_PACKET_SIZE {
      assert |Carried(file)| != |file|;
    }
  }

  /** Every packet number the sender can name has its slice in the file, whatever the file's size. */
  lemma PacketsAreInFile(file: Bytes, number: int)
    requires 1 <= number <= PacketCount(|file|)
    ensures InFile(file, number)
    ensures |Slice(file, number)| <= 1400
    ensures number < PacketCount(|file|) ==> |Slice(file, number)| == 1400
    ensures number == PacketCount(|file|) ==>
      (number - 1) * SEGMENT_PACKET_SIZE + |Slice(file, number)| == |Carried(file)|
  {
    var q := (|file| + SEGMENT_PACKET_SIZE - 1) / SEGMENT_PACKET_SIZE;
    assert |file| <= q * SEGMENT_PACKET_SIZE < |file| + SEGMENT_PACKET_SIZE;
    if number < q {
      assert number * SEGMENT_PACKET_SIZE <= (q - 1) * SEGMENT_PACKET_SIZE < |file|;
    }
  }

  // ----- Counting datagrams

  datatype Kind = ContentKind | ProgressKind | CompleteKind

  predicate IsOf(kind: Kind, d: Datagram) {
    match kind
    case ContentKind => d.Content?
    case ProgressKind => d.Progress?
    case CompleteKind => d.Complete?
  }

  function Count(log: seq<Datagram>, kind: Kind): nat {
    if log == [] then 0
    else Count(log[..|log| - 1], kind) + if IsOf(kind, log[|log| - 1]) then 1 else 0
  }

  lemma {:induction false} CountSum(a: seq<Datagram>, b: seq<Datagram>, kind: Kind)
    ensures Count(a + b, kind) == Count(a, kind) + Count(b, kind)
  {
    if b == [] {
      assert a + b == a;
    } else {
      CountSum(a, b[..|b| - 1], kind);
      assert (a + b)[..|a + b| - 1] == a + b[..|b| - 1];
    }
  }

  lemma {:induction false} CountUniform(a: seq<Datagram>, of: Kind, kind: Kind)
    requires forall d :: d in a ==> IsOf(of, d)
    ensures Count(a, kind) == if of == kind then |a| else 0
  {
    if a != [] {
      assert a[|a| - 1] in a;
      CountUniform(a[..|a| - 1], of, kind);
    }
  }

  lemma CountMore(log: seq<Datagram>, sent: seq<Datagram>, of: Kind)
    requires forall d :: d in sent ==> IsOf(of, d)
    ensures forall kind :: Count(log + sent, kind) == Count(log, kind) + if of == kind then |sent| else 0
  {
    forall kind
      ensures Count(log + sent, kind) == Count(log, kind) + if of == kind then |sent| else 0
    {
      CountSum(log, sent, kind);
      CountUniform(sent, of, kind);
    }
  }
}
