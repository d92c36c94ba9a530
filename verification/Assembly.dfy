/**
 How `ReceiverTransfer::complete` puts a file together: every held packet is copied
 to its slot of a zeroed buffer, in whatever order the packet map yields them.
 */
module Assembly {
  import opened Prelude
  import opened Segments

  type Packets = map<u16, Bytes>

  function Slot(number: u16): nat
    requires number >= 1
  {
    (number - 1) * SEGMENT_PACKET_SIZE
  }

  /** One copy; a payload that does not fit the buffer is skipped. */
  function Splice(buf: Bytes, pos: nat, payload: Bytes): (r: Bytes)
    ensures |r| == |buf|
  {
    if pos + |payload| <= |buf| then buf[..pos] + payload + buf[pos + |payload|..] else buf
  }

  lemma EnumeratesOneMore(order: seq<u16>, keys: set<u16>, pn: u16)
    requires Enumerates(order, keys) && pn !in keys
    ensures Enumerates(order + [pn], keys + {pn})
  {
    assert forall k :: k in order ==> k in order + [pn];
    assert (order + [pn])[|order|] == pn;
  }

  lemma {:induction false} SomeOrder(keys: set<u16>) returns (order: seq<u16>)
    ensures Enumerates(order, keys)
  {
    order := [];
    if keys != {} {
      var x :| x in keys;
      order := SomeOrder(keys - {x});
      EnumeratesOneMore(order, keys - {x}, x);
      order := order + [x];
      assert keys - {x} + {x} == keys;
    }
  }

  predicate Copyable(order: seq<u16>, packets: Packets) {
    forall i :: 0 <= i < |order| ==> order[i] in packets && order[i] >= 1
  }

  function CopyAll(buf: Bytes, order: seq<u16>, packets: Packets): (r: Bytes)
    requires Copyable(order, packets)
    ensures |r| == |buf|
  {
    if order == [] then buf
    else
      var last := order[|order| - 1];
      Splice(CopyAll(buf, order[..|order| - 1], packets), Slot(last), packets[last])
  }

  lemma CopyOneMore(buf: Bytes, order: seq<u16>, packets: Packets, pn: u16)
    requires Copyable(order, packets) && pn in packets && pn >= 1
    ensures Copyable(order + [pn], packets)
    ensures CopyAll(buf, order + [pn], packets) == Splice(CopyAll(buf, order, packets), Slot(pn), packets[pn])
  {
    assert (order + [pn])[..|order|] == order;
  }

  lemma CopyNothing(buf: Bytes, packets: Packets)
    ensures Copyable([], packets) && CopyAll(buf, [], packets) == buf
    ensures Enumerates<u16>([], {})
  {
  }

  function FinalSize(total: u16, packets: Packets): (size: nat)
    ensures size <= total * SEGMENT_PACKET_SIZE
  {
    if total >= 1 && total in packets
    then Min(Slot(total) + |packets[total]|, total * SEGMENT_PACKET_SIZE)
    else 0
  }

  function Zeros(n: nat): (z: Bytes)
    ensures |z| == n
  {
    seq(n, _ => 0)
  }

  /** The bytes `complete` writes when the packet map is iterated in `order`. */
  function Assembled(total: u16, packets: Packets, order: seq<u16>): Bytes
    requires Copyable(order, packets)
  {
    CopyAll(Zeros(total * SEGMENT_PACKET_SIZE), order, packets)[..FinalSize(total, packets)]
  }

  /** All packets of a file, each full except perhaps the last. */
  predicate Whole(total: u16, packets: Packets) {
    && total >= 1
    && (forall p: u16 :: p in packets <==> 1 <= p <= total)
    && (forall p: u16 :: 1 <= p < total ==> |packets[p]| == SEGMENT_PACKET_SIZE)
    && |packets[total]| <= SEGMENT_PACKET_SIZE
  }

  /** Payloads 1..k in number order. */
  function Joined(packets: Packets, k: u16): Bytes
    requires forall p: u16 :: 1 <= p <= k ==> p in packets
  {
    if k == 0 then [] else Joined(packets, k - 1) + packets[k]
  }

  ghost predicate Placed(buf: Bytes, packets: Packets, p: u16)
    requires p in packets && p >= 1
  {
    && Slot(p) + |packets[p]| <= |buf|
    && buf[Slot(p)..Slot(p) + |packets[p]|] == packets[p]
  }

  lemma SpliceElsewhere(buf: Bytes, pos: nat, payload: Bytes, lo: nat, hi: nat)
    requires lo <= hi <= |buf| && (hi <= pos || pos + |payload| <= lo)
    ensures Splice(buf, pos, payload)[lo..hi] == buf[lo..hi]
  {
  }

  /** A copy fills its own slot and touches no other. */
  lemma SplicePlaces(buf: Bytes, total: u16, packets: Packets, p: u16, q: u16)
    requires Whole(total, packets) && |buf| == total * SEGMENT_PACKET_SIZE
    requires 1 <= p <= total && 1 <= q <= total
    ensures Slot(p) + |packets[p]| <= |buf|
    ensures p == q || Placed(buf, packets, q) ==> Placed(Splice(buf, Slot(p), packets[p]), packets, q)
  {
    var pos, payload := Slot(p), packets[p];
    assert p * SEGMENT_PACKET_SIZE <= total * SEGMENT_PACKET_SIZE;
    assert q * SEGMENT_PACKET_SIZE <= total * SEGMENT_PACKET_SIZE;
    var out := Splice(buf, pos, payload);
    if p == q {
      assert out[pos..pos + |payload|] == payload;
    } else if Placed(buf, packets, q) {
      var lo, hi := Slot(q), Slot(q) + |packets[q]|;
      if q < p {
        assert q * SEGMENT_PACKET_SIZE <= (p - 1) * SEGMENT_PACKET_SIZE;
        SpliceElsewhere(buf, pos, payload, lo, hi);
      } else {
        assert p * SEGMENT_PACKET_SIZE <= (q - 1) * SEGMENT_PACKET_SIZE;
        SpliceElsewhere(buf, pos, payload, lo, hi);
      }
    }
  }

  lemma {:induction false} CopyAllPlaces(buf: Bytes, total: u16, packets: Packets, order: seq<u16>)
    requires Whole(total, packets) && |buf| == total * SEGMENT_PACKET_SIZE
    requires Copyable(order, packets)
    ensures forall q :: q in order ==> Placed(CopyAll(buf, order, packets), packets, q)
  {
    if order != [] {
      var front, last := order[..|order| - 1], order[|order| - 1];
      CopyAllPlaces(buf, total, packets, front);
      var before := CopyAll(buf, front, packets);
      forall q | q in order
        ensures Placed(CopyAll(buf, order, packets), packets, q)
      {
        SplicePlaces(before, total, packets, last, q);
        assert q in front || q == last;
      }
    }
  }

  lemma {:induction false} PlacedIsJoined(buf: Bytes, total: u16, packets: Packets, k: u16)
    requires Whole(total, packets) && k <= total
    requires forall q: u16 :: 1 <= q <= k ==> Placed(buf, packets, q)
    ensures k < total ==> |Joined(packets, k)| == k * SEGMENT_PACKET_SIZE
    ensures k == total ==> |Joined(packets, k)| == FinalSize(total, packets)
    ensures |Joined(packets, k)| <= |buf|
    ensures buf[..|Joined(packets, k)|] == Joined(packets, k)
  {
    if k > 0 {
      PlacedIsJoined(buf, total, packets, k - 1);
      var a := |Joined(packets, k - 1)|;
      assert Placed(buf, packets, k);
      assert a == Slot(k);
      assert buf[..a + |packets[k]|] == buf[..a] + buf[a..a + |packets[k]|];
    }
  }

  /** Whatever order the map is iterated in, a whole set of packets is written as their concatenation. */
  lemma AnyOrderJoins(total: u16, packets: Packets, order: seq<u16>)
    requires Whole(total, packets)
    requires Enumerates(order, packets.Keys)
    ensures Copyable(order, packets)
    ensures Assembled(total, packets, order) == Joined(packets, total)
  {
    var zeros := Zeros(total * SEGMENT_PACKET_SIZE);
    CopyAllPlaces(zeros, total, packets, order);
    PlacedIsJoined(CopyAll(zeros, order, packets), total, packets, total);
  }

  /** The slices of a file, joined, are the part of the file that packets can carry. */
  lemma {:induction false} SlicesJoin(file: Bytes, packets: Packets, k: u16)
    requires k <= PacketCount(|file|)
    requires forall p: u16 :: 1 <= p <= k ==> InFile(file, p) && p in packets && packets[p] == Slice(file, p)
    ensures k < PacketCount(|file|) ==>
      k * SEGMENT_PACKET_SIZE <= |file| && Joined(packets, k) == file[..k * SEGMENT_PACKET_SIZE]
    ensures k == PacketCount(|file|) ==> Joined(packets, k) == Carried(file)
  {
    if k > 0 {
      SlicesJoin(file, packets, k - 1);
      PacketsAreInFile(file, k);
    }
  }
}
