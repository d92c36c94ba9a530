/**
 `ReceiverTransfer`: names every window, deduplicates, reassembles and writes the file.

 Timers are inputs of `OnTick`: `halfway` (half the first-response time has passed),
 `firstExpired` (the first-response deadline has passed; a request resent in this very
 tick renews it) and `quiet` (the quiet deadline has passed). Two more things are not
 the receiver's to choose: the iteration order of the packet map (`order`) and whether
 the file system accepts the write (`writeOk`).
 */
module ReceiverMachine {
  import opened Prelude
  import opened WindowSchedule
  import opened Segments
  import opened Assembly

  const RETRY_LIMIT := 8

  datatype Outcome = Saved | Failed

  datatype Receiver = Receiver(
    packets: Packets,
    total: Option<u16>,
    range: Option<Range>,
    retryCount: nat,
    outcome: Option<Outcome>,
    unresponsive: bool,
    notFound: bool,
    retryableNotFound: bool,
    requestResent: bool,
    savedBytes: Option<nat>)

  /** What one event does: the new state, the datagrams sent, the file content written if any. */
  datatype Effect = Effect(receiver: Receiver, sent: seq<Datagram>, written: Option<Bytes>)

  function NewReceiver(): Receiver {
    Receiver(map[], None, None, 0, None, false, false, false, false, None)
  }

  function RangeComplete(packets: Packets, r: Range): bool {
    forall pn :: r.start <= pn < r.start + r.count ==> Trunc16(pn) in packets
  }

  function Finish(r: Receiver, order: seq<u16>, writeOk: bool): Effect
    requires Copyable(order, r.packets)
  {
    var total := r.total.GetOr(0);
    var bytes := Assembled(total, r.packets, order);
    if writeOk then
      Effect(r.(savedBytes := Some(|bytes|), outcome := Some(Saved)), [Complete], Some(bytes))
    else
      Effect(r.(outcome := Some(Failed)), [], None)
  }

  function Advance(r: Receiver, range: Range, total: u16, order: seq<u16>, writeOk: bool): Effect
    requires Copyable(order, r.packets)
  {
    var nextStart := range.start + range.count;
    var remaining := Sub32(total + 1, nextStart);
    if remaining == 0 then Finish(r, order, writeOk)
    else
      var next := Range(Trunc16(nextStart), Trunc16(NextCount(range.count, remaining)));
      Effect(r.(range := Some(next), retryCount := 0), [Progress(next)], None)
  }

  /** The first content packet fixes the packet count and the first window. */
  function LearnTotal(r: Receiver, total: u16): Receiver {
    if r.total.None?
    then r.(total := Some(total), range := Some(Range(1, Min(INITIAL_WINDOW, total))))
    else r
  }

  function OnContent(r: Receiver, number: u16, total: u16, data: Bytes, order: seq<u16>, writeOk: bool): Effect
    requires number >= 1 ==> Copyable(order, r.packets[number := data])
  {
    if r.outcome.Some? then
      Effect(r, if r.outcome.value == Saved then [Complete] else [], None)
    else
      var r := LearnTotal(r, total);
      var total := r.total.value;
      if number == 0 || number > total || r.range.None? then Effect(r, [], None)
      else
        var range := r.range.value;
        if number < range.start || number >= range.start + range.count then
          Effect(r, [Progress(range)], None)
        else if number in r.packets then Effect(r, [], None)
        else
          var r := r.(packets := r.packets[number := data]);
          if |r.packets| >= total then Finish(r, order, writeOk)
          else if RangeComplete(r.packets, range) then Advance(r, range, total, order, writeOk)
          else Effect(r, [], None)
  }

  function OnTick(r: Receiver, halfway: bool, firstExpired: bool, quiet: bool): Effect {
    if r.outcome.Some? then Effect(r, [], None)
    else
      var resend := r.packets == map[] && !r.requestResent && halfway;
      var sent := if resend then [Request] else [];
      var r := if resend then r.(requestResent := true) else r;
      if firstExpired && !resend && r.packets == map[] then
        Effect(r.(unresponsive := true, outcome := Some(Failed)), sent, None)
      else if quiet && r.range.Some? && !RangeComplete(r.packets, r.range.value) then
        var r := r.(retryCount := r.retryCount + 1);
        if r.retryCount > RETRY_LIMIT then Effect(r.(outcome := Some(Failed)), sent, None)
        else Effect(r, sent + [Progress(r.range.value)], None)
      else Effect(r, sent, None)
  }

  function OnNotFound(r: Receiver, retryable: bool): Receiver {
    r.(retryableNotFound := retryable, notFound := !retryable, outcome := Some(Failed))
  }

  // ----- The copying loop of `complete`

  method CopyInto(buffer: array<byte>, pos: nat, payload: Bytes)
    modifies buffer
    ensures buffer[..] == Splice(old(buffer[..]), pos, payload)
  {
    if pos + |payload| <= buffer.Length {
      forall i | 0 <= i < |payload| {
        buffer[pos + i] := payload[i];
      }
    }
  }

  /** The order in which the map is walked is chosen here; the caller learns it as a ghost. */
  method AssembleFile(n: u16, packets: Packets) returns (bytes: Bytes, ghost order: seq<u16>)
    requires 0 !in packets
    ensures Enumerates(order, packets.Keys) && Copyable(order, packets)
    ensures bytes == Assembled(n, packets, order)
    ensures Whole(n, packets) ==> bytes == Joined(packets, n)
  {
    hide CopyAll, Copyable, Enumerates, Splice;
    var size := n * SEGMENT_PACKET_SIZE;
    var buffer := new byte[size](_ => 0);
    var finalSize := 0;
    order := [];
    var keys := packets.Keys;
    assert buffer[..] == Zeros(size);
    CopyNothing(buffer[..], packets);
    assert packets.Keys - keys == {};
    while keys != {}
      invariant keys <= packets.Keys
      invariant Enumerates(order, packets.Keys - keys) && Copyable(order, packets)
      invariant buffer.Length == size
      invariant buffer[..] == CopyAll(Zeros(size), order, packets)
      invariant finalSize == if n in packets.Keys - keys then Slot(n) + |packets[n]| else 0
    {
      var pn :| pn in keys;
      var pos, payload := Slot(pn), packets[pn];
      CopyInto(buffer, pos, payload);
      if pn == n {
        finalSize := pos + |payload|;
      }
      EnumeratesOneMore(order, packets.Keys - keys, pn);
      assert packets.Keys - keys + {pn} == packets.Keys - (keys - {pn});
      CopyOneMore(Zeros(size), order, packets, pn);
      order := order + [pn];
      keys := keys - {pn};
    }
    assert packets.Keys - keys == packets.Keys;
    if finalSize > buffer.Length {
      finalSize := buffer.Length;
    }
    bytes := buffer[..finalSize];
    if Whole(n, packets) {
      AnyOrderJoins(n, packets, order);
    }
  }

  // ----- The class

  class ReceiverTransfer {
    var packets: Packets
    var total: Option<u16>
    var range: Option<Range>
    var retryCount: nat
    var outcome: Option<Outcome>
    var unresponsive: bool
    var notFound: bool
    var retryableNotFound: bool
    var requestResent: bool
    var savedBytes: Option<nat>

    ghost function State(): Receiver
      reads this
    {
      Receiver(packets, total, range, retryCount, outcome, unresponsive, notFound,
               retryableNotFound, requestResent, savedBytes)
    }

    constructor ()
      ensures State() == NewReceiver()
    {
      packets, total, range, retryCount, outcome := map[], None, None, 0, None;
      unresponsive, notFound, retryableNotFound, requestResent := false, false, false, false;
      savedBytes := None;
    }

    method CompleteTransfer(writeOk: bool)
      returns (sent: seq<Datagram>, written: Option<Bytes>, ghost order: seq<u16>)
      requires 0 !in packets
      modifies this
      ensures packets == old(packets)
      ensures Enumerates(order, packets.Keys) && Copyable(order, packets)
      ensures Effect(State(), sent, written) == Finish(old(State()), order, writeOk)
    {
      var bytes;
      bytes, order := AssembleFile(total.GetOr(0), packets);
      sent, written := [], None;
      if writeOk {
        savedBytes := Some(|bytes|);
        outcome := Some(Saved);
        sent, written := [Complete], Some(bytes);
      } else {
        outcome := Some(Failed);
      }
    }

    method HandleContent(number: u16, newTotal: u16, data: Bytes, writeOk: bool)
      returns (sent: seq<Datagram>, written: Option<Bytes>, ghost order: seq<u16>)
      requires 0 !in packets
      modifies this
      ensures 0 !in packets
      ensures number >= 1 ==> Copyable(order, old(packets)[number := data])
      ensures written.Some? ==> Enumerates(order, packets.Keys)
      ensures Effect(State(), sent, written) == OnContent(old(State()), number, newTotal, data, order, writeOk)
    {
      sent, written, order := [], None, [];
      if outcome.Some? {
        if outcome.value == Saved {
          sent := [Complete];
        }
        return;
      }
      if total.None? {
        total := Some(newTotal);
        range := Some(Range(1, Min(INITIAL_WINDOW, newTotal)));
      }
      var n := total.value;
      if number == 0 || number > n {
        return;
      }
      if range.None? {
        return;
      }
      var current := range.value;
      if number < current.start || number >= current.start + current.count {
        sent := [Progress(current)];
        return;
      }
      if number in packets {
        return;
      }
      packets := packets[number := data];
      if |packets| >= n {
        sent, written, order := CompleteTransfer(writeOk);
        return;
      }
      if RangeComplete(packets, current) {
        sent, written, order := AdvanceWindow(current, n, writeOk);
      }
    }

    method AdvanceWindow(current: Range, n: u16, writeOk: bool)
      returns (sent: seq<Datagram>, written: Option<Bytes>, ghost order: seq<u16>)
      requires 0 !in packets
      modifies this
      ensures packets == old(packets) && Copyable(order, packets)
      ensures written.Some? ==> Enumerates(order, packets.Keys)
      ensures Effect(State(), sent, written) == Advance(old(State()), current, n, order, writeOk)
    {
      var nextStart := current.start + current.count;
      var remaining := Sub32(n + 1, nextStart);
      if remaining == 0 {
        sent, written, order := CompleteTransfer(writeOk);
        return;
      }
      var next := Range(Trunc16(nextStart), Trunc16(NextCount(current.count, remaining)));
      range := Some(next);
      retryCount := 0;
      sent, written, order := [Progress(next)], None, [];
    }

    method HandleTick(halfway: bool, firstExpired: bool, quiet: bool) returns (sent: seq<Datagram>)
      modifies this
      ensures Effect(State(), sent, None) == OnTick(old(State()), halfway, firstExpired, quiet)
    {
      sent := [];
      if outcome.Some? {
        return;
      }
      var renewed := false;
      if packets == map[] && !requestResent && halfway {
        requestResent := true;
        renewed := true;
        sent := [Request];
      }
      if firstExpired && !renewed && packets == map[] {
        unresponsive := true;
        outcome := Some(Failed);
        return;
      }
      if quiet && range.Some? && !RangeComplete(packets, range.value) {
        retryCount := retryCount + 1;
        if retryCount > RETRY_LIMIT {
          outcome := Some(Failed);
          return;
        }
        sent := sent + [Progress(range.value)];
      }
    }

    method HandleNotFound(retryable: bool)
      modifies this
      ensures State() == OnNotFound(old(State()), retryable)
    {
      retryableNotFound, notFound := retryable, !retryable;
      outcome := Some(Failed);
    }
  }
}
