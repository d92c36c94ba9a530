/**
 `SenderTransfer`: executes the range the receiver named, resends it when the
 ACK timer expires, gives up after `SENDER_RETRY_LIMIT` resends.

 A timer is an input: `sendDue` says that the pacing deadline has passed, `ackDue`
 that an ACK deadline armed by an earlier tick has passed (the shortest ACK
 timeout is 300 ms, so a deadline armed in this tick never has).
 */
module SenderMachine {
  import opened Prelude
  import opened WindowSchedule
  import opened Segments

  const SENDER_RETRY_LIMIT := 30
  const SEND_CHUNK := 8

  datatype Sender = Sender(
    file: Bytes,
    total: u16,
    range: Range,
    rangeSent: u16,
    retryCount: nat,
    armed: bool)  // `ack_deadline` is set
  {
    /** What every slice and every cast in `tick` depends on. Kept under ACKs with any numbers in them. */
    predicate Valid() {
      && total == PacketCount(|file|)
      && range.start >= 1
      && range.start + range.count - 1 <= total
      && rangeSent <= range.count
      && retryCount <= SENDER_RETRY_LIMIT
    }
  }

  function NewSender(file: Bytes): (s: Sender)
    ensures s.Valid()
    ensures IsWindow(s.range, 0, s.total) && s.rangeSent == 0 && !s.armed && s.retryCount == 0
  {
    var n := PacketCount(|file|);
    Sender(file, n, Range(1, Min(INITIAL_WINDOW, n)), 0, 0, false)
  }

  function ContentOf(file: Bytes, number: u16): (d: Datagram)
    requires 1 <= number <= PacketCount(|file|)
    ensures InFile(file, number) && d == Content(number, PacketCount(|file|), Slice(file, number))
  {
    PacketsAreInFile(file, number);
    Content(number, PacketCount(|file|), Slice(file, number))
  }

  /** Packets `first`, `first + 1`, ... of the file, `count` of them. */
  function PacketRun(file: Bytes, first: nat, count: nat): (out: seq<Datagram>)
    requires 1 <= first && first + count - 1 <= PacketCount(|file|)
    ensures |out| == count
    ensures forall i :: 0 <= i < count ==> out[i] == ContentOf(file, first + i)
  {
    seq(count, i requires 0 <= i < count => ContentOf(file, first + i))
  }

  lemma RunsJoin(file: Bytes, first: nat, a: nat, b: nat)
    requires 1 <= first && first + a + b - 1 <= PacketCount(|file|)
    ensures PacketRun(file, first, a) + PacketRun(file, first + a, b) == PacketRun(file, first, a + b)
  {
  }

  datatype Ticked = Ticked(sender: Sender, sent: seq<Datagram>, failed: bool)

  /** The chunk of the current window that is sent when the pacing deadline has passed. */
  function SendChunk(s: Sender): (t: Ticked)
    requires s.Valid() && s.rangeSent < s.range.count
    ensures t.sender.Valid()
  {
    var toSend := Min(s.range.count - s.rangeSent, SEND_CHUNK);
    var first := Trunc16(s.range.start + s.rangeSent);
    var sent := s.rangeSent + toSend;
    Ticked(s.(rangeSent := sent, armed := sent >= s.range.count || s.armed),
           PacketRun(s.file, first, toSend), false)
  }

  /** The window was sent and its ACK timer has run out: start another pass or give up. */
  function AckTimeout(s: Sender): (t: Ticked)
    requires s.Valid()
    ensures !t.failed ==> t.sender.Valid()
  {
    var retries := s.retryCount + 1;
    if retries > SENDER_RETRY_LIMIT
    then Ticked(s.(retryCount := retries), [], true)
    else Ticked(s.(retryCount := retries, rangeSent := 0, armed := false), [], false)
  }

  function Tick(s: Sender, sendDue: bool, ackDue: bool): (t: Ticked)
    requires s.Valid()
    ensures !t.failed ==> t.sender.Valid()
    ensures t.sender.file == s.file && t.sender.range == s.range
  {
    if s.rangeSent < s.range.count then
      if sendDue then SendChunk(s) else Ticked(s, [], false)
    else
      if s.armed && ackDue then AckTimeout(s) else Ticked(s, [], false)
  }

  /** A Progress ACK. The last branch is the code's answer to a range outside the file. */
  function OnProgress(s: Sender, next: Range): (s': Sender)
    requires s.Valid()
    ensures s'.Valid() && s'.file == s.file
  {
    if next.start >= 1 && next.start <= s.total then
      var count := Min(next.count, s.total - next.start + 1);
      s.(range := Range(next.start, count), rangeSent := 0, armed := false, retryCount := 0)
    else
      s.(range := Range(1, 0), rangeSent := 0, armed := true)
  }

  /** A tick sends consecutive packets of the current range, starting with the first not yet sent. */
  lemma TickStaysInRange(s: Sender, sendDue: bool, ackDue: bool)
    requires s.Valid()
    ensures var sent := Tick(s, sendDue, ackDue).sent;
      && |sent| <= SEND_CHUNK && s.rangeSent + |sent| <= s.range.count
      && forall q :: 0 <= q < |sent| ==> sent[q] == ContentOf(s.file, s.range.start + s.rangeSent + q)
  {
  }

  /** A tick does something only for a deadline that has passed: the pacing one in a pass, the ACK timer after it. */
  lemma TickNeedsItsDeadline(s: Sender, sendDue: bool, ackDue: bool)
    requires s.Valid()
    ensures var t, inPass := Tick(s, sendDue, ackDue), s.rangeSent < s.range.count;
      && |t.sent| == (if inPass && sendDue then Min(8, s.range.count - s.rangeSent) else 0)
      && (t.failed <==> !inPass && s.armed && ackDue && s.retryCount == 30)
      && (t.sender == s <==> if inPass then !sendDue else !(s.armed && ackDue))
      && (t.sender != s && !inPass ==> t.sender.retryCount == s.retryCount + 1)
      && (!inPass && s.armed && ackDue && s.retryCount < 30 ==> t.sender.rangeSent == 0 && !t.sender.armed)
  {
    hide PacketCount;
  }

  predicate AsksFor(range: Range, p: int) {
    range.start <= p < range.start + range.count
  }

  /** A Progress ACK inside the file asks exactly for the packets it names and the file has; one outside asks for none. */
  lemma AckAsksExactly(s: Sender, next: Range)
    requires s.Valid()
    ensures var x := OnProgress(s, next);
      && x.rangeSent == 0 && x.total == s.total && x.file == s.file
      && if 1 <= next.start <= s.total then
           && (forall p :: AsksFor(x.range, p) <==> AsksFor(next, p) && p <= s.total)
           && x.range.start == next.start && !x.armed && x.retryCount == 0
         else
           x.range.count == 0 && x.armed && x.retryCount == s.retryCount
  {
  }

  lemma TickSendsChunk(s: Sender)
    requires s.Valid() && s.rangeSent < s.range.count
    ensures var sent := Min(s.range.count - s.rangeSent, SEND_CHUNK);
      Tick(s, true, false) == Ticked(
        s.(rangeSent := s.rangeSent + sent, armed := s.rangeSent + sent == s.range.count || s.armed),
        PacketRun(s.file, s.range.start + s.rangeSent, sent), false)
  {
  }

  // ----- The class

  class SenderTransfer {
    var totalPackets: u16
    var file: Bytes
    var range: Range
    var rangeSent: u16
    var retryCount: nat
    var ackDeadlineSet: bool

    ghost function State(): Sender
      reads this
    {
      Sender(file, totalPackets, range, rangeSent, retryCount, ackDeadlineSet)
    }

    constructor (file: Bytes)
      ensures State() == NewSender(file)
    {
      this.file := file;
      var n := PacketCount(|file|);
      totalPackets := n;
      range := Range(1, Min(INITIAL_WINDOW, n));
      rangeSent := 0;
      retryCount := 0;
      ackDeadlineSet := false;
    }

    method SendPackets(firstPacket: u16, count: u16) returns (sent: seq<Datagram>)
      requires State().Valid()
      requires 1 <= firstPacket && firstPacket + count - 1 <= totalPackets
      ensures sent == PacketRun(file, firstPacket, count)
    {
      sent := [];
      for i := 0 to count
        invariant sent == PacketRun(file, firstPacket, i)
      {
        var packetNumber := Trunc16(firstPacket + i);
        PacketsAreInFile(file, packetNumber);
        var seek := (packetNumber - 1) * SEGMENT_PACKET_SIZE;
        var end := Min(seek + SEGMENT_PACKET_SIZE, |file|);
        sent := sent + [Content(packetNumber, totalPackets, file[seek..end])];
      }
    }

    method TickOnce(sendDue: bool, ackDue: bool) returns (sent: seq<Datagram>, failed: bool)
      requires State().Valid()
      modifies this
      ensures Ticked(State(), sent, failed) == Tick(old(State()), sendDue, ackDue)
    {
      var armedNow := false;
      sent := [];
      failed := false;
      if rangeSent < range.count && sendDue {
        var toSend := Min(range.count - rangeSent, SEND_CHUNK);
        var first := Trunc16(range.start + rangeSent);
        sent := SendPackets(first, toSend);
        rangeSent := rangeSent + toSend;
        if rangeSent >= range.count {
          ackDeadlineSet := true;
          armedNow := true;
        }
      }
      if rangeSent >= range.count && ackDeadlineSet && ackDue && !armedNow {
        retryCount := retryCount + 1;
        if retryCount > SENDER_RETRY_LIMIT {
          failed := true;
          return;
        }
        rangeSent := 0;
        ackDeadlineSet := false;
      }
    }

    method OnAckProgress(next: Range)
      requires State().Valid()
      modifies this
      ensures State() == OnProgress(old(State()), next)
    {
      if next.start >= 1 && next.start <= totalPackets {
        var count := Min(next.count, totalPackets - next.start + 1);
        range := Range(next.start, count);
        rangeSent := 0;
        ackDeadlineSet := false;
        retryCount := 0;
      } else {
        range := Range(1, 0);
        rangeSent := 0;
        ackDeadlineSet := true;
      }
    }
  }

  // ----- No ACK arrives: the range is sent in whole passes, at most 31 of them

  datatype TickInput = TickInput(sendDue: bool, ackDue: bool)

  /** A run of ticks with no ACK in between; the registry frees the sender at the first failure. */
  function Silence(s: Sender, inputs: seq<TickInput>): (t: Ticked)
    requires s.Valid()
    ensures !t.failed ==> t.sender.Valid()
  {
    if inputs == [] then Ticked(s, [], false)
    else
      var before := Silence(s, inputs[..|inputs| - 1]);
      if before.failed then before
      else
        var last := inputs[|inputs| - 1];
        var t := Tick(before.sender, last.sendDue, last.ackDue);
        Ticked(t.sender, before.sent + t.sent, t.failed)
  }

  function Repeat<T>(pass: seq<T>, times: nat): seq<T> {
    if times == 0 then [] else Repeat(pass, times - 1) + pass
  }

  /** A sender at the start of a pass over a non-empty range, nothing resent yet. */
  predicate AtPassStart(s: Sender) {
    s.Valid() && s.range.count >= 1 && s.rangeSent == 0 && !s.armed && s.retryCount == 0
  }

  /** The packets of `t` are whole passes over the range of `s` and the beginning of one more. */
  ghost predicate PassesSoFar(s: Sender, t: Ticked)
    requires s.Valid()
  {
    var pass := PacketRun(s.file, s.range.start, s.range.count);
    && t.sender.file == s.file && t.sender.range == s.range
    && if t.failed then
         t.sent == Repeat(pass, SENDER_RETRY_LIMIT + 1)
       else
         && t.sender.Valid()
         && (t.sender.armed <==> t.sender.rangeSent == s.range.count)
         && t.sent == Repeat(pass, t.sender.retryCount) + pass[..t.sender.rangeSent]
  }

  lemma SilentChunk(s: Sender, b: Ticked)
    requires AtPassStart(s) && PassesSoFar(s, b) && !b.failed
    requires b.sender.rangeSent < s.range.count
    ensures var t := SendChunk(b.sender);
      PassesSoFar(s, Ticked(t.sender, b.sent + t.sent, t.failed))
  {
    var pass := PacketRun(s.file, s.range.start, s.range.count);
    var x := b.sender;
    var t := SendChunk(x);
    assert pass[..t.sender.rangeSent] == pass[..x.rangeSent] + t.sent;
    Associate(Repeat(pass, x.retryCount), pass[..x.rangeSent], t.sent);
  }

  lemma SilentTimeout(s: Sender, b: Ticked)
    requires AtPassStart(s) && PassesSoFar(s, b) && !b.failed
    requires b.sender.rangeSent == s.range.count
    ensures var t := AckTimeout(b.sender);
      PassesSoFar(s, Ticked(t.sender, b.sent + t.sent, t.failed))
  {
    var pass := PacketRun(s.file, s.range.start, s.range.count);
    assert pass[..s.range.count] == pass;
    assert b.sent == Repeat(pass, b.sender.retryCount + 1);
    assert b.sent + [] == b.sent;
    assert b.sent + pass[..0] == b.sent;
  }

  /**
   Coverage: in any silent run the packets sent so far are `retryCount` whole passes, each of
   them start..start+count-1 once and in order, then the part of the present pass already sent.
   The sender fails exactly at the end of pass 31.
   */
  lemma {:induction false} SilentPasses(s: Sender, inputs: seq<TickInput>)
    requires AtPassStart(s)
    ensures PassesSoFar(s, Silence(s, inputs))
  {
    if inputs != [] {
      var front := inputs[..|inputs| - 1];
      SilentPasses(s, front);
      var b := Silence(s, front);
      if !b.failed {
        assert b.sent + [] == b.sent;
        if b.sender.rangeSent < s.range.count {
          SilentChunk(s, b);
        } else {
          SilentTimeout(s, b);
        }
      }
    } else {
      var pass := PacketRun(s.file, s.range.start, s.range.count);
      assert Repeat(pass, 0) + pass[..0] == [];
    }
  }

  /** Work left to a silent sender, in ticks with an expired timer: chunks of this pass, then whole passes. */
  function SilentWork(s: Sender): int {
    (s.range.count + 1) * (SENDER_RETRY_LIMIT - s.retryCount) + s.range.count - s.rangeSent
  }

  /** Termination: every tick whose pending timer has expired fails the sender or uses up work, and work is finite. */
  lemma SilenceEnds(s: Sender, inputs: seq<TickInput>, last: TickInput)
    requires AtPassStart(s) && !Silence(s, inputs).failed
    requires last.sendDue && last.ackDue
    ensures var x := Silence(s, inputs).sender;
      var t := Tick(x, last.sendDue, last.ackDue);
      && |t.sent| <= SEND_CHUNK
      && 0 <= SilentWork(x) <= (s.range.count + 1) * SENDER_RETRY_LIMIT + s.range.count
      && (!t.failed ==> SilentWork(t.sender) < SilentWork(x))
  {
    SilentPasses(s, inputs);
    var x := Silence(s, inputs).sender;
    WorkBounds(s.range.count + 1, x.retryCount);
  }

  lemma WorkBounds(c: nat, retries: nat)
    requires retries <= SENDER_RETRY_LIMIT
    ensures 0 <= c * (SENDER_RETRY_LIMIT - retries) <= c * SENDER_RETRY_LIMIT
    ensures c * (SENDER_RETRY_LIMIT - (retries + 1)) == c * (SENDER_RETRY_LIMIT - retries) - c
  {
  }

  /** A tick that finds both deadlines passed. */
  predicate Due(i: TickInput) {
    i.sendDue && i.ackDue
  }

  function DueTicks(inputs: seq<TickInput>): nat {
    if inputs == [] then 0
    else DueTicks(inputs[..|inputs| - 1]) + if Due(inputs[|inputs| - 1]) then 1 else 0
  }

  /** Every due tick uses up work and no other tick adds any. */
  lemma {:induction false} WorkRunsOut(s: Sender, inputs: seq<TickInput>)
    requires AtPassStart(s) && !Silence(s, inputs).failed
    ensures 0 <= SilentWork(Silence(s, inputs).sender) <= SilentWork(s) - DueTicks(inputs)
  {
    if inputs == [] {
      WorkBounds(s.range.count + 1, s.retryCount);
    } else {
      var front, last := inputs[..|inputs| - 1], inputs[|inputs| - 1];
      WorkRunsOut(s, front);
      SilenceEnds(s, front, TickInput(true, true));
      SilentPasses(s, front);
      SilentPasses(s, inputs);
      WorkBounds(s.range.count + 1, Silence(s, inputs).sender.retryCount);
      TickNeverAddsWork(Silence(s, front).sender, last);
    }
  }

  lemma TickNeverAddsWork(x: Sender, i: TickInput)
    requires x.Valid()
    ensures var t := Tick(x, i.sendDue, i.ackDue);
      && (!t.failed ==> SilentWork(t.sender) <= SilentWork(x))
      && (Due(i) && !t.failed && (x.armed || x.rangeSent < x.range.count) ==> SilentWork(t.sender) < SilentWork(x))
  {
    WorkBounds(x.range.count + 1, x.retryCount);
  }

  /** A sender without a timer on an empty range: it sits still for ever, whatever ticks come. */
  lemma {:induction false} EmptyRangeStalls(s: Sender, inputs: seq<TickInput>)
    requires s.Valid() && s.range.count == 0 && !s.armed
    ensures Silence(s, inputs) == Ticked(s, [], false)
  {
    if inputs != [] {
      EmptyRangeStalls(s, inputs[..|inputs| - 1]);
    }
  }

  /** With a timer it has one ACK timeout: that fails it if it was the last one allowed, and disarms it otherwise. */
  lemma {:induction false} EmptyRangeTimesOutOnce(s: Sender, inputs: seq<TickInput>)
    requires s.Valid() && s.range.count == 0 && s.armed
    ensures Silence(s, inputs) ==
      if exists i <- inputs :: i.ackDue then AckTimeout(s) else Ticked(s, [], false)
  {
    if inputs != [] {
      var front, last := inputs[..|inputs| - 1], inputs[|inputs| - 1];
      EmptyRangeTimesOutOnce(s, front);
      assert inputs == front + [last];
    }
  }

  lemma {:induction false} SomeTickIsDue(inputs: seq<TickInput>)
    requires DueTicks(inputs) > 0
    ensures exists i <- inputs :: i.ackDue
  {
    var last := inputs[|inputs| - 1];
    if !Due(last) {
      SomeTickIsDue(inputs[..|inputs| - 1]);
    }
  }

  /**
   When a sender gives up. After any Progress ACK, and then silence with enough due ticks, it has
   failed exactly if the ACK named a packet of the file and at least one of them, or named none
   and came when all retries were spent. In every other case it never sends nor fails again.
   */
  lemma GivesUpExactly(s: Sender, next: Range, inputs: seq<TickInput>)
    requires s.Valid() && DueTicks(inputs) > SilentWork(OnProgress(s, next))
    ensures Silence(OnProgress(s, next), inputs).failed <==>
      if 1 <= next.start <= s.total then next.count >= 1 else s.retryCount == SENDER_RETRY_LIMIT
    ensures !Silence(OnProgress(s, next), inputs).failed ==> Silence(OnProgress(s, next), inputs).sent == []
  {
    hide Silence;
    var x := OnProgress(s, next);
    WorkBounds(x.range.count + 1, x.retryCount);
    if x.range.count >= 1 {
      if !Silence(x, inputs).failed {
        WorkRunsOut(x, inputs);
        assert false;
      }
    } else if x.armed {
      SomeTickIsDue(inputs);
      EmptyRangeTimesOutOnce(x, inputs);
    } else {
      EmptyRangeStalls(x, inputs);
    }
  }

  /** A new sender that hears nothing gives up. */
  lemma NewSenderGivesUp(file: Bytes, inputs: seq<TickInput>)
    requires DueTicks(inputs) > SilentWork(NewSender(file))
    ensures Silence(NewSender(file), inputs).failed
  {
    var x := NewSender(file);
    WorkBounds(x.range.count + 1, x.retryCount);
    if !Silence(x, inputs).failed {
      WorkRunsOut(x, inputs);
      assert false;
    }
  }
}
