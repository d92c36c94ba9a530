/**
 One transfer, end to end: a serving node, a downloading node and the network between them.

 `log` holds every datagram ever sent. Any of them may be delivered at any later time, any
 number of times, in any order, or never. The serving node answers each delivered request
 afresh, so a sender may be recreated at any time; it may also refuse. The served file does
 not change and the transfer id belongs to this one requester.
 */
module Network {
  import opened Prelude
  import opened WindowSchedule
  import opened Segments
  import opened Assembly
  import opened SenderMachine
  import opened ReceiverMachine
  import opened ReceiverLaws

  datatype Net = Net(
    sender: Option<Sender>,      // the serving node's registry entry
    receiver: Option<Receiver>,  // the downloading node's registry entry
    log: seq<Datagram>,
    writes: seq<Bytes>,          // contents renamed into place, in order
    served: nat)                 // `Served` events

  datatype Label =
    | SenderTick(sendDue: bool, ackDue: bool)
    | ReceiverTick(halfway: bool, firstExpired: bool, quiet: bool)
    | DeliverRequest(refusal: Option<bool>)
    | DeliverContent(a: Arrival)
    | DeliverProgress(range: Range)
    | DeliverComplete
    | DeliverNotFound(retryable: bool)
    | DropReceiver  // grace period over, or the scheduler removed a failed receiver

  function Init(): Net {
    Net(None, Some(NewReceiver()), [Request], [], 0)
  }

  ghost predicate Enabled(s: Net, l: Label) {
    match l
    case SenderTick(_, _) => s.sender.Some? && s.sender.value.Valid()
    case ReceiverTick(_, _, _) => s.receiver.Some?
    case DeliverRequest(_) => Request in s.log
    case DeliverContent(a) =>
      && Content(a.number, a.total, a.data) in s.log
      && (s.receiver.Some? ==> Possible(s.receiver.value, a))
    case DeliverProgress(range) => Progress(range) in s.log && (s.sender.Some? ==> s.sender.value.Valid())
    case DeliverComplete => Complete in s.log
    case DeliverNotFound(retryable) => NotFound(retryable) in s.log
    case DropReceiver => s.receiver.Some? && s.receiver.value.outcome.Some?
  }

  function AfterEffect(s: Net, e: Effect): Net {
    s.(receiver := Some(e.receiver),
       log := s.log + e.sent,
       writes := if e.written.Some? then s.writes + [e.written.value] else s.writes)
  }

  function Next(file: Bytes, s: Net, l: Label): Net
    requires Enabled(s, l)
  {
    match l
    case SenderTick(sendDue, ackDue) =>
      var t := Tick(s.sender.value, sendDue, ackDue);
      s.(sender := if t.failed then None else Some(t.sender), log := s.log + t.sent)
    case ReceiverTick(halfway, firstExpired, quiet) =>
      AfterEffect(s, OnTick(s.receiver.value, halfway, firstExpired, quiet))
    case DeliverRequest(refusal) =>
      if refusal.Some? then s.(log := s.log + [NotFound(refusal.value)])
      else s.(sender := Some(NewSender(file)))
    case DeliverContent(a) =>
      if s.receiver.None? then s else AfterEffect(s, Receive(s.receiver.value, a))
    case DeliverProgress(range) =>
      if s.sender.None? then s else s.(sender := Some(OnProgress(s.sender.value, range)))
    case DeliverComplete =>
      if s.sender.None? then s else s.(sender := None, served := s.served + 1)
    case DeliverNotFound(retryable) =>
      if s.receiver.None? then s else s.(receiver := Some(OnNotFound(s.receiver.value, retryable)))
    case DropReceiver => s.(receiver := None)
  }

  // ----- The invariant, with `k` the highest window the receiver has asked for

  /** A datagram that may be on its way while the receiver's window is `k`. */
  ghost predicate Sendable(file: Bytes, k: nat, d: Datagram, finished: bool) {
    var n := PacketCount(|file|);
    match d
    case Request => true
    case NotFound(_) => true
    case Content(number, total, data) =>
      total == n && 1 <= number <= End(k, n) && InFile(file, number) && data == Slice(file, number)
    case Progress(range) => exists j: nat :: j <= k && IsWindow(range, j, n)
    case Complete => finished
  }

  ghost predicate SenderFollows(file: Bytes, k: nat, x: Sender) {
    && x.Valid() && x.file == file
    && (exists i: nat :: i <= k && IsWindow(x.range, i, x.total))
    && (x.armed <==> x.rangeSent == x.range.count)
  }

  ghost predicate HoldsSlices(file: Bytes, packets: Packets) {
    forall p :: p in packets ==> InFile(file, p) && packets[p] == Slice(file, p)
  }

  /** The receiver is in window `k` of this file, or nothing of it has arrived and `k` is 0. */
  ghost predicate ReceiverLeads(file: Bytes, k: nat, r: Receiver) {
    && (r.total.None? || r.total.value == PacketCount(|file|))
    && HoldsSlices(file, r.packets)
    && (r.outcome.None? ==> InWindow(r, k) || (NothingHeld(r) && r.total.None? && k == 0))
  }

  ghost predicate InvAt(file: Bytes, k: nat, s: Net) {
    && Start(k) <= PacketCount(|file|)
    && (forall d :: d in s.log ==> Sendable(file, k, d, |s.writes| == 1))
    && (s.sender.Some? ==> SenderFollows(file, k, s.sender.value))
    && (s.receiver.Some? ==> Coherent(s.receiver.value) && ReceiverLeads(file, k, s.receiver.value))
    && (s.receiver.Some? && s.receiver.value.outcome.None? ==> s.writes == [])
    && (s.receiver.Some? && s.receiver.value.outcome == Some(Saved) ==> |s.writes| == 1)
    && (s.writes == [] || s.writes == [Carried(file)])
    && (s.served > 0 ==> |s.writes| == 1)
  }

  lemma SendableLater(file: Bytes, j: nat, k: nat, d: Datagram, before: bool, after: bool)
    requires j <= k && Sendable(file, j, d, before) && (before ==> after)
    ensures Sendable(file, k, d, after)
  {
    StartMonotone(j, k);
    if d.Progress? {
      var i: nat :| i <= j && IsWindow(d.range, i, PacketCount(|file|));
    }
  }

  lemma LogLater(file: Bytes, j: nat, k: nat, s: Net, sent: seq<Datagram>, after: bool)
    requires InvAt(file, j, s) && j <= k && (|s.writes| == 1 ==> after)
    requires forall d :: d in sent ==> Sendable(file, k, d, after)
    ensures forall d :: d in s.log + sent ==> Sendable(file, k, d, after)
  {
    forall d | d in s.log
      ensures Sendable(file, k, d, after)
    {
      SendableLater(file, j, k, d, |s.writes| == 1, after);
    }
  }

  lemma SenderFollowsLater(file: Bytes, j: nat, k: nat, x: Sender)
    requires j <= k && SenderFollows(file, j, x)
    ensures SenderFollows(file, k, x)
  {
    var i: nat :| i <= j && IsWindow(x.range, i, x.total);
  }

  lemma InitHolds(file: Bytes)
    ensures InvAt(file, 0, Init())
  {
  }

  // ----- Sender steps

  lemma WindowIsSendable(file: Bytes, i: nat, k: nat, range: Range, number: u16)
    requires i <= k && IsWindow(range, i, PacketCount(|file|)) && Start(k) <= PacketCount(|file|)
    requires range.start <= number < range.start + range.count
    ensures number <= PacketCount(|file|) && Sendable(file, k, ContentOf(file, number), false)
  {
    StartMonotone(i, k);
  }

  /** A tick sends packets of the current range only, and leaves the sender following. */
  lemma TickFollows(file: Bytes, k: nat, x: Sender, sendDue: bool, ackDue: bool)
    requires SenderFollows(file, k, x) && Start(k) <= PacketCount(|file|)
    ensures var t := Tick(x, sendDue, ackDue);
      && (!t.failed ==> SenderFollows(file, k, t.sender))
      && (forall d :: d in t.sent ==> Sendable(file, k, d, false))
  {
    hide PacketRun, Sendable, PacketCount, IsWindow;
    var i: nat :| i <= k && IsWindow(x.range, i, x.total);
    WindowIsNotEmpty(x.range, i, x.total);
    TickSends(file, i, k, x, sendDue, ackDue);
  }

  lemma WindowIsNotEmpty(range: Range, i: nat, n: u16)
    requires IsWindow(range, i, n)
    ensures range.count >= 1
  {
  }

  lemma TickSends(file: Bytes, i: nat, k: nat, x: Sender, sendDue: bool, ackDue: bool)
    requires SenderFollows(file, k, x) && Start(k) <= PacketCount(|file|)
    requires i <= k && IsWindow(x.range, i, x.total)
    ensures forall d :: d in Tick(x, sendDue, ackDue).sent ==> Sendable(file, k, d, false)
  {
    hide Tick, Sendable, PacketCount, IsWindow;
    TickStaysInRange(x, sendDue, ackDue);
    var t := Tick(x, sendDue, ackDue);
    forall d | d in t.sent
      ensures Sendable(file, k, d, false)
    {
      var q :| 0 <= q < |t.sent| && t.sent[q] == d;
      WindowIsSendable(file, i, k, x.range, x.range.start + x.rangeSent + q);
    }
  }

  lemma SenderTickHolds(file: Bytes, k: nat, s: Net, sendDue: bool, ackDue: bool)
    requires InvAt(file, k, s) && s.sender.Some?
    ensures s.sender.value.Valid() && InvAt(file, k, Next(file, s, SenderTick(sendDue, ackDue)))
  {
    TickFollows(file, k, s.sender.value, sendDue, ackDue);
    LogLater(file, k, k, s, Tick(s.sender.value, sendDue, ackDue).sent, |s.writes| == 1);
  }

  /**
   An honest Progress ACK names a non-empty range inside the file: the clamp changes nothing
   and the sender's branch for bogus ranges is not taken.
   */
  lemma AckNeedsNoClamp(file: Bytes, k: nat, s: Net, range: Range)
    requires InvAt(file, k, s) && s.sender.Some? && Progress(range) in s.log
    ensures var x := s.sender.value;
      && 1 <= range.start <= x.total
      && 1 <= range.count <= x.total - range.start + 1
      && x.Valid()
      && OnProgress(x, range) == x.(range := range, rangeSent := 0, armed := false, retryCount := 0)
      && SenderFollows(file, k, OnProgress(x, range))
  {
    assert Sendable(file, k, Progress(range), |s.writes| == 1);
    var j: nat :| j <= k && IsWindow(range, j, PacketCount(|file|));
  }

  // ----- Receiver steps

  /** A content packet on the network is never above the receiver's window: what is stray comes from below it. */
  lemma StraysComeFromBelow(file: Bytes, k: nat, s: Net, a: Arrival)
    requires InvAt(file, k, s) && s.receiver.Some? && Content(a.number, a.total, a.data) in s.log
    requires s.receiver.value.outcome.None? && InWindow(s.receiver.value, k)
    ensures a.number < s.receiver.value.range.value.start + s.receiver.value.range.value.count
  {
    assert Sendable(file, k, Content(a.number, a.total, a.data), |s.writes| == 1);
  }

  lemma HoldsAllIsFile(file: Bytes, r: Receiver, order: seq<u16>)
    requires r.total == Some(PacketCount(|file|)) && HoldsAll(r) && HoldsSlices(file, r.packets)
    requires Enumerates(order, r.packets.Keys)
    ensures Copyable(order, r.packets)
    ensures Assembled(r.total.value, r.packets, order) == Carried(file)
  {
    var n := PacketCount(|file|);
    forall p: u16 | 1 <= p <= n
      ensures |r.packets[p]| <= SEGMENT_PACKET_SIZE
      ensures p < n ==> |r.packets[p]| == SEGMENT_PACKET_SIZE
    {
      PacketsAreInFile(file, p);
    }
    AnyOrderJoins(n, r.packets, order);
    SlicesJoin(file, r.packets, n);
  }

  lemma FinishWritesFile(file: Bytes, r: Receiver, order: seq<u16>, writeOk: bool)
    requires r.total == Some(PacketCount(|file|)) && HoldsAll(r) && HoldsSlices(file, r.packets)
    requires Enumerates(order, r.packets.Keys)
    ensures Copyable(order, r.packets)
    ensures Finish(r, order, writeOk) ==
      if writeOk
      then Effect(r.(savedBytes := Some(|Carried(file)|), outcome := Some(Saved)), [Complete], Some(Carried(file)))
      else Effect(r.(outcome := Some(Failed)), [], None)
  {
    HoldsAllIsFile(file, r, order);
  }

  lemma HoldKeepsSlices(file: Bytes, r: Receiver, a: Arrival)
    requires HoldsSlices(file, r.packets)
    requires InFile(file, a.number) && a.data == Slice(file, a.number)
    ensures HoldsSlices(file, Hold(r, a).packets)
    ensures a.number !in r.packets ==> Hold(r, a).packets.Keys == r.packets.Keys + {a.number}
  {
  }

  /** The packet that completes the file: its bytes are written and COMPLETE is sent, or the transfer fails. */
  lemma LastPacketWritesFile(file: Bytes, k: nat, r: Receiver, a: Arrival)
    requires r.outcome.None? && InWindow(r, k) && r.total == Some(PacketCount(|file|)) && HoldsSlices(file, r.packets)
    requires Possible(r, a) && InFile(file, a.number) && a.data == Slice(file, a.number)
    requires Fresh(r, a.number) && Completes(r, a.number)
    ensures Receive(r, a) ==
      if a.writeOk
      then Effect(Hold(r, a).(savedBytes := Some(|Carried(file)|), outcome := Some(Saved)), [Complete], Some(Carried(file)))
      else Effect(Hold(r, a).(outcome := Some(Failed)), [], None)
  {
    ReceiveLast(r, k, a);
    HoldKeepsSlices(file, r, a);
    FinishWritesFile(file, Hold(r, a), a.order, a.writeOk);
  }

  /** An effect that leaves the receiver in window `k` or finished, having written the file if it is saved. */
  ghost predicate HonestEffect(file: Bytes, k: nat, e: Effect) {
    && Start(k) <= PacketCount(|file|)
    && ReceiverLeads(file, k, e.receiver)
    && (e.written.Some? <==> e.receiver.outcome == Some(Saved))
    && (e.written.Some? ==> e.written.value == Carried(file))
    && (forall d :: d in e.sent ==> Sendable(file, k, d, e.written.Some?))
  }

  lemma StaleIsHonest(file: Bytes, k: nat, r: Receiver, a: Arrival)
    requires r.outcome.None? && InWindow(r, k) && ReceiverLeads(file, k, r)
    requires Possible(r, a) && !Fresh(r, a.number)
    ensures HonestEffect(file, k, Receive(r, a))
  {
    ReceiveStale(r, k, a);
    var e := Receive(r, a);
    assert IsWindow(r.range.value, k, PacketCount(|file|));
    assert e.sent == [] || e.sent == [Progress(r.range.value)];
  }

  lemma LastIsHonest(file: Bytes, k: nat, r: Receiver, a: Arrival)
    requires r.outcome.None? && InWindow(r, k) && ReceiverLeads(file, k, r)
    requires Possible(r, a) && InFile(file, a.number) && a.data == Slice(file, a.number)
    requires Fresh(r, a.number) && Completes(r, a.number)
    ensures HonestEffect(file, k, Receive(r, a))
  {
    LastPacketWritesFile(file, k, r, a);
    HoldKeepsSlices(file, r, a);
  }

  lemma WindowEndIsHonest(file: Bytes, k: nat, r: Receiver, a: Arrival)
    requires r.outcome.None? && InWindow(r, k) && ReceiverLeads(file, k, r)
    requires Possible(r, a) && InFile(file, a.number) && a.data == Slice(file, a.number)
    requires Fresh(r, a.number) && !Completes(r, a.number) && Closes(r, k, a.number)
    ensures var e := Receive(r, a);
      && HonestEffect(file, k + 1, e) && e.receiver.outcome.None? && InWindow(e.receiver, k + 1)
      && e.sent == [Progress(e.receiver.range.value)]
  {
    ReceiveWindowEnd(r, k, a);
    HoldKeepsSlices(file, r, a);
    var e := Receive(r, a);
    assert IsWindow(e.receiver.range.value, k + 1, PacketCount(|file|));
  }

  lemma MoreIsHonest(file: Bytes, k: nat, r: Receiver, a: Arrival)
    requires r.outcome.None? && InWindow(r, k) && ReceiverLeads(file, k, r)
    requires Possible(r, a) && InFile(file, a.number) && a.data == Slice(file, a.number)
    requires Fresh(r, a.number) && !Closes(r, k, a.number)
    ensures HonestEffect(file, k, Receive(r, a)) && Receive(r, a).receiver.outcome.None?
  {
    ReceiveMore(r, k, a);
    HoldKeepsSlices(file, r, a);
  }

  /** What an honest content packet does to a receiver in window `k`. */
  lemma ContentAtReceiver(file: Bytes, k: nat, r: Receiver, a: Arrival) returns (k': nat)
    requires r.outcome.None? && InWindow(r, k) && ReceiverLeads(file, k, r)
    requires Possible(r, a) && InFile(file, a.number) && a.data == Slice(file, a.number)
    ensures k <= k' && HonestEffect(file, k', Receive(r, a))
  {
    k' := k;
    if !Fresh(r, a.number) {
      StaleIsHonest(file, k, r, a);
    } else if Completes(r, a.number) {
      LastIsHonest(file, k, r, a);
    } else if Closes(r, k, a.number) {
      k' := k + 1;
      WindowEndIsHonest(file, k, r, a);
    } else {
      MoreIsHonest(file, k, r, a);
    }
  }

  lemma DeliverContentHolds(file: Bytes, k: nat, s: Net, a: Arrival) returns (k': nat)
    requires InvAt(file, k, s) && Enabled(s, DeliverContent(a))
    ensures k <= k' && InvAt(file, k', Next(file, s, DeliverContent(a)))
  {
    k' := k;
    if s.receiver.Some? {
      var r := s.receiver.value;
      assert Sendable(file, k, Content(a.number, a.total, a.data), |s.writes| == 1);
      ContentKeepsCoherent(r, a);
      if r.outcome.None? {
        var at := r;
        if NothingHeld(r) {
          ReceiveFirst(r, a);
          at := LearnTotal(r, a.total);
        }
        k' := ContentAtReceiver(file, k, at, a);
        var e := Receive(r, a);
        LogLater(file, k, k', s, e.sent, e.written.Some?);
        if s.sender.Some? {
          SenderFollowsLater(file, k, k', s.sender.value);
        }
      } else {
        LogLater(file, k, k, s, Receive(r, a).sent, |s.writes| == 1);
      }
    }
  }

  lemma ReceiverTickHolds(file: Bytes, k: nat, s: Net, halfway: bool, firstExpired: bool, quiet: bool)
    requires InvAt(file, k, s) && s.receiver.Some?
    ensures InvAt(file, k, Next(file, s, ReceiverTick(halfway, firstExpired, quiet)))
  {
    var r := s.receiver.value;
    TickKeepsCoherent(r, halfway, firstExpired, quiet);
    if r.outcome.None? && !NothingHeld(r) {
      TickInWindow(r, k, halfway, firstExpired, quiet);
    }
    LogLater(file, k, k, s, OnTick(r, halfway, firstExpired, quiet).sent, |s.writes| == 1);
  }

  /** Every step keeps the invariant; the receiver's window never goes back. */
  lemma StepHolds(file: Bytes, k: nat, s: Net, l: Label) returns (k': nat)
    requires InvAt(file, k, s) && Enabled(s, l)
    ensures k <= k' && InvAt(file, k', Next(file, s, l))
  {
    k' := k;
    match l
    case SenderTick(sendDue, ackDue) => SenderTickHolds(file, k, s, sendDue, ackDue);
    case ReceiverTick(halfway, firstExpired, quiet) => ReceiverTickHolds(file, k, s, halfway, firstExpired, quiet);
    case DeliverRequest(refusal) =>
      if refusal.None? {
        var x := NewSender(file);
        assert IsWindow(x.range, 0, x.total);
      }
    case DeliverContent(a) => k' := DeliverContentHolds(file, k, s, a);
    case DeliverProgress(range) =>
      if s.sender.Some? {
        AckNeedsNoClamp(file, k, s, range);
      }
    case DeliverComplete =>
      assert Sendable(file, k, Complete, |s.writes| == 1);
    case DeliverNotFound(retryable) =>
    case DropReceiver =>
  }

  // ----- Whole runs

  ghost predicate Legal(file: Bytes, s: Net, labels: seq<Label>)
    decreases |labels|
  {
    labels == [] || (Enabled(s, labels[0]) && Legal(file, Next(file, s, labels[0]), labels[1..]))
  }

  ghost function After(file: Bytes, s: Net, labels: seq<Label>): Net
    requires Legal(file, s, labels)
    decreases |labels|
  {
    if labels == [] then s else After(file, Next(file, s, labels[0]), labels[1..])
  }

  ghost predicate Inv(file: Bytes, s: Net) {
    exists k: nat :: InvAt(file, k, s)
  }

  lemma {:induction false} RunHolds(file: Bytes, s: Net, labels: seq<Label>)
    requires Inv(file, s) && Legal(file, s, labels)
    ensures Inv(file, After(file, s, labels))
    decreases |labels|
  {
    if labels != [] {
      var k: nat :| InvAt(file, k, s);
      var k' := StepHolds(file, k, s, labels[0]);
      RunHolds(file, Next(file, s, labels[0]), labels[1..]);
    }
  }

  lemma {:induction false} ServedOnlyGrows(file: Bytes, s: Net, labels: seq<Label>)
    requires Legal(file, s, labels)
    ensures s.served <= After(file, s, labels).served
    ensures s.writes <= After(file, s, labels).writes && s.log <= After(file, s, labels).log
    decreases |labels|
  {
    if labels != [] {
      ServedOnlyGrows(file, Next(file, s, labels[0]), labels[1..]);
    }
  }

  /**
   End-to-end safety, for every file and every run from the request on: the receiver writes at
   most once, and what it writes is the file, exactly if the file is no longer than 65535 packets.
   A COMPLETE on the network and a `Served` event each mean that the write has happened.
   */
  lemma EndToEnd(file: Bytes, labels: seq<Label>)
    requires Legal(file, Init(), labels)
    ensures var s := After(file, Init(), labels);
      && |s.writes| <= 1
      && (s.writes != [] ==> s.writes[0] == Carried(file))
      && (s.writes != [] ==> (s.writes[0] == file <==> |file| <= MAX_PACKETS * SEGMENT_PACKET_SIZE))
      && (Complete in s.log ==> |s.writes| == 1)
      && (s.served > 0 ==> |s.writes| == 1)
      && (s.receiver.Some? && s.receiver.value.outcome == Some(Saved) ==> |s.writes| == 1)
  {
    InitHolds(file);
    RunHolds(file, Init(), labels);
    CarriedIsWholeFile(file);
    var s := After(file, Init(), labels);
    var k: nat :| InvAt(file, k, s);
    if Complete in s.log {
      assert Sendable(file, k, Complete, |s.writes| == 1);
    }
  }

  /** Both machines and every Progress ACK are on one schedule, none of them ahead of the receiver's window `k`. */
  ghost predicate OnSchedule(file: Bytes, k: nat, s: Net) {
    var n := PacketCount(|file|);
    && k < WindowCount(n)
    && (s.receiver.Some? && s.receiver.value.outcome.None? && s.receiver.value.range.Some? ==>
          IsWindow(s.receiver.value.range.value, k, n))
    && (s.sender.Some? ==> exists i: nat :: i <= k && IsWindow(s.sender.value.range, i, n))
    && (forall range :: Progress(range) in s.log ==> exists j: nat :: j <= k && IsWindow(range, j, n))
  }

  /** The window invariant the two machines share, in every reachable state. */
  lemma OneSchedule(file: Bytes, labels: seq<Label>)
    requires Legal(file, Init(), labels)
    ensures exists k: nat :: OnSchedule(file, k, After(file, Init(), labels))
  {
    InitHolds(file);
    RunHolds(file, Init(), labels);
    var s := After(file, Init(), labels);
    var n := PacketCount(|file|);
    var k: nat :| InvAt(file, k, s);
    WindowsTile(k, n);
    forall range | Progress(range) in s.log
      ensures exists j: nat :: j <= k && IsWindow(range, j, n)
    {
      assert Sendable(file, k, Progress(range), |s.writes| == 1);
    }
    assert OnSchedule(file, k, s);
  }

  // ----- A refusal that comes after the file is saved

  /** A run that saves an empty file. */
  function SaveSteps(): seq<Label> {
    [DeliverRequest(None), SenderTick(true, false), DeliverContent(Arrival(1, 1, [], [1], true))]
  }

  /** The request arrives a second time and is refused this time. */
  function RefusalSteps(): seq<Label> {
    [DeliverRequest(Some(false)), DeliverNotFound(false)]
  }

  lemma RequestIsServed()
    ensures Enabled(Init(), DeliverRequest(None))
    ensures Next([], Init(), DeliverRequest(None)) == Init().(sender := Some(NewSender([])))
  {
  }

  lemma EmptyFileIsSent(s: Net)
    requires s == Init().(sender := Some(NewSender([])))
    ensures Enabled(s, SenderTick(true, false))
    ensures var t := Next([], s, SenderTick(true, false));
      t.log == [Request, Content(1, 1, [])] && t.receiver == Some(NewReceiver()) && t.writes == []
  {
    hide PacketCount, PacketRun, Tick, NewSender;
    EmptyFileHasOnePacket();
    var x := NewSender([]);
    TickSendsChunk(x);
    assert s.log + [Content(1, 1, [])] == [Request, Content(1, 1, [])];
  }

  lemma EmptyFileHasOnePacket()
    ensures var x := NewSender([]);
      x.file == [] && x.range == Range(1, 1) && x.rangeSent == 0 && PacketCount(0) == 1
    ensures PacketRun([], 1, 1) == [Content(1, 1, [])]
  {
    EmptySlice();
    hide ContentOf, Slice;
    assert PacketRun([], 1, 1)[0] == ContentOf([], 1);
  }

  lemma EmptySlice()
    ensures PacketCount(0) == 1 && ContentOf([], 1) == Content(1, 1, [])
  {
  }

  lemma EmptyFileArrives(s: Net)
    requires s.log == [Request, Content(1, 1, [])] && s.receiver == Some(NewReceiver()) && s.writes == []
    ensures var l := DeliverContent(Arrival(1, 1, [], [1], true));
      && Enabled(s, l)
      && var t := Next([], s, l);
         t.receiver.Some? && t.receiver.value.outcome == Some(Saved) && t.writes == [[]] && Request in t.log
  {
    hide Receive, Possible;
    var a := Arrival(1, 1, [], [1], true);
    ReceiverSaves(a);
    assert s.log[1] == Content(1, 1, []);
    assert (s.log + [Complete])[0] == Request;
  }

  /** An empty file, on its way to being saved. */
  lemma EmptyFileIsSaved()
    ensures Legal([], Init(), SaveSteps())
    ensures var s := After([], Init(), SaveSteps());
      s.receiver.Some? && s.receiver.value.outcome == Some(Saved) && s.writes == [[]] && Request in s.log
  {
    hide Legal, After, Enabled, Next, Init, NewSender, NewReceiver;
    var s0, labels := Init(), SaveSteps();
    RequestIsServed();
    var s1 := Next([], s0, labels[0]);
    EmptyFileIsSent(s1);
    EmptyFileArrives(Next([], s1, labels[1]));
    ThreeSteps([], s0, labels);
  }

  lemma ReceiverSaves(a: Arrival)
    requires a == Arrival(1, 1, [], [1], true)
    ensures Possible(NewReceiver(), a)
    ensures var e := Receive(NewReceiver(), a);
      e.receiver.outcome == Some(Saved) && e.written == Some([]) && e.sent == [Complete]
  {
    var packets: Packets := map[][1 := []];
    assert packets.Keys == {1};
    assert NewReceiver().packets[1 := []] == packets;
  }

  lemma ThreeSteps(file: Bytes, s: Net, labels: seq<Label>)
    requires |labels| == 3 && Enabled(s, labels[0])
    requires var s1 := Next(file, s, labels[0]);
      Enabled(s1, labels[1]) && Enabled(Next(file, s1, labels[1]), labels[2])
    ensures Legal(file, s, labels)
    ensures After(file, s, labels) == Next(file, Next(file, Next(file, s, labels[0]), labels[1]), labels[2])
  {
    hide Next, Enabled;
    var s1 := Next(file, s, labels[0]);
    TwoSteps(file, s1, labels[1..]);
    StepThen(file, s, labels[0], labels[1..]);
    assert labels == [labels[0]] + labels[1..];
  }

  lemma StepThen(file: Bytes, s: Net, l: Label, rest: seq<Label>)
    requires Enabled(s, l) && Legal(file, Next(file, s, l), rest)
    ensures Legal(file, s, [l] + rest)
    ensures After(file, s, [l] + rest) == After(file, Next(file, s, l), rest)
  {
    hide Next, Enabled;
    assert ([l] + rest)[1..] == rest;
  }

  lemma TwoSteps(file: Bytes, s: Net, labels: seq<Label>)
    requires |labels| == 2 && Enabled(s, labels[0]) && Enabled(Next(file, s, labels[0]), labels[1])
    ensures Legal(file, s, labels)
    ensures After(file, s, labels) == Next(file, Next(file, s, labels[0]), labels[1])
  {
    hide Next, Enabled;
    var s1 := Next(file, s, labels[0]);
    assert Legal(file, Next(file, s1, labels[1]), []);
    StepThen(file, s1, labels[1], []);
    assert [labels[1]] + [] == [labels[1]];
    StepThen(file, s, labels[0], [labels[1]]);
    assert labels == [labels[0]] + [labels[1]];
  }

  /** A duplicate request that is refused turns the receiver of a file that was saved into a failed one. */
  lemma LateRefusalOverwritesSaved()
    ensures Legal([], Init(), SaveSteps())
    ensures var s := After([], Init(), SaveSteps());
      && s.receiver.Some? && s.receiver.value.outcome == Some(Saved)
      && Legal([], s, RefusalSteps())
      && var t := After([], s, RefusalSteps());
         t.receiver.Some? && t.receiver.value.outcome == Some(Failed) && t.writes == [[]]
  {
    hide Legal, After;
    EmptyFileIsSaved();
    var s := After([], Init(), SaveSteps());
    TwoSteps([], s, RefusalSteps());
  }
}
