/**
 A transfer over a link that loses, duplicates and reorders nothing, while no retry timer runs
 out: the two machines joined by two FIFO queues. Every schedule of such a transfer costs
 exactly N content packets, one Progress ACK per window after the first, and one COMPLETE.
 */
module Lossless {
  import opened Prelude
  import opened WindowSchedule
  import opened Segments
  import opened Assembly
  import opened SenderMachine
  import opened ReceiverMachine
  import opened ReceiverLaws
  import opened Network

  datatype Link = Link(
    sender: Option<Sender>,
    receiver: Receiver,
    toReceiver: seq<Datagram>,
    toSender: seq<Datagram>,
    log: seq<Datagram>,
    writes: seq<Bytes>)

  datatype Move = Send | Arrive(order: seq<u16>) | Ack

  /** The request has just been served. */
  function Begin(file: Bytes): Link {
    Link(Some(NewSender(file)), NewReceiver(), [], [], [Request], [])
  }

  function HeadArrival(s: Link, order: seq<u16>): Arrival
    requires s.toReceiver != [] && s.toReceiver[0].Content?
  {
    var c := s.toReceiver[0];
    Arrival(c.number, c.total, c.data, order, true)
  }

  ghost predicate Can(s: Link, m: Move) {
    match m
    case Send => s.sender.Some? && s.sender.value.Valid() && s.sender.value.rangeSent < s.sender.value.range.count
    case Arrive(order) =>
      s.toReceiver != [] && s.toReceiver[0].Content? && Possible(s.receiver, HeadArrival(s, order))
    case Ack =>
      s.toSender != [] && s.sender.Some? && s.sender.value.Valid() && (s.toSender[0].Progress? || s.toSender[0].Complete?)
  }

  function Do(s: Link, m: Move): Link
    requires Can(s, m)
  {
    match m
    case Send =>
      var t := Tick(s.sender.value, true, false);
      s.(sender := Some(t.sender), toReceiver := s.toReceiver + t.sent, log := s.log + t.sent)
    case Arrive(order) =>
      var e := Receive(s.receiver, HeadArrival(s, order));
      s.(receiver := e.receiver, toReceiver := s.toReceiver[1..], toSender := s.toSender + e.sent,
         log := s.log + e.sent,
         writes := if e.written.Some? then s.writes + [e.written.value] else s.writes)
    case Ack =>
      match s.toSender[0]
      case Progress(range) =>
        s.(sender := Some(OnProgress(s.sender.value, range)), toSender := s.toSender[1..])
      case _ =>
        s.(sender := None, toSender := s.toSender[1..])
  }

  // ----- The invariant

  /** The packets held are exactly 1..held. */
  predicate HoldsUpTo(packets: Packets, held: nat) {
    forall p: u16 :: p in packets <==> 1 <= p <= held
  }

  lemma HoldsOneMore(packets: Packets, held: nat, number: u16, data: Bytes)
    requires HoldsUpTo(packets, held) && number == held + 1
    ensures HoldsUpTo(packets[number := data], held + 1)
  {
  }

  datatype Phase = Level | AckInFlight | CompleteInFlight | Over

  /** The two queues and the log: `held` packets have arrived, `emitted` have been sent. */
  ghost predicate Flow(file: Bytes, s: Link, k: nat, held: nat, emitted: nat) {
    && held <= emitted <= PacketCount(|file|)
    && s.toReceiver == PacketRun(file, held + 1, emitted - held)
    && HoldsUpTo(s.receiver.packets, held)
    && Count(s.log, ContentKind) == emitted
    && Count(s.log, ProgressKind) == k
  }

  /** The two machines, with the receiver in window `k`. */
  ghost predicate Machines(file: Bytes, s: Link, phase: Phase, k: nat, held: nat, emitted: nat) {
    var n := PacketCount(|file|);
    && k < WindowCount(n) && Start(k) <= n
    && ReceiverLeads(file, k, s.receiver) && Coherent(s.receiver)
    && (phase != Over ==> s.sender.Some? && s.sender.value.Valid() && s.sender.value.file == file)
    && match phase
       case Level =>
         && s.receiver.outcome.None? && s.toSender == [] && s.writes == []
         && IsWindow(s.sender.value.range, k, n)
         && emitted == Start(k) - 1 + s.sender.value.rangeSent
         && held < End(k, n)
         && Count(s.log, CompleteKind) == 0
       case AckInFlight =>
         && s.receiver.outcome.None? && InWindow(s.receiver, k) && s.writes == []
         && s.toSender == [Progress(s.receiver.range.value)]
         && s.sender.value.rangeSent == s.sender.value.range.count
         && held == emitted == Start(k) - 1
         && Count(s.log, CompleteKind) == 0
       case _ =>
         && s.receiver.outcome == Some(Saved) && s.writes == [Carried(file)]
         && held == emitted == n && k == WindowCount(n) - 1
         && Count(s.log, CompleteKind) == 1
         && (if phase == Over then s.sender.None? && s.toSender == []
             else s.toSender == [Complete] && s.sender.value.rangeSent == s.sender.value.range.count)
  }

  ghost predicate At(file: Bytes, s: Link, phase: Phase, k: nat, held: nat, emitted: nat) {
    Flow(file, s, k, held, emitted) && Machines(file, s, phase, k, held, emitted)
  }

  ghost predicate LinkInv(file: Bytes, s: Link) {
    exists phase, k: nat, held: nat, emitted: nat :: At(file, s, phase, k, held, emitted)
  }

  lemma BeginHolds(file: Bytes)
    ensures At(file, Begin(file), Level, 0, 0, 0)
  {
    var n := PacketCount(|file|);
    WindowsTile(0, n);
    assert Count([Request][..0], ContentKind) == 0;
    assert forall kind :: Count([Request], kind) == Count([Request][..0], kind);
    assert PacketRun(file, 1, 0) == [];
  }

  /** Packets left to send and to deliver, and ACKs left to send and to take: what a step uses up. */
  function Work(n: nat, phase: Phase, k: nat, held: nat, emitted: nat): int {
    (n - emitted) + (n - held) + 2 * (WindowCount(n) - k)
      + match phase { case Level => 2 case AckInFlight => 3 case CompleteInFlight => 1 case Over => 0 }
  }

  lemma SendHolds(file: Bytes, s: Link, phase: Phase, k: nat, held: nat, emitted: nat) returns (emitted': nat)
    requires At(file, s, phase, k, held, emitted) && Can(s, Send)
    ensures phase == Level && emitted < emitted'
    ensures At(file, Do(s, Send), Level, k, held, emitted')
  {
    hide Flow, Machines, Tick, PacketCount, PacketRun;
    SendsOnlyWhenLevel(file, s, phase, k, held, emitted);
    var x := s.sender.value;
    TickSendsChunk(x);
    var sent := Min(x.range.count - x.rangeSent, SEND_CHUNK);
    emitted' := emitted + sent;
    AfterSend(file, s, k, held, emitted, sent);
  }

  lemma SendsOnlyWhenLevel(file: Bytes, s: Link, phase: Phase, k: nat, held: nat, emitted: nat)
    requires At(file, s, phase, k, held, emitted) && Can(s, Send)
    ensures phase == Level && s.sender.value.file == file
    ensures s.sender.value.range.start + s.sender.value.rangeSent == emitted + 1
  {
  }

  lemma AfterSend(file: Bytes, s: Link, k: nat, held: nat, emitted: nat, sent: nat)
    requires At(file, s, Level, k, held, emitted)
    requires 0 < sent <= s.sender.value.range.count - s.sender.value.rangeSent
    ensures emitted + sent <= PacketCount(|file|)
    ensures var x := s.sender.value;
      At(file,
        s.(sender := Some(x.(rangeSent := x.rangeSent + sent, armed := x.rangeSent + sent == x.range.count || x.armed)),
           toReceiver := s.toReceiver + PacketRun(file, emitted + 1, sent),
           log := s.log + PacketRun(file, emitted + 1, sent)),
        Level, k, held, emitted + sent)
  {
    var run := PacketRun(file, emitted + 1, sent);
    FlowAfterSend(file, s, k, held, emitted, sent);
    CountMore(s.log, run, ContentKind);
  }

  lemma FlowAfterSend(file: Bytes, s: Link, k: nat, held: nat, emitted: nat, sent: nat)
    requires Flow(file, s, k, held, emitted) && emitted + sent <= PacketCount(|file|)
    ensures var run := PacketRun(file, emitted + 1, sent);
      Flow(file, s.(toReceiver := s.toReceiver + run, log := s.log + run), k, held, emitted + sent)
  {
    RunsJoin(file, held + 1, emitted - held, sent);
    CountMore(s.log, PacketRun(file, emitted + 1, sent), ContentKind);
  }

  /** The receiver as it is when packet `held + 1` arrives: window and packet count known. */
  ghost predicate Ready(file: Bytes, r: Receiver, k: nat, held: nat) {
    && r.outcome.None? && InWindow(r, k) && ReceiverLeads(file, k, r)
    && HoldsUpTo(r.packets, held)
    && held < End(k, PacketCount(|file|))
  }

  lemma MakeReady(file: Bytes, r: Receiver, a: Arrival, k: nat, held: nat) returns (at: Receiver)
    requires r.outcome.None? && ReceiverLeads(file, k, r)
    requires HoldsUpTo(r.packets, held)
    requires held < End(k, PacketCount(|file|)) && a.total == PacketCount(|file|) && Possible(r, a)
    ensures Ready(file, at, k, held) && Possible(at, a) && Receive(at, a) == Receive(r, a)
  {
    at := r;
    if NothingHeld(r) {
      ReceiveFirst(r, a);
      at := LearnTotal(r, a.total);
    }
  }

  /** What packet `held + 1` does to a receiver that holds exactly 1..held: the next phase and window. */
  ghost predicate HeadLeads(file: Bytes, k: nat, held: nat, e: Effect, phase: Phase, k': nat) {
    var n := PacketCount(|file|);
    && ReceiverLeads(file, k', e.receiver)
    && HoldsUpTo(e.receiver.packets, held + 1)
    && match phase
       case CompleteInFlight =>
         held + 1 == n == End(k, n) && k' == k
         && e.receiver.outcome == Some(Saved) && e.written == Some(Carried(file)) && e.sent == [Complete]
       case AckInFlight =>
         held + 1 == End(k, n) < n && k' == k + 1
         && InWindow(e.receiver, k') && e.receiver.outcome.None? && e.written.None?
         && e.sent == [Progress(e.receiver.range.value)]
       case Level =>
         held + 1 < End(k, n) && k' == k && e.receiver.outcome.None? && e.sent == [] && e.written.None?
       case Over => false
  }

  lemma Misses(r: Receiver, k: nat, last: u16, number: u16)
    requires r.total.Some? && 1 <= last <= r.total.value && last !in r.packets && last != number
    ensures !Completes(r, number)
    ensures Start(k) <= last <= End(k, r.total.value) ==> !Closes(r, k, number)
  {
  }

  lemma HeadIsLast(file: Bytes, r: Receiver, a: Arrival, k: nat, held: nat)
    requires Ready(file, r, k, held) && Possible(r, a) && a.writeOk
    requires Content(a.number, a.total, a.data) == ContentOf(file, held + 1)
    requires held + 1 == PacketCount(|file|)
    ensures HeadLeads(file, k, held, Receive(r, a), CompleteInFlight, k)
  {
    assert Fresh(r, a.number);
    LastIsHonest(file, k, r, a);
    LastPacketWritesFile(file, k, r, a);
  }

  lemma HeadEndsWindow(file: Bytes, r: Receiver, a: Arrival, k: nat, held: nat)
    requires Ready(file, r, k, held) && Possible(r, a)
    requires Content(a.number, a.total, a.data) == ContentOf(file, held + 1)
    requires held + 1 == End(k, PacketCount(|file|)) < PacketCount(|file|)
    ensures HeadLeads(file, k, held, Receive(r, a), AckInFlight, k + 1)
  {
    assert Fresh(r, a.number);
    Misses(r, k, PacketCount(|file|), a.number);
    WindowEndIsHonest(file, k, r, a);
    ReceiveWindowEnd(r, k, a);
  }

  lemma HeadIsInside(file: Bytes, r: Receiver, a: Arrival, k: nat, held: nat)
    requires Ready(file, r, k, held) && Possible(r, a)
    requires Content(a.number, a.total, a.data) == ContentOf(file, held + 1)
    requires held + 1 < End(k, PacketCount(|file|))
    ensures HeadLeads(file, k, held, Receive(r, a), Level, k)
  {
    assert Fresh(r, a.number);
    Misses(r, k, End(k, PacketCount(|file|)), a.number);
    MoreIsHonest(file, k, r, a);
    ReceiveMore(r, k, a);
    var e := Receive(r, a);
    assert e == Effect(Hold(r, a), [], None);
    HoldsOneMore(r.packets, held, a.number, a.data);
    assert e.receiver.packets == r.packets[a.number := a.data];
  }

  lemma HeadEffect(file: Bytes, r: Receiver, a: Arrival, k: nat, held: nat) returns (phase: Phase, k': nat)
    requires r.outcome.None? && ReceiverLeads(file, k, r)
    requires HoldsUpTo(r.packets, held)
    requires held < End(k, PacketCount(|file|))
    requires Content(a.number, a.total, a.data) == ContentOf(file, held + 1)
    requires Possible(r, a) && a.writeOk
    ensures HeadLeads(file, k, held, Receive(r, a), phase, k')
  {
    var at := MakeReady(file, r, a, k, held);
    phase, k' := Level, k;
    if held + 1 == PacketCount(|file|) {
      phase := CompleteInFlight;
      HeadIsLast(file, at, a, k, held);
    } else if held + 1 == End(k, PacketCount(|file|)) {
      phase, k' := AckInFlight, k + 1;
      HeadEndsWindow(file, at, a, k, held);
    } else {
      HeadIsInside(file, at, a, k, held);
    }
  }

  lemma ArriveHolds(file: Bytes, s: Link, phase: Phase, k: nat, held: nat, emitted: nat, order: seq<u16>)
    returns (phase': Phase, k': nat)
    requires At(file, s, phase, k, held, emitted) && Can(s, Arrive(order))
    ensures phase == Level
    ensures (phase' == Level && k' == k) || (phase' == AckInFlight && k' == k + 1) || (phase' == CompleteInFlight && k' == k)
    ensures At(file, Do(s, Arrive(order)), phase', k', held + 1, emitted)
  {
    assert |s.toReceiver| == emitted - held;
    var a := HeadArrival(s, order);
    assert s.toReceiver[0] == ContentOf(file, held + 1);
    assert s.toReceiver[1..] == PacketRun(file, held + 2, emitted - held - 1);
    ContentKeepsCoherent(s.receiver, a);
    phase', k' := HeadEffect(file, s.receiver, a, k, held);
    var e := Receive(s.receiver, a);
    AfterHead(file, s, k, held, emitted, e, phase', k');
  }

  function AfterArrival(s: Link, e: Effect): Link
    requires s.toReceiver != []
  {
    s.(receiver := e.receiver, toReceiver := s.toReceiver[1..], toSender := s.toSender + e.sent,
       log := s.log + e.sent,
       writes := if e.written.Some? then s.writes + [e.written.value] else s.writes)
  }

  lemma AfterHead(file: Bytes, s: Link, k: nat, held: nat, emitted: nat, e: Effect, phase': Phase, k': nat)
    requires At(file, s, Level, k, held, emitted) && held < emitted
    requires HeadLeads(file, k, held, e, phase', k') && Coherent(e.receiver)
    requires s.toReceiver != [] && s.toReceiver[1..] == PacketRun(file, held + 2, emitted - held - 1)
    ensures At(file, AfterArrival(s, e), phase', k', held + 1, emitted)
  {
    FlowAfterHead(file, s, k, held, emitted, e, phase', k');
    MachinesAfterHead(file, s, k, held, emitted, e, phase', k');
  }

  lemma FlowAfterHead(file: Bytes, s: Link, k: nat, held: nat, emitted: nat, e: Effect, phase': Phase, k': nat)
    requires Flow(file, s, k, held, emitted) && held < emitted
    requires HeadLeads(file, k, held, e, phase', k')
    requires s.toReceiver != [] && s.toReceiver[1..] == PacketRun(file, held + 2, emitted - held - 1)
    ensures Flow(file, AfterArrival(s, e), k', held + 1, emitted)
  {
    hide ReceiverLeads, InWindow, PacketCount, PacketRun;
    if phase' == Level {
      assert s.log + [] == s.log;
    } else {
      CountMore(s.log, e.sent, if phase' == AckInFlight then ProgressKind else CompleteKind);
    }
  }

  lemma MachinesAfterHead(file: Bytes, s: Link, k: nat, held: nat, emitted: nat, e: Effect, phase': Phase, k': nat)
    requires Machines(file, s, Level, k, held, emitted) && held < emitted <= PacketCount(|file|)
    requires HeadLeads(file, k, held, e, phase', k') && Coherent(e.receiver)
    requires s.toReceiver != []
    ensures Machines(file, AfterArrival(s, e), phase', k', held + 1, emitted)
  {
    hide ReceiverLeads, InWindow, Coherent, HoldsUpTo, Count, PacketCount, Carried;
    WindowsTile(k, PacketCount(|file|));
    if phase' == Level {
      assert s.log + [] == s.log;
    } else {
      CountMore(s.log, e.sent, if phase' == AckInFlight then ProgressKind else CompleteKind);
    }
  }

  lemma AckHolds(file: Bytes, s: Link, phase: Phase, k: nat, held: nat, emitted: nat) returns (phase': Phase)
    requires At(file, s, phase, k, held, emitted) && Can(s, Ack)
    ensures (phase == AckInFlight && phase' == Level) || (phase == CompleteInFlight && phase' == Over)
    ensures At(file, Do(s, Ack), phase', k, held, emitted)
  {
    phase' := if phase == AckInFlight then Level else Over;
  }

  // ----- Whole runs

  ghost predicate Lawful(s: Link, moves: seq<Move>)
    decreases |moves|
  {
    moves == [] || (Can(s, moves[0]) && Lawful(Do(s, moves[0]), moves[1..]))
  }

  ghost function Outcome(s: Link, moves: seq<Move>): Link
    requires Lawful(s, moves)
    decreases |moves|
  {
    if moves == [] then s else Outcome(Do(s, moves[0]), moves[1..])
  }

  /** Every step keeps the invariant and uses up work. */
  lemma MoveHolds(file: Bytes, s: Link, m: Move, phase: Phase, k: nat, held: nat, emitted: nat)
    returns (phase': Phase, k': nat, held': nat, emitted': nat)
    requires At(file, s, phase, k, held, emitted) && Can(s, m)
    ensures At(file, Do(s, m), phase', k', held', emitted')
    ensures 0 <= Work(PacketCount(|file|), phase', k', held', emitted') < Work(PacketCount(|file|), phase, k, held, emitted)
  {
    hide At, Do, Can, PacketCount, WindowCount;
    WorkIsLeft(file, s, phase, k, held, emitted);
    phase', k', held', emitted' := phase, k, held, emitted;
    match m {
      case Send => emitted' := SendHolds(file, s, phase, k, held, emitted);
      case Arrive(order) =>
        phase', k' := ArriveHolds(file, s, phase, k, held, emitted, order);
        held' := held + 1;
      case Ack => phase' := AckHolds(file, s, phase, k, held, emitted);
    }
    WorkIsLeft(file, Do(s, m), phase', k', held', emitted');
  }

  lemma WorkIsLeft(file: Bytes, s: Link, phase: Phase, k: nat, held: nat, emitted: nat)
    requires At(file, s, phase, k, held, emitted)
    ensures k < WindowCount(PacketCount(|file|)) && held <= emitted <= PacketCount(|file|)
  {
  }

  lemma {:induction false} MovesHold(file: Bytes, s: Link, moves: seq<Move>, phase: Phase, k: nat, held: nat, emitted: nat)
    requires At(file, s, phase, k, held, emitted) && Lawful(s, moves)
    ensures LinkInv(file, Outcome(s, moves))
    ensures |moves| <= Work(PacketCount(|file|), phase, k, held, emitted)
    decreases |moves|
  {
    if moves != [] {
      var phase', k', held', emitted' := MoveHolds(file, s, moves[0], phase, k, held, emitted);
      MovesHold(file, Do(s, moves[0]), moves[1..], phase', k', held', emitted');
    }
  }

  /** Until the transfer is over some step is possible. */
  lemma NeverStuck(file: Bytes, s: Link, phase: Phase, k: nat, held: nat, emitted: nat) returns (m: Move)
    requires At(file, s, phase, k, held, emitted) && phase != Over
    ensures Can(s, m)
  {
    m := Ack;
    if phase == Level {
      m := Send;
      if held < emitted {
        assert s.toReceiver[0] == ContentOf(file, held + 1);
        var order := SomeOrder(s.receiver.packets.Keys + {held + 1});
        m := Arrive(order);
      }
    }
  }

  /**
   Every loss-free run ends, and when no step is left the file is saved and the sender freed, at
   the cost of N content packets, W(N) - 1 Progress ACKs and one COMPLETE. Until then the costs
   never exceed these.
   */
  lemma ExactCost(file: Bytes, moves: seq<Move>)
    requires Lawful(Begin(file), moves)
    ensures var s := Outcome(Begin(file), moves);
      var n := PacketCount(|file|);
      && |moves| <= 2 * n + 2 * WindowCount(n) + 2
      && Count(s.log, ContentKind) <= n
      && Count(s.log, ProgressKind) <= WindowCount(n) - 1
      && Count(s.log, CompleteKind) <= 1
      && ((forall m :: !Can(s, m)) ==>
        && s.receiver.outcome == Some(Saved) && s.writes == [Carried(file)] && s.sender.None?
        && Count(s.log, ContentKind) == n
        && Count(s.log, ProgressKind) == WindowCount(n) - 1
        && Count(s.log, CompleteKind) == 1)
  {
    BeginHolds(file);
    MovesHold(file, Begin(file), moves, Level, 0, 0, 0);
    var s := Outcome(Begin(file), moves);
    var phase, k: nat, held: nat, emitted: nat :| At(file, s, phase, k, held, emitted);
    if phase != Over {
      var m := NeverStuck(file, s, phase, k, held, emitted);
    }
  }
}
