/**
 Progress. From every reachable state with a live sender that may still resend and a receiver
 that has no outcome, and even if everything on the network is lost at that moment, the
 transfer can still be finished by deliveries of datagrams sent from then on. The receiver's
 own timers are not needed: a stray packet makes the receiver state its window again.
 */
module Recovery {
  import opened Prelude
  import opened WindowSchedule
  import opened Segments
  import opened Assembly
  import opened SenderMachine
  import opened ReceiverMachine
  import opened ReceiverLaws
  import opened Network

  /** Sender ticks and deliveries, with a file system that accepts the write. */
  predicate Benign(l: Label) {
    l.SenderTick? || l.DeliverProgress? || l.DeliverComplete? || (l.DeliverContent? && l.a.writeOk)
  }

  ghost predicate Path(file: Bytes, s: Net, labels: seq<Label>, t: Net) {
    && (forall i :: 0 <= i < |labels| ==> Benign(labels[i]))
    && Legal(file, s, labels) && After(file, s, labels) == t
  }

  ghost predicate Reaches(file: Bytes, s: Net, t: Net) {
    exists labels: seq<Label> :: Path(file, s, labels, t)
  }

  lemma Here(file: Bytes, s: Net)
    ensures Reaches(file, s, s)
  {
    assert Path(file, s, [], s);
  }

  lemma OneStep(file: Bytes, s: Net, l: Label)
    requires Enabled(s, l) && Benign(l)
    ensures Reaches(file, s, Next(file, s, l))
  {
    var t := Next(file, s, l);
    assert [l][1..] == [];
    assert Legal(file, t, []);
    assert Path(file, s, [l], t);
  }

  lemma {:induction false} PathsCompose(file: Bytes, s: Net, first: seq<Label>, t: Net, second: seq<Label>, u: Net)
    requires Path(file, s, first, t) && Path(file, t, second, u)
    ensures Path(file, s, first + second, u)
    decreases |first|
  {
    if first == [] {
      assert first + second == second;
    } else {
      assert Path(file, Next(file, s, first[0]), first[1..], t);
      PathsCompose(file, Next(file, s, first[0]), first[1..], t, second, u);
      assert (first + second)[1..] == first[1..] + second;
    }
  }

  lemma Then(file: Bytes, s: Net, t: Net, u: Net)
    requires Reaches(file, s, t) && Reaches(file, t, u)
    ensures Reaches(file, s, u)
  {
    var first :| Path(file, s, first, t);
    var second :| Path(file, t, second, u);
    PathsCompose(file, s, first, t, second, u);
  }

  // ----- What a path costs

  /** The content packets ever sent. */
  function Contents(s: Net): nat {
    Count(s.log, ContentKind)
  }

  lemma NoContentSent(log: seq<Datagram>, sent: seq<Datagram>)
    requires forall d <- sent :: !d.Content?
    ensures Count(log + sent, ContentKind) == Count(log, ContentKind)
  {
    CountSum(log, sent, ContentKind);
    NoContent(sent);
  }

  lemma {:induction false} NoContent(sent: seq<Datagram>)
    requires forall d <- sent :: !d.Content?
    ensures Count(sent, ContentKind) == 0
  {
    if sent != [] {
      NoContent(sent[..|sent| - 1]);
      assert sent[|sent| - 1] in sent;
    }
  }

  lemma RunIsContent(file: Bytes, first: nat, count: nat, log: seq<Datagram>)
    requires 1 <= first && first + count - 1 <= PacketCount(|file|)
    ensures Count(log + PacketRun(file, first, count), ContentKind) == Count(log, ContentKind) + count
  {
    CountMore(log, PacketRun(file, first, count), ContentKind);
  }

  // ----- The state between steps

  /** Reachable, with a sender and a receiver. */
  ghost predicate Joined(file: Bytes, k: nat, s: Net) {
    InvAt(file, k, s) && s.sender.Some? && s.receiver.Some?
  }

  /** The receiver is still running in window `k`. */
  ghost predicate Live(file: Bytes, k: nat, s: Net) {
    Joined(file, k, s) && s.receiver.value.outcome.None?
  }

  /** The sender is about to send the receiver's window from its first packet. */
  ghost predicate Aligned(file: Bytes, k: nat, s: Net) {
    && Live(file, k, s)
    && IsWindow(s.sender.value.range, k, PacketCount(|file|))
    && s.sender.value.rangeSent == 0
  }

  ghost predicate Done(file: Bytes, s: Net) {
    && s.receiver.Some? && s.receiver.value.outcome == Some(Saved)
    && s.writes == [Carried(file)] && s.sender.None?
  }

  lemma NowIn(file: Bytes, k': nat, k: nat, s: Net)
    requires InvAt(file, k', s) && s.receiver.Some? && s.receiver.value.outcome.None?
    requires InWindow(s.receiver.value, k)
    ensures k' == k
  {
    WindowIsUnique(s.receiver.value, k', k);
  }

  lemma WindowIsUnique(r: Receiver, j: nat, k: nat)
    requires InWindow(r, j) && InWindow(r, k)
    ensures j == k
  {
    StartMonotone(if j < k then j else k, if j < k then k else j);
  }

  /** The arrival of packet `number` of the file, with some iteration order of the packet map. */
  lemma SomeArrival(file: Bytes, r: Receiver, number: u16) returns (a: Arrival)
    requires 0 !in r.packets && 1 <= number <= PacketCount(|file|)
    ensures a.number == number && a.writeOk && Possible(r, a)
    ensures Content(a.number, a.total, a.data) == ContentOf(file, number)
  {
    var order := SomeOrder(r.packets.Keys + {number});
    var c := ContentOf(file, number);
    a := Arrival(number, c.total, c.data, order, true);
  }

  // ----- Sender steps

  /** The state in which the sender has finished the pass it is in. */
  function PassSent(s: Net): Net
    requires s.sender.Some? && s.sender.value.Valid()
  {
    var x := s.sender.value;
    s.(sender := Some(x.(rangeSent := x.range.count, armed := true)),
       log := s.log + PacketRun(x.file, x.range.start + x.rangeSent, x.range.count - x.rangeSent))
  }

  lemma SendSome(file: Bytes, k: nat, s: Net) returns (t: Net)
    requires Joined(file, k, s) && s.sender.value.rangeSent < s.sender.value.range.count
    ensures Reaches(file, s, t) && Joined(file, k, t) && t.receiver == s.receiver
    ensures s.sender.value.rangeSent < t.sender.value.rangeSent && t.sender.value.range == s.sender.value.range
    ensures PassSent(t) == PassSent(s)
  {
    hide InvAt, Tick, PacketRun, PacketCount, Reaches;
    SenderTickHolds(file, k, s, true, false);
    TickSendsChunk(s.sender.value);
    OneStep(file, s, SenderTick(true, false));
    t := Next(file, s, SenderTick(true, false));
    ChunkThenRest(s, t);
  }

  lemma ChunkThenRest(s: Net, t: Net)
    requires s.sender.Some? && s.sender.value.Valid() && s.sender.value.rangeSent < s.sender.value.range.count
    requires t.sender.Some? && t.sender.value.Valid()
    requires var x := s.sender.value;
      var sent := Min(x.range.count - x.rangeSent, SEND_CHUNK);
      t == s.(sender := Some(x.(rangeSent := x.rangeSent + sent,
                                armed := x.rangeSent + sent == x.range.count || x.armed)),
              log := s.log + PacketRun(x.file, x.range.start + x.rangeSent, sent))
    ensures PassSent(t) == PassSent(s)
  {
    var x := s.sender.value;
    var sent := Min(x.range.count - x.rangeSent, SEND_CHUNK);
    var first, left := x.range.start + x.rangeSent, x.range.count - x.rangeSent;
    RunsJoin(x.file, first, sent, left - sent);
    Associate(s.log, PacketRun(x.file, first, sent), PacketRun(x.file, first + sent, left - sent));
  }

  /** The sender finishes the pass it is in. */
  lemma {:induction false} SendRest(file: Bytes, k: nat, s: Net) returns (t: Net)
    requires Joined(file, k, s)
    ensures Reaches(file, s, t) && Joined(file, k, t) && t == PassSent(s)
    decreases s.sender.value.range.count - s.sender.value.rangeSent
  {
    if s.sender.value.rangeSent == s.sender.value.range.count {
      Here(file, s);
      t := s;
      assert s.log + [] == s.log;
    } else {
      var u := SendSome(file, k, s);
      t := SendRest(file, k, u);
      Then(file, s, u, t);
    }
  }

  lemma RestCosts(s: Net)
    requires s.sender.Some? && s.sender.value.Valid()
    ensures Contents(PassSent(s)) == Contents(s) + s.sender.value.range.count - s.sender.value.rangeSent
  {
    hide PacketCount, PacketRun, Count;
    var x := s.sender.value;
    if x.rangeSent < x.range.count {
      RunIsContent(x.file, x.range.start + x.rangeSent, x.range.count - x.rangeSent, s.log);
    } else {
      assert s.log + [] == s.log;
    }
  }

  lemma Timeout(file: Bytes, k: nat, s: Net) returns (t: Net)
    requires Joined(file, k, s)
    requires s.sender.value.rangeSent == s.sender.value.range.count
    requires s.sender.value.retryCount < SENDER_RETRY_LIMIT
    ensures Reaches(file, s, t) && Joined(file, k, t)
    ensures t == s.(sender := Some(s.sender.value.(rangeSent := 0, armed := false,
                                                   retryCount := s.sender.value.retryCount + 1)))
  {
    SenderTickHolds(file, k, s, false, true);
    OneStep(file, s, SenderTick(false, true));
    t := Next(file, s, SenderTick(false, true));
    assert s.log + [] == s.log;
  }

  lemma TakeAck(file: Bytes, k: nat, s: Net) returns (t: Net)
    requires Live(file, k, s) && InWindow(s.receiver.value, k)
    requires Progress(s.receiver.value.range.value) in s.log
    ensures Reaches(file, s, t) && Aligned(file, k, t)
    ensures t.receiver == s.receiver && t.served == s.served && t.log == s.log
  {
    var range := s.receiver.value.range.value;
    AckNeedsNoClamp(file, k, s, range);
    var l := DeliverProgress(range);
    var k' := StepHolds(file, k, s, l);
    OneStep(file, s, l);
    t := Next(file, s, l);
  }

  // ----- Receiver steps

  /** What the first arrival of a packet of window `k` leads to: saved, in the next window, or one packet richer. */
  ghost predicate Richer(file: Bytes, k: nat, number: u16, r: Receiver, e: Effect) {
    var r' := e.receiver;
    if r'.outcome.Some? then
      r'.outcome.value == Saved && e.written == Some(Carried(file)) && e.sent == [Complete]
    else if Closes(LearnTotal(r, PacketCount(|file|)), k, number) then
      InWindow(r', k + 1) && e.sent == [Progress(r'.range.value)] && e.written.None?
    else
      InWindow(r', k) && r'.packets.Keys == r.packets.Keys + {number} && e.sent == [] && e.written.None?
  }

  lemma FreshIsRicher(file: Bytes, k: nat, r: Receiver, a: Arrival)
    requires r.outcome.None? && InWindow(r, k) && ReceiverLeads(file, k, r)
    requires Possible(r, a) && a.writeOk && InFile(file, a.number) && a.data == Slice(file, a.number)
    requires Fresh(r, a.number)
    ensures Richer(file, k, a.number, r, Receive(r, a))
  {
    if Completes(r, a.number) {
      LastPacketWritesFile(file, k, r, a);
    } else if Closes(r, k, a.number) {
      WindowEndIsHonest(file, k, r, a);
      ReceiveWindowEnd(r, k, a);
    } else {
      ReceiveMore(r, k, a);
    }
  }

  lemma FirstIsRicher(file: Bytes, k: nat, r: Receiver, a: Arrival)
    requires r.outcome.None? && ReceiverLeads(file, k, r) && Start(k) <= PacketCount(|file|)
    requires Possible(r, a) && a.writeOk && InFile(file, a.number) && a.data == Slice(file, a.number)
    requires a.total == PacketCount(|file|)
    requires Start(k) <= a.number <= End(k, PacketCount(|file|)) && a.number !in r.packets
    ensures Richer(file, k, a.number, r, Receive(r, a))
  {
    if NothingHeld(r) {
      ReceiveFirst(r, a);
      FreshIsRicher(file, k, LearnTotal(r, a.total), a);
    } else {
      FreshIsRicher(file, k, r, a);
    }
  }

  /** The receiver has finished window `k`: the file is saved, or the next window has been asked for. */
  ghost predicate SavedOrNext(file: Bytes, k: nat, t: Net) {
    && t.receiver.Some?
    && var r := t.receiver.value;
       if r.outcome.Some? then r.outcome.value == Saved && t.writes == [Carried(file)] && Complete in t.log
       else Live(file, k + 1, t) && InWindow(r, k + 1) && Progress(r.range.value) in t.log
  }

  /** The receiver is still in window `k` and holds one packet more. */
  ghost predicate OneMore(file: Bytes, k: nat, number: u16, s: Net, t: Net) {
    && Live(file, k, t) && s.receiver.Some?
    && t.receiver.value.packets.Keys == s.receiver.value.packets.Keys + {number}
  }

  /** Packet `number` of the receiver's window arrives for the first time. */
  lemma DeliverFresh(file: Bytes, k: nat, s: Net, number: u16) returns (t: Net)
    requires Live(file, k, s)
    requires Start(k) <= number <= End(k, PacketCount(|file|)) && number !in s.receiver.value.packets
    requires ContentOf(file, number) in s.log
    ensures Reaches(file, s, t)
    ensures t.sender == s.sender && t.served == s.served && s.log <= t.log && Contents(t) == Contents(s)
    ensures SavedOrNext(file, k, t) || OneMore(file, k, number, s, t)
  {
    var r := s.receiver.value;
    var a := SomeArrival(file, r, number);
    var k' := DeliverContentHolds(file, k, s, a);
    OneStep(file, s, DeliverContent(a));
    t := Next(file, s, DeliverContent(a));
    FirstIsRicher(file, k, r, a);
    hide Richer, InvAt, Possible, Reaches, Count, SavedOrNext, OneMore;
    Classify(file, k, number, s, Receive(r, a), k', t);
    RicherSendsNoContent(file, k, number, r, Receive(r, a));
    NoContentSent(s.log, Receive(r, a).sent);
  }

  lemma RicherSendsNoContent(file: Bytes, k: nat, number: u16, r: Receiver, e: Effect)
    requires Richer(file, k, number, r, e)
    ensures forall d <- e.sent :: !d.Content?
  {
  }

  lemma Classify(file: Bytes, k: nat, number: u16, s: Net, e: Effect, k': nat, t: Net)
    requires Live(file, k, s)
    requires t == AfterEffect(s, e) && InvAt(file, k', t) && Richer(file, k, number, s.receiver.value, e)
    ensures SavedOrNext(file, k, t) || OneMore(file, k, number, s, t)
  {
    hide Sendable, SenderFollows, ReceiverLeads, Closes;
    if e.receiver.outcome.Some? {
      assert t.log[|s.log|] == Complete;
    } else if Closes(LearnTotal(s.receiver.value, PacketCount(|file|)), k, number) {
      NowIn(file, k', k + 1, t);
      assert t.log[|s.log|] == Progress(e.receiver.range.value);
    } else {
      NowIn(file, k', k, t);
    }
  }

  /** All packets of the window are on the network: the receiver takes what it misses and saves or moves on. */
  lemma {:induction false} DeliverWindow(file: Bytes, k: nat, s: Net, missing: set<u16>) returns (t: Net)
    requires Live(file, k, s)
    requires forall p: u16 :: Start(k) <= p <= End(k, PacketCount(|file|)) ==> ContentOf(file, p) in s.log
    requires forall p: u16 :: p in missing <==>
      Start(k) <= p <= End(k, PacketCount(|file|)) && p !in s.receiver.value.packets
    ensures Reaches(file, s, t) && t.sender == s.sender && t.served == s.served
    ensures SavedOrNext(file, k, t) && Contents(t) == Contents(s)
    decreases missing
  {
    SomethingMissing(file, k, s.receiver.value);
    var number: u16 :| number in missing;
    t := DeliverFresh(file, k, s, number);
    if !SavedOrNext(file, k, t) {
      var u := t;
      t := DeliverWindow(file, k, u, missing - {number});
      Then(file, s, u, t);
    }
  }

  lemma DeliverAll(file: Bytes, k: nat, s: Net) returns (t: Net)
    requires Live(file, k, s)
    requires forall p: u16 :: Start(k) <= p <= End(k, PacketCount(|file|)) ==> ContentOf(file, p) in s.log
    ensures Reaches(file, s, t) && t.sender == s.sender && t.served == s.served
    ensures SavedOrNext(file, k, t) && Contents(t) == Contents(s)
  {
    t := DeliverWindow(file, k, s, Window(k, PacketCount(|file|)) - s.receiver.value.packets.Keys);
  }

  lemma SomethingMissing(file: Bytes, k: nat, r: Receiver)
    requires r.outcome.None? && ReceiverLeads(file, k, r)
    requires Start(k) <= PacketCount(|file|)
    ensures exists p: u16 :: Start(k) <= p <= End(k, PacketCount(|file|)) && p !in r.packets
  {
    if !InWindow(r, k) {
      var first: u16 := Start(k);
      assert first !in r.packets;
    }
  }

  function Window(k: nat, n: u16): (s: set<u16>)
    requires Start(k) <= n
    ensures forall p: u16 :: p in s <==> Start(k) <= p <= End(k, n)
  {
    UpTo(End(k, n)) - UpTo(Start(k) - 1)
  }

  // ----- Putting the steps together

  /**
   A sender behind the receiver is brought up by a nudge, one that is level starts its pass again:
   at the cost of at most the rest of one pass over the sender's range.
   */
  lemma Realign(file: Bytes, k: nat, s: Net) returns (t: Net)
    requires Live(file, k, s) && s.sender.value.retryCount < SENDER_RETRY_LIMIT
    ensures Reaches(file, s, t) && Aligned(file, k, t) && t.served == s.served && t.receiver == s.receiver
    ensures Contents(t) <= Contents(s) + s.sender.value.range.count
  {
    var x := s.sender.value;
    var i: nat :| i <= k && IsWindow(x.range, i, x.total);
    if i < k {
      t := CatchUp(file, i, k, s);
    } else if x.rangeSent > 0 {
      var rest := SendRest(file, k, s);
      RestCosts(s);
      t := Timeout(file, k, rest);
      Then(file, s, rest, t);
    } else {
      Here(file, s);
      t := s;
    }
  }

  lemma CatchUp(file: Bytes, i: nat, k: nat, s: Net) returns (t: Net)
    requires Live(file, k, s) && i < k && s.sender.value.retryCount < SENDER_RETRY_LIMIT
    requires IsWindow(s.sender.value.range, i, PacketCount(|file|))
    ensures Reaches(file, s, t) && Aligned(file, k, t) && t.served == s.served && t.receiver == s.receiver
    ensures Contents(t) <= Contents(s) + s.sender.value.range.count
  {
    var u := s;
    Here(file, s);
    if s.sender.value.rangeSent == s.sender.value.range.count {
      u := Timeout(file, k, s);
    }
    var v := Nudge(file, i, k, u);
    Then(file, s, u, v);
    t := TakeAck(file, k, v);
    Then(file, s, v, t);
  }

  /** The sender goes on with its pass, and the first packet of it makes the receiver state its window. */
  lemma Nudge(file: Bytes, i: nat, k: nat, s: Net) returns (t: Net)
    requires Live(file, k, s) && i < k
    requires IsWindow(s.sender.value.range, i, PacketCount(|file|))
    requires s.sender.value.rangeSent < s.sender.value.range.count
    ensures Reaches(file, s, t) && Live(file, k, t) && InWindow(t.receiver.value, k)
    ensures t.receiver == s.receiver && t.served == s.served
    ensures Progress(t.receiver.value.range.value) in t.log
    ensures Contents(t) <= Contents(s) + s.sender.value.range.count
  {
    hide Reaches, Contents, PacketRun, PacketCount, Sendable, ReceiverLeads;
    var x := s.sender.value;
    var u := SendRest(file, k, s);
    RestCosts(s);
    StartMonotone(i, k);
    var first: u16 := x.range.start + x.rangeSent;
    RunHasPacket(file, first, x.range.count - x.rangeSent, first);
    t := StrayNudges(file, k, u, first);
    Then(file, s, u, t);
  }

  /** A packet from below the receiver's window arrives. */
  lemma StrayNudges(file: Bytes, k: nat, s: Net, number: u16) returns (t: Net)
    requires Live(file, k, s) && 1 <= number < Start(k) && ContentOf(file, number) in s.log
    ensures Reaches(file, s, t) && Live(file, k, t) && InWindow(t.receiver.value, k)
    ensures t.receiver == s.receiver && t.served == s.served && Contents(t) == Contents(s)
    ensures Progress(t.receiver.value.range.value) in t.log
  {
    var r := s.receiver.value;
    var a := SomeArrival(file, r, number);
    var l := DeliverContent(a);
    assert Enabled(s, l);
    ReceiveStale(r, k, a);
    var k' := DeliverContentHolds(file, k, s, a);
    OneStep(file, s, l);
    t := Next(file, s, l);
    WindowIsUnique(r, k', k);
    NoContentSent(s.log, Receive(r, a).sent);
    assert t.log[|s.log|] == Progress(r.range.value);
  }

  /** The whole window of an aligned sender is put on the network. */
  lemma SendWindow(file: Bytes, k: nat, s: Net) returns (t: Net)
    requires Aligned(file, k, s)
    ensures Reaches(file, s, t) && Live(file, k, t)
    ensures t.receiver == s.receiver && t.served == s.served
    ensures forall p: u16 :: Start(k) <= p <= End(k, PacketCount(|file|)) ==> ContentOf(file, p) in t.log
    ensures Contents(t) == Contents(s) + End(k, PacketCount(|file|)) - Start(k) + 1
  {
    hide Contents, Reaches, PacketRun, PacketCount, Sendable, ReceiverLeads, Start, End;
    t := SendRest(file, k, s);
    RestCosts(s);
    var x := s.sender.value;
    forall p: u16 | Start(k) <= p <= End(k, PacketCount(|file|))
      ensures ContentOf(file, p) in t.log
    {
      RunHasPacket(file, x.range.start, x.range.count, p);
    }
  }

  lemma RunHasPacket(file: Bytes, first: nat, count: nat, p: u16)
    requires 1 <= first <= p < first + count && first + count - 1 <= PacketCount(|file|)
    ensures ContentOf(file, p) in PacketRun(file, first, count)
  {
    assert PacketRun(file, first, count)[p - first] == ContentOf(file, p);
  }

  /** One pass over the receiver's window finishes the transfer or aligns the machines on the next window. */
  lemma FinishWindow(file: Bytes, k: nat, s: Net) returns (t: Net)
    requires Aligned(file, k, s)
    ensures Reaches(file, s, t)
    ensures if t.sender.None? then Done(file, t) && t.served == s.served + 1
            else Aligned(file, k + 1, t) && t.served == s.served && InWindow(t.receiver.value, k + 1)
    ensures Contents(t) == Contents(s) + End(k, PacketCount(|file|)) - Start(k) + 1
  {
    var u := SendWindow(file, k, s);
    var v := DeliverAll(file, k, u);
    Then(file, s, u, v);
    if v.receiver.value.outcome.Some? {
      t := TakeComplete(file, v);
    } else {
      t := TakeAck(file, k + 1, v);
    }
    Then(file, s, v, t);
  }

  lemma TakeComplete(file: Bytes, s: Net) returns (t: Net)
    requires s.sender.Some? && Complete in s.log
    ensures Reaches(file, s, t) && t == s.(sender := None, served := s.served + 1)
  {
    OneStep(file, s, DeliverComplete);
    t := Next(file, s, DeliverComplete);
  }

  lemma {:induction false} FinishAligned(file: Bytes, k: nat, s: Net) returns (t: Net)
    requires Aligned(file, k, s)
    ensures Reaches(file, s, t) && Done(file, t) && t.served == s.served + 1
    ensures Contents(t) <= Contents(s) + PacketCount(|file|) - Start(k) + 1
    decreases WindowCount(PacketCount(|file|)) - k
  {
    hide Aligned, Done, Reaches, Contents;
    t := FinishWindow(file, k, s);
    AlignedIsInFile(file, k, s);
    if t.sender.Some? {
      var u := t;
      AlignedIsInFile(file, k + 1, u);
      t := FinishAligned(file, k + 1, u);
      Then(file, s, u, t);
    }
  }

  lemma AlignedIsInFile(file: Bytes, k: nat, s: Net)
    requires Aligned(file, k, s)
    ensures k < WindowCount(PacketCount(|file|)) && End(k, PacketCount(|file|)) <= PacketCount(|file|)
    ensures k > 0 ==> End(k - 1, PacketCount(|file|)) + 1 == Start(k)
  {
    WindowsTile(k, PacketCount(|file|));
    if k > 0 {
      WindowsTile(k - 1, PacketCount(|file|));
    }
  }

  /** Everything that was on the network is gone. */
  function Lost(s: Net): Net {
    s.(log := [])
  }

  /** The states from which the transfer can go on: the sender lives with a retry left and the receiver has no outcome. */
  ghost predicate Unfinished(s: Net) {
    && s.sender.Some? && s.sender.value.retryCount < SENDER_RETRY_LIMIT
    && s.receiver.Some? && s.receiver.value.outcome.None?
  }

  lemma LostIsLive(file: Bytes, labels: seq<Label>) returns (k: nat)
    requires Legal(file, Init(), labels) && Unfinished(After(file, Init(), labels))
    ensures Live(file, k, Lost(After(file, Init(), labels)))
  {
    InitHolds(file);
    RunHolds(file, Init(), labels);
    k :| InvAt(file, k, After(file, Init(), labels));
  }

  lemma WindowIsSmall(range: Range, i: nat, n: u16)
    requires IsWindow(range, i, n)
    ensures range.count <= MAX_WINDOW && End(i, n) - Start(i) + 1 <= MAX_WINDOW
  {
  }

  /** A receiver in window k + 1 holds strictly more than one that has not finished window k. */
  lemma NextHoldsMore(file: Bytes, k: nat, r: Receiver, r': Receiver)
    requires r.outcome.None? && ReceiverLeads(file, k, r) && Start(k) <= PacketCount(|file|)
    requires ReceiverLeads(file, k + 1, r') && InWindow(r', k + 1)
    ensures r.packets.Keys < r'.packets.Keys
  {
    var n := PacketCount(|file|);
    SomethingMissing(file, k, r);
    var p: u16 :| Start(k) <= p <= End(k, n) && p !in r.packets;
    WindowsTile(k, n);
    WindowsTile(k + 1, n);
    assert p in r'.packets;
  }

  /**
   Progress: in every reachable unfinished state, with everything on the network lost, at most two
   window passes of content packets, one of the sender's range and one of the receiver's, get the
   transfer finished or the receiver strictly more packets.
   */
  lemma MoreWithinTwoPasses(file: Bytes, labels: seq<Label>) returns (t: Net)
    requires Legal(file, Init(), labels) && Unfinished(After(file, Init(), labels))
    ensures var s := After(file, Init(), labels);
      && Reaches(file, Lost(s), t) && Contents(t) <= 2 * MAX_WINDOW
      && (Done(file, t) ||
          (t.receiver.Some? && s.receiver.value.packets.Keys < t.receiver.value.packets.Keys && t.sender.Some?))
  {
    var k := LostIsLive(file, labels);
    var s := Lost(After(file, Init(), labels));
    var i: nat :| i <= k && IsWindow(s.sender.value.range, i, s.sender.value.total);
    WindowIsSmall(s.sender.value.range, i, s.sender.value.total);
    var u := Realign(file, k, s);
    WindowIsSmall(u.sender.value.range, k, PacketCount(|file|));
    t := FinishWindow(file, k, u);
    Then(file, s, u, t);
    if t.sender.Some? {
      NextHoldsMore(file, k, s.receiver.value, t.receiver.value);
    }
  }

  /**
   Every unfinished transfer can be finished: some continuation that loses none of the datagrams it
   sends saves the file, frees the sender and records one `Served`. It costs one pass over the
   sender's range and no packet of the file more than once after that.
   */
  lemma CanAlwaysFinish(file: Bytes, labels: seq<Label>) returns (t: Net)
    requires Legal(file, Init(), labels) && Unfinished(After(file, Init(), labels))
    ensures var s := After(file, Init(), labels);
      && Reaches(file, Lost(s), t) && Done(file, t) && t.served == s.served + 1
      && Contents(t) <= MAX_WINDOW + PacketCount(|file|)
  {
    var k := LostIsLive(file, labels);
    var s := Lost(After(file, Init(), labels));
    var i: nat :| i <= k && IsWindow(s.sender.value.range, i, s.sender.value.total);
    WindowIsSmall(s.sender.value.range, i, s.sender.value.total);
    var u := Realign(file, k, s);
    t := FinishAligned(file, k, u);
    Then(file, s, u, t);
  }

  // ----- The last ACK is lost

  /** The receiver has saved the file, and the sender has not heard of it. */
  ghost predicate Unheard(s: Net) {
    && s.sender.Some? && s.sender.value.retryCount < SENDER_RETRY_LIMIT
    && s.receiver.Some? && s.receiver.value.outcome == Some(Saved)
  }

  /** A packet that arrives after the file is saved makes the receiver repeat its COMPLETE. */
  lemma SavedRepeatsComplete(file: Bytes, k: nat, s: Net, number: u16) returns (t: Net)
    requires Joined(file, k, s) && s.receiver.value.outcome == Some(Saved)
    requires 1 <= number <= PacketCount(|file|) && ContentOf(file, number) in s.log
    ensures Reaches(file, s, t) && Complete in t.log && Contents(t) == Contents(s)
    ensures t.sender == s.sender && t.receiver == s.receiver && t.served == s.served
  {
    var a := SomeArrival(file, s.receiver.value, number);
    var l := DeliverContent(a);
    OneStep(file, s, l);
    t := Next(file, s, l);
    assert t.log == s.log + [Complete];
    NoContentSent(s.log, [Complete]);
    assert t.log[|s.log|] == Complete;
  }

  /** The sender goes on with its pass, from a state in which there is something left of it. */
  lemma PassGoesOn(file: Bytes, k: nat, s: Net) returns (t: Net, number: u16)
    requires Joined(file, k, s) && s.sender.value.rangeSent < s.sender.value.range.count
    ensures Reaches(file, s, t) && Joined(file, k, t) && t.receiver == s.receiver && t.served == s.served
    ensures 1 <= number <= PacketCount(|file|) && ContentOf(file, number) in t.log
    ensures Contents(t) <= Contents(s) + s.sender.value.range.count
  {
    hide Reaches, Contents, PacketRun, PacketCount, Sendable, ReceiverLeads;
    var x := s.sender.value;
    t := SendRest(file, k, s);
    RestCosts(s);
    number := x.range.start + x.rangeSent;
    RunHasPacket(file, number, x.range.count - x.rangeSent, number);
  }

  /**
   A lost final ACK is made good: in every reachable state in which the file is saved and the sender
   lives with a retry left, with everything on the network lost, one pass over the sender's range
   gets the sender freed and one more `Served` recorded.
   */
  lemma LostCompleteIsRepeated(file: Bytes, labels: seq<Label>) returns (t: Net)
    requires Legal(file, Init(), labels) && Unheard(After(file, Init(), labels))
    ensures var s := After(file, Init(), labels);
      && Reaches(file, Lost(s), t) && t.sender.None? && t.receiver == s.receiver && t.served == s.served + 1
      && Contents(t) <= s.sender.value.range.count
  {
    hide Reaches, Contents;
    InitHolds(file);
    RunHolds(file, Init(), labels);
    var reached := After(file, Init(), labels);
    var k: nat :| InvAt(file, k, reached);
    var s := Lost(reached);
    RangeIsNotEmpty(file, k, s);
    var u := s;
    Here(file, s);
    if s.sender.value.rangeSent == s.sender.value.range.count {
      u := Timeout(file, k, s);
      SameLog(s, u);
    }
    var v, number := PassGoesOn(file, k, u);
    Then(file, s, u, v);
    var w := SavedRepeatsComplete(file, k, v, number);
    Then(file, s, v, w);
    t := TakeComplete(file, w);
    Then(file, s, w, t);
    SameLog(w, t);
    NothingCounted(s);
  }

  lemma SameLog(s: Net, t: Net)
    requires s.log == t.log
    ensures Contents(s) == Contents(t)
  {
  }

  lemma NothingCounted(s: Net)
    requires s.log == []
    ensures Contents(s) == 0
  {
  }

  lemma RangeIsNotEmpty(file: Bytes, k: nat, s: Net)
    requires InvAt(file, k, s) && s.sender.Some?
    ensures s.sender.value.range.count >= 1 && s.sender.value.rangeSent <= s.sender.value.range.count
  {
    var i: nat :| i <= k && IsWindow(s.sender.value.range, i, s.sender.value.total);
    WindowIsNotEmpty(s.sender.value.range, i, s.sender.value.total);
  }
}
