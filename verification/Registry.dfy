/**
 `TransferRegistry`: all transfers of one node, by transfer id.

 The registry holds the senders and receivers as values of the two machines; what one
 call does is a function on `Reg`, and the class takes exactly those steps.
 */
module Registry {
  import opened Prelude
  import opened Text
  import opened Segments
  import opened WindowSchedule
  import opened SenderMachine
  import opened ReceiverMachine
  import opened ReceiverLaws
  import Assembly
  import Scheduler
  import Codec

  type Addr = Codec.SocketAddr

  datatype Serving = Serving(sender: Sender, remote: Addr)

  datatype Pulling = Pulling(receiver: Receiver, name: string, remote: Addr)

  datatype Event = ServedTo(src: Addr, bytes: nat) | NotFoundFor(src: Addr) | SenderFailed(src: Addr)

  /** A datagram of one transfer; a request also names the segment. */
  datatype Packet = Ask(id: u16, name: string) | Carry(id: u16, body: Datagram)

  datatype Reg = Reg(senders: map<u16, Serving>, receivers: map<u16, Pulling>, events: seq<Event>)

  /** What one call does: the new registry, the datagrams sent, and the file renamed into place if any. */
  datatype Outcome = Outcome(reg: Reg, sent: seq<Packet>, written: Option<Bytes>)

  function ActiveCount(reg: Reg): nat {
    |reg.senders| + |reg.receivers|
  }

  function Wrap(id: u16, name: string, d: Datagram): Packet {
    if d == Request then Ask(id, name) else Carry(id, d)
  }

  function WrapAll(id: u16, name: string, sent: seq<Datagram>): (r: seq<Packet>)
    ensures |r| == |sent|
    ensures forall i :: 0 <= i < |r| ==> r[i] == Wrap(id, name, sent[i])
  {
    seq(|sent|, i requires 0 <= i < |sent| => Wrap(id, name, sent[i]))
  }

  // ----- Serving

  function Reject(reg: Reg, id: u16, src: Addr, retryable: bool): Outcome {
    Outcome(reg.(events := reg.events + [NotFoundFor(src)]), [Carry(id, NotFound(retryable))], None)
  }

  /** A request is refused for an invalid name, a full registry, or a file that cannot be read. */
  predicate Refuses(reg: Reg, files: map<string, Bytes>, name: string) {
    !ValidFilename(name) || ActiveCount(reg) >= Scheduler.MAX_CONCURRENT_TRANSFERS || name !in files
  }

  function Serve(reg: Reg, files: map<string, Bytes>, id: u16, name: string, src: Addr): Outcome {
    if Refuses(reg, files, name) then Reject(reg, id, src, false)
    else Outcome(reg.(senders := reg.senders[id := Serving(NewSender(files[name]), src)]), [], None)
  }

  function AckArrives(reg: Reg, id: u16, ack: Datagram): Outcome
    requires ack.Progress? || ack.Complete?
    requires id in reg.senders ==> reg.senders[id].sender.Valid()
  {
    if id !in reg.senders then Outcome(reg, [], None)
    else
      var s := reg.senders[id];
      if ack.Complete? then
        Outcome(reg.(senders := reg.senders - {id},
                     events := reg.events + [ServedTo(s.remote, |s.sender.file|)]), [], None)
      else
        Outcome(reg.(senders := reg.senders[id := s.(sender := OnProgress(s.sender, ack.range))]), [], None)
  }

  function TickSender(reg: Reg, id: u16, sendDue: bool, ackDue: bool): Outcome
    requires id in reg.senders && reg.senders[id].sender.Valid()
  {
    var s := reg.senders[id];
    var t := Tick(s.sender, sendDue, ackDue);
    if t.failed then
      Outcome(reg.(senders := reg.senders - {id}, events := reg.events + [SenderFailed(s.remote)]),
              WrapAll(id, "", t.sent), None)
    else
      Outcome(reg.(senders := reg.senders[id := s.(sender := t.sender)]), WrapAll(id, "", t.sent), None)
  }

  // ----- Pulling

  function StartReceiver(reg: Reg, id: u16, name: string, remote: Addr): Outcome {
    Outcome(reg.(receivers := reg.receivers[id := Pulling(NewReceiver(), name, remote)]), [Ask(id, name)], None)
  }

  function AfterEffect(reg: Reg, id: u16, e: Effect): Outcome
    requires id in reg.receivers
  {
    var p := reg.receivers[id];
    Outcome(reg.(receivers := reg.receivers[id := p.(receiver := e.receiver)]),
            WrapAll(id, p.name, e.sent), e.written)
  }

  function ContentArrives(reg: Reg, id: u16, a: Arrival): Outcome
    requires id in reg.receivers && a.number >= 1 ==>
      Assembly.Copyable(a.order, reg.receivers[id].receiver.packets[a.number := a.data])
  {
    if id !in reg.receivers then Outcome(reg, [], None)
    else AfterEffect(reg, id, Receive(reg.receivers[id].receiver, a))
  }

  function NotFoundArrives(reg: Reg, id: u16, retryable: bool): Outcome {
    if id !in reg.receivers then Outcome(reg, [], None)
    else
      var p := reg.receivers[id];
      Outcome(reg.(receivers := reg.receivers[id := p.(receiver := ReceiverMachine.OnNotFound(p.receiver, retryable))]),
              [], None)
  }

  function TickReceiver(reg: Reg, id: u16, halfway: bool, firstExpired: bool, quiet: bool): Outcome
    requires id in reg.receivers
  {
    AfterEffect(reg, id, OnTick(reg.receivers[id].receiver, halfway, firstExpired, quiet))
  }

  function Drop(reg: Reg, id: u16): Outcome {
    Outcome(reg.(receivers := reg.receivers - {id}), [], None)
  }

  // ----- What each call comes to

  /**
   A request is served exactly if the name is valid, fewer than 32 transfers are active and the file
   exists: a new sender for that file and that peer stands under its id, and nothing is sent. Every
   other request is answered NOT_FOUND and changes no transfer.
   */
  lemma ServesExactly(reg: Reg, files: map<string, Bytes>, id: u16, name: string, src: Addr)
    ensures var o, active := Serve(reg, files, id, name, src), |reg.senders| + |reg.receivers|;
      if ValidFilename(name) && active < 32 && name in files then
        && o.reg.senders == reg.senders[id := Serving(NewSender(files[name]), src)] && o.sent == []
        && o.reg.receivers == reg.receivers && o.reg.events == reg.events && o.written == None
      else
        && o.reg == reg.(events := reg.events + [NotFoundFor(src)])
        && o.sent == [Carry(id, NotFound(false))] && o.written == None
  {
  }

  /** A policy refusal is answered like a missing file, and says whether to come back. */
  lemma RejectionIsAnswered(reg: Reg, id: u16, src: Addr, retryable: bool)
    ensures var o := Reject(reg, id, src, retryable);
      && o.reg.senders == reg.senders && o.reg.receivers == reg.receivers
      && o.reg.events == reg.events + [NotFoundFor(src)] && o.sent == [Carry(id, NotFound(retryable))]
  {
  }

  /** COMPLETE frees the sender of its id and is recorded with its peer and the size of its file; Progress only moves it. */
  lemma AckEndsOrMoves(reg: Reg, id: u16, ack: Datagram)
    requires ack.Progress? || ack.Complete?
    requires id in reg.senders && reg.senders[id].sender.Valid()
    ensures var o, s := AckArrives(reg, id, ack), reg.senders[id];
      && o.sent == [] && o.reg.receivers == reg.receivers
      && if ack.Complete? then
           o.reg.senders == reg.senders - {id} && o.reg.events == reg.events + [ServedTo(s.remote, |s.sender.file|)]
         else
           o.reg.senders == reg.senders[id := Serving(OnProgress(s.sender, ack.range), s.remote)]
           && o.reg.events == reg.events
  {
  }

  // ----- One tick of the whole registry

  /** Which of a transfer's deadlines have passed. */
  datatype Timers = Timers(sendDue: bool, ackDue: bool, halfway: bool, firstExpired: bool, quiet: bool, graceOver: bool)

  predicate CanTick(reg: Reg, order: seq<u16>) {
    Distinct(order) && forall id <- order :: id in reg.senders && reg.senders[id].sender.Valid()
  }

  /** Ticking the senders one after another; none of them touches another's entry. */
  function TickSenders(reg: Reg, order: seq<u16>, timers: u16 -> Timers): (o: Outcome)
    requires CanTick(reg, order)
    ensures forall id <- reg.senders :: id !in order ==> id in o.reg.senders && o.reg.senders[id] == reg.senders[id]
    ensures o.reg.senders.Keys <= reg.senders.Keys && o.reg.receivers == reg.receivers
  {
    if order == [] then Outcome(reg, [], None)
    else
      var front, last := order[..|order| - 1], order[|order| - 1];
      var before := TickSenders(reg, front, timers);
      assert last !in front && last in order;
      var after := TickSender(before.reg, last, timers(last).sendDue, timers(last).ackDue);
      Outcome(after.reg, before.sent + after.sent, None)
  }

  /** An unfinished receiver ticks; a finished one is dropped once its grace period is over. */
  function TickOrDrop(reg: Reg, id: u16, t: Timers): Outcome
    requires id in reg.receivers
  {
    if reg.receivers[id].receiver.outcome.None? then TickReceiver(reg, id, t.halfway, t.firstExpired, t.quiet)
    else if t.graceOver then Drop(reg, id)
    else Outcome(reg, [], None)
  }

  predicate CanTickReceivers(reg: Reg, order: seq<u16>) {
    Distinct(order) && forall id <- order :: id in reg.receivers
  }

  function TickReceivers(reg: Reg, order: seq<u16>, timers: u16 -> Timers): (o: Outcome)
    requires CanTickReceivers(reg, order)
    ensures forall id <- reg.receivers :: id !in order ==> id in o.reg.receivers && o.reg.receivers[id] == reg.receivers[id]
    ensures o.reg.receivers.Keys <= reg.receivers.Keys && o.reg.senders == reg.senders
  {
    if order == [] then Outcome(reg, [], None)
    else
      var front, last := order[..|order| - 1], order[|order| - 1];
      var before := TickReceivers(reg, front, timers);
      assert last !in front && last in order;
      var after := TickOrDrop(before.reg, last, timers(last));
      Outcome(after.reg, before.sent + after.sent, None)
  }

  lemma TickSenderMeans(reg: Reg, id: u16, sendDue: bool, ackDue: bool)
    requires id in reg.senders && reg.senders[id].sender.Valid()
    ensures var s, o := reg.senders[id], TickSender(reg, id, sendDue, ackDue);
      var t := Tick(s.sender, sendDue, ackDue);
      && o.sent == WrapAll(id, "", t.sent) && o.reg.receivers == reg.receivers
      && o.reg.senders == (if t.failed then reg.senders - {id} else reg.senders[id := s.(sender := t.sender)])
      && o.reg.events == if t.failed then reg.events + [SenderFailed(s.remote)] else reg.events
  {
  }

  lemma TicksNext(reg: Reg, order: seq<u16>, done: set<u16>, id: u16, timers: u16 -> Timers)
    requires Enumerates(order, done) && id !in done && id in reg.senders && reg.senders[id].sender.Valid()
    requires forall other <- done :: other in reg.senders && reg.senders[other].sender.Valid()
    ensures Enumerates(order + [id], done + {id})
    ensures CanTick(reg, order) && CanTick(reg, order + [id])
    ensures var before, after := TickSenders(reg, order, timers), TickSenders(reg, order + [id], timers);
      && id in before.reg.senders && before.reg.senders[id] == reg.senders[id] && before.reg.receivers == reg.receivers
      && after.reg == TickSender(before.reg, id, timers(id).sendDue, timers(id).ackDue).reg
      && after.sent == before.sent + TickSender(before.reg, id, timers(id).sendDue, timers(id).ackDue).sent
      && after.written == before.written
  {
    hide TickSender;
    assert (order + [id])[..|order|] == order;
    assert forall other :: other in order + [id] <==> other in order || other == id;
  }

  lemma TickOrDropMeans(reg: Reg, id: u16, t: Timers)
    requires id in reg.receivers
    ensures var p, o := reg.receivers[id], TickOrDrop(reg, id, t);
      var e := OnTick(p.receiver, t.halfway, t.firstExpired, t.quiet);
      && o.reg.senders == reg.senders && o.reg.events == reg.events
      && if p.receiver.outcome.None? then
           o.sent == WrapAll(id, p.name, e.sent) && o.reg.receivers == reg.receivers[id := p.(receiver := e.receiver)]
         else
           o.sent == [] && o.reg.receivers == if t.graceOver then reg.receivers - {id} else reg.receivers
  {
  }

  lemma ReceiverTicksNext(reg: Reg, order: seq<u16>, done: set<u16>, id: u16, timers: u16 -> Timers)
    requires Enumerates(order, done) && id !in done && id in reg.receivers
    requires forall other <- done :: other in reg.receivers
    ensures Enumerates(order + [id], done + {id})
    ensures CanTickReceivers(reg, order) && CanTickReceivers(reg, order + [id])
    ensures var before, after := TickReceivers(reg, order, timers), TickReceivers(reg, order + [id], timers);
      && id in before.reg.receivers && before.reg.receivers[id] == reg.receivers[id]
      && after.reg == TickOrDrop(before.reg, id, timers(id)).reg
      && after.sent == before.sent + TickOrDrop(before.reg, id, timers(id)).sent
      && after.written == before.written
  {
    hide TickOrDrop;
    assert (order + [id])[..|order|] == order;
    assert forall other :: other in order + [id] <==> other in order || other == id;
  }

  lemma ReceiverTicksNone(reg: Reg, timers: u16 -> Timers)
    ensures CanTickReceivers(reg, []) && TickReceivers(reg, [], timers) == Outcome(reg, [], None)
    ensures Enumerates([], reg.receivers.Keys - reg.receivers.Keys)
    ensures Mirrors(reg.receivers, reg.receivers, {})
  {
  }

  lemma TicksNone(reg: Reg, timers: u16 -> Timers)
    ensures CanTick(reg, []) && TickSenders(reg, [], timers) == Outcome(reg, [], None)
    ensures Enumerates([], reg.senders.Keys - reg.senders.Keys)
    ensures Mirrors(reg.senders, reg.senders, {})
  {
  }

  /** `live` is `all` without the entries that are still to be removed. */
  predicate Mirrors<V(==)>(live: map<u16, V>, all: map<u16, V>, expired: set<u16>) {
    && (forall id <- all :: id !in expired <==> id in live)
    && (forall id <- live :: id in all && live[id] == all[id])
    && expired <= all.Keys
  }

  lemma MirrorsNext<V>(live: map<u16, V>, all: map<u16, V>, expired: set<u16>, id: u16, v: V)
    requires Mirrors(live, all, expired) && id in all
    ensures Mirrors(live - {id}, all, expired + {id})
    ensures id !in expired ==> Mirrors(live[id := v], all[id := v], expired)
  {
  }

  lemma MirrorsEnd<V>(live: map<u16, V>, all: map<u16, V>, expired: set<u16>)
    requires Mirrors(live, all, expired)
    ensures all - expired == live
  {
  }

  // ----- What the scheduler is told about a receiver

  /** `schedule_jobs` looks at the outcome first, then at the three flags in this order. */
  function VerdictOf(r: Receiver): Option<Scheduler.Verdict> {
    if r.outcome.None? then None
    else if r.outcome.value == ReceiverMachine.Saved then Some(Scheduler.Saved)
    else Some(if r.unresponsive then Scheduler.Silent else if r.retryableNotFound then Scheduler.NotReady
              else if r.notFound then Scheduler.Missing else Scheduler.Broken)
  }

  predicate SilentIsEmpty(r: Receiver) {
    r.unresponsive ==> r.packets == map[] && r.outcome.Some?
  }

  lemma ContentKeepsFlag(r: Receiver, a: Arrival)
    requires Possible(r, a)
    ensures Receive(r, a).receiver.unresponsive == r.unresponsive
    ensures r.outcome.Some? ==> Receive(r, a).receiver == r
  {
    hide Receive, Finish, Advance, LearnTotal, Possible;
    ContentCases(r, a);
    var learnt := LearnTotal(r, a.total);
    if a.number >= 1 {
      var held := learnt.(packets := learnt.packets[a.number := a.data]);
      FinishKeepsFlag(held, a.order, a.writeOk);
      if learnt.range.Some? && learnt.total.Some? {
        AdvanceKeepsFlag(held, learnt.range.value, learnt.total.value, a.order, a.writeOk);
      }
    }
  }

  lemma FinishKeepsFlag(r: Receiver, order: seq<u16>, writeOk: bool)
    requires Assembly.Copyable(order, r.packets)
    ensures Finish(r, order, writeOk).receiver.unresponsive == r.unresponsive
  {
  }

  lemma AdvanceKeepsFlag(r: Receiver, range: Range, n: u16, order: seq<u16>, writeOk: bool)
    requires Assembly.Copyable(order, r.packets)
    ensures Advance(r, range, n, order, writeOk).receiver.unresponsive == r.unresponsive
  {
  }

  lemma SilentStep(r: Receiver, i: Input)
    requires InputPossible(r, i) && SilentIsEmpty(r)
    ensures SilentIsEmpty(Feed(r, i).receiver)
  {
    hide Receive, Possible, RangeComplete;
    match i
    case Packet(a) => ContentKeepsFlag(r, a);
    case _ =>
  }

  /** A source is counted as silent only if it never delivered a packet the receiver could use. */
  lemma {:induction false} SilentMeansNoPacket(inputs: seq<Input>)
    requires RunPossible(inputs)
    ensures var h := Run(inputs);
      && SilentIsEmpty(h.receiver)
      && (VerdictOf(h.receiver) == Some(Scheduler.Silent) ==> h.receiver.packets == map[])
    decreases |inputs|
  {
    hide Feed;
    if inputs != [] {
      SilentMeansNoPacket(inputs[..|inputs| - 1]);
      SilentStep(Run(inputs[..|inputs| - 1]).receiver, inputs[|inputs| - 1]);
    }
  }

  // ----- The class

  class TransferRegistry {
    const files: map<string, Bytes>
    var senders: map<u16, Serving>
    var receivers: map<u16, Pulling>
    var events: seq<Event>

    function State(): Reg
      reads this
    {
      Reg(senders, receivers, events)
    }

    constructor (files: map<string, Bytes>)
      ensures State() == Reg(map[], map[], []) && this.files == files
    {
      this.files := files;
      senders, receivers, events := map[], map[], [];
    }

    method FreshId() returns (id: u16)
      requires ActiveCount(State()) < Scheduler.MAX_CONCURRENT_TRANSFERS
      ensures id != 0 && id !in senders && id !in receivers
    {
      var used := senders.Keys + receivers.Keys;
      Scheduler.SomeIdIsFree(used, Scheduler.MAX_CONCURRENT_TRANSFERS);
      id :| id != 0 && id !in used;
    }

    method ServeRequest(id: u16, name: string, src: Addr) returns (sent: seq<Packet>)
      modifies this
      ensures Outcome(State(), sent, None) == Serve(old(State()), files, id, name, src)
    {
      sent := [];
      if !ValidFilename(name) || |senders| + |receivers| >= Scheduler.MAX_CONCURRENT_TRANSFERS {
        events := events + [NotFoundFor(src)];
        sent := [Carry(id, NotFound(false))];
        return;
      }
      if name in files {
        senders := senders[id := Serving(NewSender(files[name]), src)];
      } else {
        events := events + [NotFoundFor(src)];
        sent := [Carry(id, NotFound(false))];
      }
    }

    method BeginPull(name: string, remote: Addr) returns (started: Option<u16>, sent: seq<Packet>)
      modifies this
      ensures started.None? <==> ActiveCount(old(State())) >= Scheduler.MAX_CONCURRENT_TRANSFERS
      ensures started.None? ==> State() == old(State()) && sent == []
      ensures started.Some? ==>
        && started.value != 0 && started.value !in old(senders) && started.value !in old(receivers)
        && Outcome(State(), sent, None) == StartReceiver(old(State()), started.value, name, remote)
    {
      if |senders| + |receivers| >= Scheduler.MAX_CONCURRENT_TRANSFERS {
        return None, [];
      }
      var id := FreshId();
      sent := [Ask(id, name)];
      receivers := receivers[id := Pulling(NewReceiver(), name, remote)];
      started := Some(id);
    }

    method HandleAck(id: u16, ack: Datagram)
      requires ack.Progress? || ack.Complete?
      requires id in senders ==> senders[id].sender.Valid()
      modifies this
      ensures State() == AckArrives(old(State()), id, ack).reg
    {
      if id in senders {
        var s := senders[id];
        if ack.Complete? {
          events := events + [ServedTo(s.remote, |s.sender.file|)];
          senders := senders - {id};
        } else {
          senders := senders[id := s.(sender := OnProgress(s.sender, ack.range))];
        }
      }
    }

    /** Failed senders are removed only after the walk, as the map cannot change during it. */
    method TickAllSenders(timers: u16 -> Timers) returns (sent: seq<Packet>, ghost order: seq<u16>)
      requires forall id <- senders :: senders[id].sender.Valid()
      modifies this
      ensures Enumerates(order, old(senders).Keys)
      ensures CanTick(old(State()), order)
      ensures Outcome(State(), sent, None) == TickSenders(old(State()), order, timers)
    {
      hide TickSender, TickSenders, CanTick, Enumerates, Mirrors, WrapAll, Tick;
      sent, order := [], [];
      ghost var start, done := State(), State();
      TicksNone(start, timers);
      var expired: set<u16> := {};
      var rest := senders.Keys;
      while rest != {}
        invariant rest <= start.senders.Keys && receivers == start.receivers
        invariant Enumerates(order, start.senders.Keys - rest)
        invariant CanTick(start, order) && Outcome(done, sent, None) == TickSenders(start, order, timers)
        invariant Mirrors(done.senders, senders, expired)
        invariant forall id <- rest :: id in senders && id !in expired && senders[id] == start.senders[id]
        invariant events == done.events
      {
        var id :| id in rest;
        var s := senders[id];
        var t := Tick(s.sender, timers(id).sendDue, timers(id).ackDue);
        TicksNext(start, order, start.senders.Keys - rest, id, timers);
        TickSenderMeans(done, id, timers(id).sendDue, timers(id).ackDue);
        MirrorsNext(done.senders, senders, expired, id, s.(sender := t.sender));
        assert start.senders.Keys - rest + {id} == start.senders.Keys - (rest - {id});
        sent := sent + WrapAll(id, "", t.sent);
        if t.failed {
          events := events + [SenderFailed(s.remote)];
          expired := expired + {id};
        } else {
          senders := senders[id := s.(sender := t.sender)];
        }
        order := order + [id];
        rest := rest - {id};
        done := TickSenders(start, order, timers).reg;
      }
      assert start.senders.Keys - rest == start.senders.Keys;
      MirrorsEnd(done.senders, senders, expired);
      senders := senders - expired;
    }

    /** Unfinished receivers tick; those whose grace period is over are removed after the walk. */
    method TickAllReceivers(timers: u16 -> Timers) returns (sent: seq<Packet>, ghost order: seq<u16>)
      modifies this
      ensures Enumerates(order, old(receivers).Keys)
      ensures CanTickReceivers(old(State()), order)
      ensures Outcome(State(), sent, None) == TickReceivers(old(State()), order, timers)
    {
      hide TickOrDrop, TickReceivers, CanTickReceivers, Enumerates, Mirrors, WrapAll, OnTick;
      sent, order := [], [];
      ghost var start, live := State(), State();
      ReceiverTicksNone(start, timers);
      var done: set<u16> := {};
      var rest := receivers.Keys;
      while rest != {}
        invariant rest <= start.receivers.Keys && senders == start.senders && events == start.events
        invariant Enumerates(order, start.receivers.Keys - rest)
        invariant CanTickReceivers(start, order) && Outcome(live, sent, None) == TickReceivers(start, order, timers)
        invariant Mirrors(live.receivers, receivers, done)
        invariant forall id <- rest :: id in receivers && id !in done && receivers[id] == start.receivers[id]
        invariant events == live.events
      {
        var id :| id in rest;
        var p := receivers[id];
        var e := OnTick(p.receiver, timers(id).halfway, timers(id).firstExpired, timers(id).quiet);
        ReceiverTicksNext(start, order, start.receivers.Keys - rest, id, timers);
        TickOrDropMeans(live, id, timers(id));
        MirrorsNext(live.receivers, receivers, done, id, p.(receiver := e.receiver));
        assert start.receivers.Keys - rest + {id} == start.receivers.Keys - (rest - {id});
        assert sent + [] == sent;
        if p.receiver.outcome.Some? {
          if timers(id).graceOver {
            done := done + {id};
          }
        } else {
          sent := sent + WrapAll(id, p.name, e.sent);
          receivers := receivers[id := p.(receiver := e.receiver)];
        }
        order := order + [id];
        rest := rest - {id};
        live := TickReceivers(start, order, timers).reg;
      }
      assert start.receivers.Keys - rest == start.receivers.Keys;
      MirrorsEnd(live.receivers, receivers, done);
      receivers := receivers - done;
    }

    method HandleContent(id: u16, a: Arrival) returns (sent: seq<Packet>, written: Option<Bytes>)
      requires id in receivers && a.number >= 1 ==>
        Assembly.Copyable(a.order, receivers[id].receiver.packets[a.number := a.data])
      modifies this
      ensures Outcome(State(), sent, written) == ContentArrives(old(State()), id, a)
    {
      sent, written := [], None;
      if id in receivers {
        var p := receivers[id];
        var e := Receive(p.receiver, a);
        receivers := receivers[id := p.(receiver := e.receiver)];
        sent, written := WrapAll(id, p.name, e.sent), e.written;
      }
    }

    method HandleNotFound(id: u16, retryable: bool) returns (name: Option<string>)
      modifies this
      ensures State() == NotFoundArrives(old(State()), id, retryable).reg
      ensures name == if id in old(receivers) then Some(old(receivers)[id].name) else None
    {
      name := None;
      if id in receivers {
        var p := receivers[id];
        receivers := receivers[id := p.(receiver := ReceiverMachine.OnNotFound(p.receiver, retryable))];
        name := Some(p.name);
      }
    }
  }
}
