/**
 One tick of a whole registry: what becomes of every transfer, in whatever order its maps are
 walked, and that each failed sender is reported once.
 */
module RegistryWalks {
  import opened Prelude
  import opened SenderMachine
  import opened ReceiverMachine
  import opened Registry

  function TickOf(reg: Reg, id: u16, timers: u16 -> Timers): Ticked
    requires id in reg.senders && reg.senders[id].sender.Valid()
  {
    Tick(reg.senders[id].sender, timers(id).sendDue, timers(id).ackDue)
  }

  /** A sender is gone after its tick if it failed, and otherwise is where its own tick took it. */
  predicate SenderWent(reg: Reg, after: Reg, id: u16, timers: u16 -> Timers)
    requires id in reg.senders && reg.senders[id].sender.Valid()
  {
    var t := TickOf(reg, id, timers);
    && (id in after.senders <==> !t.failed)
    && (!t.failed ==> after.senders[id] == Serving(t.sender, reg.senders[id].remote))
  }

  /** One sender's tick in a registry in which others may have ticked already. */
  lemma OneSender(reg: Reg, before: Reg, id: u16, timers: u16 -> Timers)
    requires id in reg.senders && reg.senders[id].sender.Valid()
    requires id in before.senders && before.senders[id] == reg.senders[id]
    ensures var after := TickSender(before, id, timers(id).sendDue, timers(id).ackDue).reg;
      && SenderWent(reg, after, id, timers)
      && after.senders - {id} == before.senders - {id} && after.receivers == before.receivers
      && after.events == before.events +
           if TickOf(reg, id, timers).failed then [SenderFailed(reg.senders[id].remote)] else []
  {
    hide Tick, WrapAll, TickSender;
    TickSenderMeans(before, id, timers(id).sendDue, timers(id).ackDue);
  }

  /** The walk over `front` and then one sender more. */
  lemma OneMoreSender(reg: Reg, order: seq<u16>, timers: u16 -> Timers)
    requires order != [] && CanTick(reg, order)
    ensures var front, last := order[..|order| - 1], order[|order| - 1];
      && last !in front && (forall id :: id in order <==> id in front || id == last)
      && CanTick(reg, front)
      && var before, after := TickSenders(reg, front, timers).reg, TickSenders(reg, order, timers).reg;
      && last in before.senders && before.senders[last] == reg.senders[last]
      && SenderWent(reg, after, last, timers)
      && after.senders - {last} == before.senders - {last} && after.receivers == before.receivers
      && after.events == before.events +
           if TickOf(reg, last, timers).failed then [SenderFailed(reg.senders[last].remote)] else []
  {
    hide Tick, TickSender, TickOf, SenderWent;
    var front, last := order[..|order| - 1], order[|order| - 1];
    assert forall id :: id in order <==> id in front || id == last;
    OneSender(reg, TickSenders(reg, front, timers).reg, last, timers);
  }

  /** A walk over some senders ticks each of them once and leaves the others alone. */
  lemma {:induction false} SendersWalk(reg: Reg, order: seq<u16>, timers: u16 -> Timers)
    requires CanTick(reg, order)
    ensures var o := TickSenders(reg, order, timers);
      && (forall id <- order :: SenderWent(reg, o.reg, id, timers))
      && (forall id <- o.reg.senders :: id in reg.senders)
      && (forall id <- reg.senders :: id !in order ==> id in o.reg.senders && o.reg.senders[id] == reg.senders[id])
      && o.reg.receivers == reg.receivers
    decreases |order|
  {
    if order == [] { return; }
    hide Tick, TickSenders, CanTick;
    var front, last := order[..|order| - 1], order[|order| - 1];
    OneMoreSender(reg, order, timers);
    SendersWalk(reg, front, timers);
    var before, after := TickSenders(reg, front, timers).reg, TickSenders(reg, order, timers).reg;
    SenderIsTickable(reg, order);
    forall id | id in reg.senders && id != last
      ensures id in after.senders <==> id in before.senders
      ensures id in after.senders ==> after.senders[id] == before.senders[id]
    {
      SameBut(before.senders, after.senders, last, id);
    }
    forall id | id in front
      ensures SenderWent(reg, after, id, timers)
    {
      assert SenderWent(reg, before, id, timers);
    }
  }

  lemma SenderIsTickable(reg: Reg, order: seq<u16>)
    requires CanTick(reg, order)
    ensures forall id <- order :: id in reg.senders && reg.senders[id].sender.Valid()
  {
  }

  lemma SameBut<V>(a: map<u16, V>, b: map<u16, V>, except: u16, id: u16)
    requires a - {except} == b - {except} && id != except
    ensures id in a <==> id in b
    ensures id in a ==> a[id] == b[id]
  {
    assert id in a <==> id in a - {except};
    assert id in b <==> id in b - {except};
  }

  /** Every sender that goes is one more failure event, with its peer, and there are no other events. */
  lemma {:induction false} FailuresAreReported(reg: Reg, order: seq<u16>, timers: u16 -> Timers)
    requires CanTick(reg, order)
    ensures var o := TickSenders(reg, order, timers);
      && |o.reg.events| + |o.reg.senders| == |reg.events| + |reg.senders|
      && reg.events <= o.reg.events
      && (forall i :: |reg.events| <= i < |o.reg.events| ==>
           exists id <- order :: id in reg.senders && o.reg.events[i] == SenderFailed(reg.senders[id].remote))
    decreases |order|
  {
    if order == [] { return; }
    hide Tick, TickSenders, CanTick;
    var front, last := order[..|order| - 1], order[|order| - 1];
    OneMoreSender(reg, order, timers);
    FailuresAreReported(reg, front, timers);
    var before, after := TickSenders(reg, front, timers).reg, TickSenders(reg, order, timers).reg;
    SenderIsTickable(reg, order);
    OneGone(before.senders, after.senders, last);
  }

  lemma OneGone<V>(a: map<u16, V>, b: map<u16, V>, id: u16)
    requires id in a && a - {id} == b - {id}
    ensures |b| == if id in b then |a| else |a| - 1
  {
    var rest := (a - {id}).Keys;
    assert a.Keys == rest + {id};
    assert b.Keys == if id in b then rest + {id} else rest;
    assert |a| == |a.Keys| && |b| == |b.Keys|;
  }

  /** A whole walk keeps and moves the same senders, and reports as many failures, in any order of the map. */
  lemma SenderOrderIsFree(reg: Reg, a: seq<u16>, b: seq<u16>, timers: u16 -> Timers)
    requires CanTick(reg, a) && CanTick(reg, b)
    requires forall id :: id in a <==> id in b
    ensures var x, y := TickSenders(reg, a, timers).reg, TickSenders(reg, b, timers).reg;
      x.senders == y.senders && x.receivers == y.receivers && |x.events| == |y.events|
  {
    hide Tick, TickSenders;
    SendersWalk(reg, a, timers);
    SendersWalk(reg, b, timers);
    FailuresAreReported(reg, a, timers);
    FailuresAreReported(reg, b, timers);
    var x, y := TickSenders(reg, a, timers).reg, TickSenders(reg, b, timers).reg;
    forall id
      ensures id in x.senders <==> id in y.senders
      ensures id in x.senders ==> x.senders[id] == y.senders[id]
    {
      if id in reg.senders && id in a {
        assert SenderWent(reg, x, id, timers) && SenderWent(reg, y, id, timers);
      }
    }
    assert x.senders == y.senders;
  }

  /** A finished receiver stays as it is until its grace period is over, and only then goes; a running one ticks. */
  predicate ReceiverWent(reg: Reg, after: Reg, id: u16, t: Timers)
    requires id in reg.receivers
  {
    var p := reg.receivers[id];
    && (id !in after.receivers <==> p.receiver.outcome.Some? && t.graceOver)
    && (id in after.receivers ==>
         var ticked := Pulling(OnTick(p.receiver, t.halfway, t.firstExpired, t.quiet).receiver, p.name, p.remote);
         after.receivers[id] == if p.receiver.outcome.Some? then p else ticked)
  }

  lemma {:induction false} ReceiversWalk(reg: Reg, order: seq<u16>, timers: u16 -> Timers)
    requires CanTickReceivers(reg, order)
    ensures var o := TickReceivers(reg, order, timers);
      && (forall id <- order :: ReceiverWent(reg, o.reg, id, timers(id)))
      && (forall id <- o.reg.receivers :: id in reg.receivers)
      && (forall id <- reg.receivers :: id !in order ==> id in o.reg.receivers && o.reg.receivers[id] == reg.receivers[id])
      && o.reg.senders == reg.senders && o.reg.events == reg.events
    decreases |order|
  {
    hide OnTick;
    if order != [] {
      var front, last := order[..|order| - 1], order[|order| - 1];
      assert forall id :: id in order <==> id in front || id == last;
      ReceiversWalk(reg, front, timers);
      var before := TickReceivers(reg, front, timers).reg;
      TickOrDropMeans(before, last, timers(last));
    }
  }

  lemma ReceiverOrderIsFree(reg: Reg, a: seq<u16>, b: seq<u16>, timers: u16 -> Timers)
    requires CanTickReceivers(reg, a) && CanTickReceivers(reg, b)
    requires forall id :: id in a <==> id in b
    ensures TickReceivers(reg, a, timers).reg == TickReceivers(reg, b, timers).reg
  {
    hide OnTick, TickReceivers;
    ReceiversWalk(reg, a, timers);
    ReceiversWalk(reg, b, timers);
    var x, y := TickReceivers(reg, a, timers).reg, TickReceivers(reg, b, timers).reg;
    forall id
      ensures id in x.receivers <==> id in y.receivers
      ensures id in x.receivers ==> x.receivers[id] == y.receivers[id]
    {
      if id in reg.receivers && id in a {
        assert ReceiverWent(reg, x, id, timers(id)) && ReceiverWent(reg, y, id, timers(id));
      }
    }
    assert x.receivers == y.receivers;
  }
}
