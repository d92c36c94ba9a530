/**
 Two nodes with all their transfers at once. The serving node's registry and the downloading
 node's registry exchange datagrams under many transfer ids; seen through one id, the pair of
 registries is the single transfer of `Network`.
 */
module ManyTransfers {
  import opened Prelude
  import opened Segments
  import opened SenderMachine
  import opened ReceiverMachine
  import opened ReceiverLaws
  import opened Registry
  import Scheduler
  import Network

  datatype Written = Written(id: u16, name: string, content: Bytes)

  datatype World = World(
    server: Reg,
    client: Reg,
    log: seq<Packet>,            // every datagram ever sent between the two
    writes: seq<Written>,        // files the client has renamed into place, in order
    acked: seq<u16>,             // ids of `Served` events
    started: map<u16, string>)   // every pull ever started, and its segment

  datatype Label =
    | Pull(id: u16, name: string, remote: Addr)
    | ServerTick(id: u16, sendDue: bool, ackDue: bool)
    | ClientTick(id: u16, halfway: bool, firstExpired: bool, quiet: bool)
    | AskArrives(id: u16, name: string, src: Addr, denied: Option<bool>)
    | ContentComes(id: u16, a: Arrival)
    | AckComes(id: u16, ack: Datagram)
    | DenialComes(id: u16, retryable: bool)
    | Forget(id: u16)
    | Elsewhere(pulls: map<u16, Pulling>, servings: map<u16, Serving>)  // their transfers with other nodes

  predicate ServesValid(reg: Reg, id: u16) {
    id in reg.senders ==> reg.senders[id].sender.Valid()
  }

  /** Transfer ids are not used twice; everything else is as the code has it. */
  ghost predicate Enabled(w: World, l: Label) {
    match l
    case Pull(id, _, _) => id !in w.started && ActiveCount(w.client) < Scheduler.MAX_CONCURRENT_TRANSFERS
    case ServerTick(id, _, _) => id in w.server.senders && ServesValid(w.server, id)
    case ClientTick(id, _, _, _) => id in w.client.receivers
    case AskArrives(id, name, _, _) => Ask(id, name) in w.log
    case ContentComes(id, a) =>
      && Carry(id, Content(a.number, a.total, a.data)) in w.log
      && (id in w.client.receivers ==> Possible(w.client.receivers[id].receiver, a))
    case AckComes(id, ack) => Carry(id, ack) in w.log && (ack.Progress? || ack.Complete?) && ServesValid(w.server, id)
    case DenialComes(id, retryable) => Carry(id, NotFound(retryable)) in w.log
    case Forget(id) => id in w.client.receivers && w.client.receivers[id].receiver.outcome.Some?
    case Elsewhere(_, _) => true
  }

  function AtServer(w: World, o: Registry.Outcome): World {
    w.(server := o.reg, log := w.log + o.sent)
  }

  function AtClient(w: World, id: u16, o: Registry.Outcome): World
    requires o.written.Some? ==> id in w.client.receivers
  {
    w.(client := o.reg, log := w.log + o.sent,
       writes := if o.written.None? then w.writes
                 else w.writes + [Written(id, w.client.receivers[id].name, o.written.value)])
  }

  function Next(files: map<string, Bytes>, w: World, l: Label): World
    requires Enabled(w, l)
  {
    match l
    case Pull(id, name, remote) =>
      AtClient(w, id, StartReceiver(w.client, id, name, remote)).(started := w.started[id := name])
    case ServerTick(id, sendDue, ackDue) => AtServer(w, TickSender(w.server, id, sendDue, ackDue))
    case ClientTick(id, halfway, firstExpired, quiet) =>
      AtClient(w, id, TickReceiver(w.client, id, halfway, firstExpired, quiet))
    case AskArrives(id, name, src, denied) =>
      AtServer(w, if denied.Some? then Reject(w.server, id, src, denied.value) else Serve(w.server, files, id, name, src))
    case ContentComes(id, a) => AtClient(w, id, ContentArrives(w.client, id, a))
    case AckComes(id, ack) =>
      AtServer(w, AckArrives(w.server, id, ack)).(
        acked := if ack.Complete? && id in w.server.senders then w.acked + [id] else w.acked)
    case DenialComes(id, retryable) => AtClient(w, id, NotFoundArrives(w.client, id, retryable))
    case Forget(id) => AtClient(w, id, Drop(w.client, id))
    case Elsewhere(pulls, servings) =>
      w.(server := w.server.(receivers := pulls), client := w.client.(senders := servings))
  }

  // ----- The view through one transfer id

  function Body(p: Packet): Datagram {
    if p.Ask? then Request else p.body
  }

  function LogOf(log: seq<Packet>, id: u16): seq<Datagram> {
    if log == [] then []
    else
      var last := log[|log| - 1];
      LogOf(log[..|log| - 1], id) + if last.id == id then [Body(last)] else []
  }

  function WritesOf(writes: seq<Written>, id: u16): seq<Bytes> {
    if writes == [] then []
    else
      var last := writes[|writes| - 1];
      WritesOf(writes[..|writes| - 1], id) + if last.id == id then [last.content] else []
  }

  function Times(ids: seq<u16>, id: u16): nat {
    if ids == [] then 0
    else Times(ids[..|ids| - 1], id) + if ids[|ids| - 1] == id then 1 else 0
  }

  function View(w: World, id: u16): Network.Net {
    Network.Net(
      if id in w.server.senders then Some(w.server.senders[id].sender) else None,
      if id in w.client.receivers then Some(w.client.receivers[id].receiver) else None,
      LogOf(w.log, id), WritesOf(w.writes, id), Times(w.acked, id))
  }

  lemma {:induction false} LogOfAppended(log: seq<Packet>, more: seq<Packet>, id: u16)
    ensures LogOf(log + more, id) == LogOf(log, id) + LogOf(more, id)
  {
    if more == [] {
      assert log + more == log;
    } else {
      var front := more[..|more| - 1];
      LogOfAppended(log, front, id);
      assert (log + more)[..|log + more| - 1] == log + front;
    }
  }

  lemma {:induction false} LogOfWrapped(id: u16, name: string, sent: seq<Datagram>, other: u16)
    ensures LogOf(WrapAll(id, name, sent), other) == if other == id then sent else []
  {
    if sent != [] {
      var front := sent[..|sent| - 1];
      LogOfWrapped(id, name, front, other);
      assert WrapAll(id, name, sent)[..|sent| - 1] == WrapAll(id, name, front);
      assert sent == front + [sent[|sent| - 1]];
    }
  }

  lemma {:induction false} InLogOf(log: seq<Packet>, p: Packet)
    requires p in log
    ensures Body(p) in LogOf(log, p.id)
  {
    if log[|log| - 1] != p {
      InLogOf(log[..|log| - 1], p);
    }
  }

  lemma OneWrite(writes: seq<Written>, wr: Written, id: u16)
    ensures WritesOf(writes + [wr], id) == WritesOf(writes, id) + if wr.id == id then [wr.content] else []
  {
    assert (writes + [wr])[..|writes|] == writes;
  }

  lemma OneMoreTime(ids: seq<u16>, id: u16, other: u16)
    ensures Times(ids + [id], other) == Times(ids, other) + if id == other then 1 else 0
  {
    assert (ids + [id])[..|ids|] == ids;
  }

  /** The step of the single transfer `id` that a step of the two nodes is. */
  function AsSingle(files: map<string, Bytes>, w: World, l: Label): Network.Label
    requires !l.Pull? && !l.Elsewhere?
  {
    match l
    case ServerTick(_, sendDue, ackDue) => Network.SenderTick(sendDue, ackDue)
    case ClientTick(_, halfway, firstExpired, quiet) => Network.ReceiverTick(halfway, firstExpired, quiet)
    case AskArrives(_, name, _, denied) =>
      Network.DeliverRequest(if denied.Some? then denied else if Refuses(w.server, files, name) then Some(false) else None)
    case ContentComes(_, a) => Network.DeliverContent(a)
    case AckComes(_, ack) => if ack.Progress? then Network.DeliverProgress(ack.range) else Network.DeliverComplete
    case DenialComes(_, retryable) => Network.DeliverNotFound(retryable)
    case Forget(_) => Network.DropReceiver
  }

  function FileOf(files: map<string, Bytes>, name: string): Bytes {
    if name in files then files[name] else []
  }

  lemma SentThrough(log: seq<Packet>, id: u16, name: string, sent: seq<Datagram>, other: u16)
    ensures LogOf(log + WrapAll(id, name, sent), other) == LogOf(log, other) + if other == id then sent else []
  {
    LogOfAppended(log, WrapAll(id, name, sent), other);
    LogOfWrapped(id, name, sent, other);
  }

  /** How sending `sent` under `id` looks through `other`. */
  lemma AtServerView(w: World, o: Registry.Outcome, id: u16, name: string, sent: seq<Datagram>, other: u16)
    requires o.sent == WrapAll(id, name, sent)
    requires other != id ==> (other in o.reg.senders <==> other in w.server.senders)
    requires other != id && other in o.reg.senders ==> o.reg.senders[other] == w.server.senders[other]
    ensures var v, v' := View(w, other), View(AtServer(w, o), other);
      if other != id then v' == v
      else v' == v.(sender := if id in o.reg.senders then Some(o.reg.senders[id].sender) else None, log := v.log + sent)
  {
    hide WrapAll, LogOf, WritesOf, Times;
    SentThrough(w.log, id, name, sent, other);
    assert LogOf(w.log, other) + [] == LogOf(w.log, other);
  }

  lemma AtClientView(w: World, o: Registry.Outcome, id: u16, name: string, sent: seq<Datagram>, other: u16)
    requires o.sent == WrapAll(id, name, sent) && (o.written.Some? ==> id in w.client.receivers)
    requires other != id ==> (other in o.reg.receivers <==> other in w.client.receivers)
    requires other != id && other in o.reg.receivers ==> o.reg.receivers[other] == w.client.receivers[other]
    ensures var v, v' := View(w, other), View(AtClient(w, id, o), other);
      if other != id then v' == v
      else v' == v.(receiver := if id in o.reg.receivers then Some(o.reg.receivers[id].receiver) else None,
                    log := v.log + sent,
                    writes := if o.written.None? then v.writes else v.writes + [o.written.value])
  {
    hide WrapAll, LogOf, WritesOf, Times;
    SentThrough(w.log, id, name, sent, other);
    assert LogOf(w.log, other) + [] == LogOf(w.log, other);
    if o.written.Some? {
      OneWrite(w.writes, Written(id, w.client.receivers[id].name, o.written.value), other);
    }
  }

  predicate AtRegistries(w: World, l: Label) {
    !l.Pull? && !l.Elsewhere? && l.id in w.started && (l.AskArrives? ==> w.started[l.id] == l.name)
  }

  ghost predicate Simulates(files: map<string, Bytes>, w: World, l: Label, other: u16)
    requires Enabled(w, l) && AtRegistries(w, l)
  {
    var single := AsSingle(files, w, l);
    && Network.Enabled(View(w, l.id), single)
    && View(Next(files, w, l), l.id) == Network.Next(FileOf(files, w.started[l.id]), View(w, l.id), single)
    && (other != l.id ==> View(Next(files, w, l), other) == View(w, other))
  }

  lemma ServerTickIsSingle(files: map<string, Bytes>, w: World, l: Label, other: u16)
    requires l.ServerTick? && Enabled(w, l) && AtRegistries(w, l)
    ensures Simulates(files, w, l, other)
  {
    hide LogOf, WritesOf, Times, Tick;
    var t := Tick(w.server.senders[l.id].sender, l.sendDue, l.ackDue);
    var o := TickSender(w.server, l.id, l.sendDue, l.ackDue);
    AtServerView(w, o, l.id, "", t.sent, l.id);
    AtServerView(w, o, l.id, "", t.sent, other);
  }

  lemma AskIsSingle(files: map<string, Bytes>, w: World, l: Label, other: u16)
    requires l.AskArrives? && Enabled(w, l) && AtRegistries(w, l)
    ensures Simulates(files, w, l, other)
  {
    hide LogOf, WritesOf, Times, NewSender;
    InLogOf(w.log, Ask(l.id, l.name));
    var o := if l.denied.Some? then Reject(w.server, l.id, l.src, l.denied.value) else Serve(w.server, files, l.id, l.name, l.src);
    var single := AsSingle(files, w, l);
    var sent := if single.refusal.Some? then [NotFound(single.refusal.value)] else [];
    assert o.sent == WrapAll(l.id, "", sent);
    AtServerView(w, o, l.id, "", sent, l.id);
    AtServerView(w, o, l.id, "", sent, other);
  }

  lemma AckIsSingle(files: map<string, Bytes>, w: World, l: Label, other: u16)
    requires l.AckComes? && Enabled(w, l) && AtRegistries(w, l)
    ensures Simulates(files, w, l, other)
  {
    hide LogOf, WritesOf, Times, OnProgress;
    InLogOf(w.log, Carry(l.id, l.ack));
    var o := AckArrives(w.server, l.id, l.ack);
    assert o.sent == WrapAll(l.id, "", []);
    AtServerView(w, o, l.id, "", [], l.id);
    AtServerView(w, o, l.id, "", [], other);
    OneMoreTime(w.acked, l.id, other);
    OneMoreTime(w.acked, l.id, l.id);
  }

  lemma ContentIsSingle(files: map<string, Bytes>, w: World, l: Label, other: u16)
    requires l.ContentComes? && Enabled(w, l) && AtRegistries(w, l)
    ensures Simulates(files, w, l, other)
  {
    hide LogOf, WritesOf, Times, Receive;
    InLogOf(w.log, Carry(l.id, Content(l.a.number, l.a.total, l.a.data)));
    var o := ContentArrives(w.client, l.id, l.a);
    if l.id in w.client.receivers {
      var p := w.client.receivers[l.id];
      var sent := Receive(p.receiver, l.a).sent;
      AtClientView(w, o, l.id, p.name, sent, l.id);
      AtClientView(w, o, l.id, p.name, sent, other);
    } else {
      assert w.log + [] == w.log;
    }
  }

  lemma ClientTickIsSingle(files: map<string, Bytes>, w: World, l: Label, other: u16)
    requires l.ClientTick? && Enabled(w, l) && AtRegistries(w, l)
    ensures Simulates(files, w, l, other)
  {
    hide LogOf, WritesOf, Times, OnTick;
    var p := w.client.receivers[l.id];
    var e := OnTick(p.receiver, l.halfway, l.firstExpired, l.quiet);
    var o := TickReceiver(w.client, l.id, l.halfway, l.firstExpired, l.quiet);
    AtClientView(w, o, l.id, p.name, e.sent, l.id);
    AtClientView(w, o, l.id, p.name, e.sent, other);
  }

  lemma QuietStepIsSingle(files: map<string, Bytes>, w: World, l: Label, other: u16)
    requires (l.DenialComes? || l.Forget?) && Enabled(w, l) && AtRegistries(w, l)
    ensures Simulates(files, w, l, other)
  {
    hide LogOf, WritesOf, Times, ReceiverMachine.OnNotFound;
    if l.DenialComes? {
      InLogOf(w.log, Carry(l.id, NotFound(l.retryable)));
    }
    assert w.log + [] == w.log;
  }

  /** Simulation: through its own id a step is a step of the single transfer, through every other id it is none. */
  lemma StepIsSingle(files: map<string, Bytes>, w: World, l: Label, other: u16)
    requires Enabled(w, l) && AtRegistries(w, l)
    ensures Simulates(files, w, l, other)
  {
    hide Enabled, Next, Simulates;
    match l
    case ServerTick(_, _, _) => ServerTickIsSingle(files, w, l, other);
    case ClientTick(_, _, _, _) => ClientTickIsSingle(files, w, l, other);
    case AskArrives(_, _, _, _) => AskIsSingle(files, w, l, other);
    case ContentComes(_, _) => ContentIsSingle(files, w, l, other);
    case AckComes(_, _) => AckIsSingle(files, w, l, other);
    case _ => QuietStepIsSingle(files, w, l, other);
  }

  // ----- Whole runs

  ghost predicate Asked(w: World) {
    forall p <- w.log :: p.id in w.started && (p.Ask? ==> w.started[p.id] == p.name)
  }

  predicate Named(w: World) {
    && (forall id <- w.client.receivers :: id in w.started && w.client.receivers[id].name == w.started[id])
    && (forall id <- w.server.senders :: id in w.started)
    && (forall wr <- w.writes :: wr.id in w.started && wr.name == w.started[wr.id])
    && (forall id <- w.acked :: id in w.started)
  }

  /** Of a file the server does not have no content is ever sent. */
  ghost predicate NothingFrom(w: World, id: u16) {
    && id !in w.server.senders
    && (forall p <- w.log :: p.id == id ==> !Body(p).Content?)
    && (forall wr <- w.writes :: wr.id != id)
  }

  ghost predicate Holds(files: map<string, Bytes>, w: World, id: u16)
    requires id in w.started
  {
    && Network.Inv(FileOf(files, w.started[id]), View(w, id))
    && (w.started[id] !in files ==> NothingFrom(w, id))
  }

  ghost predicate Inv(files: map<string, Bytes>, w: World) {
    && Asked(w) && Named(w)
    && (forall id <- w.started :: Holds(files, w, id))
  }

  function NewWorld(): World {
    World(Reg(map[], map[], []), Reg(map[], map[], []), [], [], [], map[])
  }

  lemma {:induction false} NoTrace(w: World, id: u16)
    requires Asked(w) && Named(w) && id !in w.started
    ensures View(w, id) == Network.Net(None, None, [], [], 0)
  {
    NoPackets(w.log, id);
    NoWrites(w.writes, id);
    NoTimes(w.acked, id);
  }

  lemma {:induction false} NoPackets(log: seq<Packet>, id: u16)
    requires forall p <- log :: p.id != id
    ensures LogOf(log, id) == []
  {
    if log != [] {
      NoPackets(log[..|log| - 1], id);
    }
  }

  lemma {:induction false} NoWrites(writes: seq<Written>, id: u16)
    requires forall wr <- writes :: wr.id != id
    ensures WritesOf(writes, id) == []
  {
    if writes != [] {
      NoWrites(writes[..|writes| - 1], id);
    }
  }

  lemma {:induction false} NoTimes(ids: seq<u16>, id: u16)
    requires id !in ids
    ensures Times(ids, id) == 0
  {
    if ids != [] {
      NoTimes(ids[..|ids| - 1], id);
    }
  }

  lemma PullIsInit(w: World, l: Label, other: u16)
    requires l.Pull? && Enabled(w, l) && Asked(w) && Named(w)
    ensures View(Next(map[], w, l), l.id) == Network.Init()
    ensures other != l.id ==> View(Next(map[], w, l), other) == View(w, other)
  {
    hide LogOf, WritesOf, Times;
    NoTrace(w, l.id);
    var o := StartReceiver(w.client, l.id, l.name, l.remote);
    assert o.sent == WrapAll(l.id, l.name, [Request]);
    AtClientView(w, o, l.id, l.name, [Request], l.id);
    AtClientView(w, o, l.id, l.name, [Request], other);
  }

  /** What the two nodes send under the id of a step, and that a request always names the segment of its id. */
  lemma SentNames(files: map<string, Bytes>, w: World, l: Label)
    requires Enabled(w, l) && AtRegistries(w, l) && Named(w)
    ensures var log := Next(files, w, l).log;
      && w.log <= log
      && forall i :: |w.log| <= i < |log| ==>
        && log[i].id == l.id && (log[i].Ask? ==> log[i].name == w.started[l.id])
        && (Body(log[i]).Content? ==> l.ServerTick? || l.ContentComes?)
  {
    hide Receive, Possible, Refuses;
    match l
    case ServerTick(id, sendDue, ackDue) => TickStaysInRange(w.server.senders[id].sender, sendDue, ackDue);
    case _ =>
  }

  lemma StepKeepsNames(files: map<string, Bytes>, w: World, l: Label)
    requires Enabled(w, l) && AtRegistries(w, l) && Asked(w) && Named(w)
    ensures Asked(Next(files, w, l)) && Named(Next(files, w, l))
  {
    hide Receive, Possible, Refuses, Tick, OnTick, WrapAll;
    SentNames(files, w, l);
    var log := Next(files, w, l).log;
    forall p | p in log
      ensures p.id in w.started && (p.Ask? ==> w.started[p.id] == p.name)
    {
      var i :| 0 <= i < |log| && log[i] == p;
      if i < |w.log| {
        assert w.log[i] == p;
      }
    }
  }

  lemma TickWritesNothing(r: Receiver, halfway: bool, firstExpired: bool, quiet: bool)
    ensures OnTick(r, halfway, firstExpired, quiet).written.None?
  {
  }

  lemma NoContentComes(w: World, l: Label, id: u16)
    requires l.ContentComes? && Enabled(w, l) && NothingFrom(w, id)
    ensures l.id != id
  {
    var p := Carry(l.id, Content(l.a.number, l.a.total, l.a.data));
    assert p in w.log && Body(p).Content?;
  }

  lemma StepKeepsNothing(files: map<string, Bytes>, w: World, l: Label, id: u16)
    requires Enabled(w, l) && AtRegistries(w, l) && Asked(w) && Named(w)
    requires id in w.started && w.started[id] !in files && NothingFrom(w, id)
    ensures NothingFrom(Next(files, w, l), id)
  {
    hide Receive, Possible, Tick, OnTick, WrapAll;
    SentNames(files, w, l);
    var w' := Next(files, w, l);
    if l.ClientTick? {
      TickWritesNothing(w.client.receivers[l.id].receiver, l.halfway, l.firstExpired, l.quiet);
    }
    if l.ContentComes? {
      NoContentComes(w, l, id);
    }
    forall p | p in w'.log && p.id == id
      ensures !Body(p).Content?
    {
      var i :| 0 <= i < |w'.log| && w'.log[i] == p;
      if i < |w.log| {
        assert w.log[i] == p;
      }
    }
  }

  lemma StepHolds(files: map<string, Bytes>, w: World, l: Label)
    requires Inv(files, w) && Enabled(w, l)
    ensures Inv(files, Next(files, w, l))
  {
    hide Network.Inv, Enabled, Next, View, NothingFrom, Asked, Named;
    var w' := Next(files, w, l);
    if l.Pull? {
      PullKeepsInv(files, w, l);
    } else if l.Elsewhere? {
      ElsewhereKeepsInv(files, w, l);
    } else {
      StepIsAtRegistries(w, l);
      StepKeepsNames(files, w, l);
      forall id <- w'.started
        ensures id in w.started && w'.started[id] == w.started[id] && Holds(files, w', id)
      {
        StartedStays(files, w, l);
        StepIsSingle(files, w, l, id);
        if w.started[id] !in files {
          StepKeepsNothing(files, w, l, id);
        }
        if id == l.id {
          SingleStepHolds(FileOf(files, w.started[id]), View(w, id), AsSingle(files, w, l));
        }
      }
    }
  }

  lemma StartedStays(files: map<string, Bytes>, w: World, l: Label)
    requires Enabled(w, l) && !l.Pull?
    ensures Next(files, w, l).started == w.started
  {
  }

  lemma SingleStepHolds(file: Bytes, s: Network.Net, l: Network.Label)
    requires Network.Inv(file, s) && Network.Enabled(s, l)
    ensures Network.Inv(file, Network.Next(file, s, l))
  {
    var k: nat :| Network.InvAt(file, k, s);
    var k' := Network.StepHolds(file, k, s, l);
  }

  lemma StepIsAtRegistries(w: World, l: Label)
    requires Asked(w) && Named(w) && Enabled(w, l) && !l.Pull? && !l.Elsewhere?
    ensures AtRegistries(w, l)
  {
    match l
    case AskArrives(id, name, _, _) => assert Ask(id, name) in w.log;
    case ContentComes(id, a) => assert Carry(id, Content(a.number, a.total, a.data)) in w.log;
    case AckComes(id, ack) => assert Carry(id, ack) in w.log;
    case DenialComes(id, retryable) => assert Carry(id, NotFound(retryable)) in w.log;
    case _ =>
  }

  lemma PullKeepsNames(files: map<string, Bytes>, w: World, l: Label)
    requires Asked(w) && Named(w) && l.Pull? && Enabled(w, l)
    ensures var w' := Next(files, w, l);
      && Asked(w') && Named(w') && NothingFrom(w', l.id)
      && forall id <- w.started :: NothingFrom(w, id) ==> NothingFrom(w', id)
  {
  }

  lemma PullKeepsInv(files: map<string, Bytes>, w: World, l: Label)
    requires Inv(files, w) && l.Pull? && Enabled(w, l)
    ensures Inv(files, Next(files, w, l))
  {
    hide Network.Inv, View, Asked, Named, NothingFrom;
    var w' := Next(files, w, l);
    PullKeepsNames(files, w, l);
    forall id <- w'.started
      ensures Holds(files, w', id)
    {
      PullIsInit(w, l, id);
      if id == l.id {
        InitIsInv(FileOf(files, l.name));
      }
    }
  }

  lemma InitIsInv(file: Bytes)
    ensures Network.Inv(file, Network.Init())
  {
    Network.InitHolds(file);
  }

  lemma ElsewhereKeepsInv(files: map<string, Bytes>, w: World, l: Label)
    requires Inv(files, w) && l.Elsewhere? && Enabled(w, l)
    ensures Inv(files, Next(files, w, l))
  {
    hide Network.Inv;
    var w' := Next(files, w, l);
    forall id <- w'.started
      ensures Holds(files, w', id)
    {
      assert View(w', id) == View(w, id);
    }
  }

  ghost predicate Legal(files: map<string, Bytes>, w: World, labels: seq<Label>)
    decreases |labels|
  {
    labels == [] || (Enabled(w, labels[0]) && Legal(files, Next(files, w, labels[0]), labels[1..]))
  }

  ghost function After(files: map<string, Bytes>, w: World, labels: seq<Label>): World
    requires Legal(files, w, labels)
    decreases |labels|
  {
    if labels == [] then w else After(files, Next(files, w, labels[0]), labels[1..])
  }

  lemma {:induction false} RunHolds(files: map<string, Bytes>, w: World, labels: seq<Label>)
    requires Inv(files, w) && Legal(files, w, labels)
    ensures Inv(files, After(files, w, labels))
    decreases |labels|
  {
    hide Inv, Enabled, Next;
    if labels != [] {
      StepHolds(files, w, labels[0]);
      RunHolds(files, Next(files, w, labels[0]), labels[1..]);
    }
  }

  lemma {:induction false} InWritesOf(writes: seq<Written>, i: nat)
    requires i < |writes|
    ensures writes[i].content in WritesOf(writes, writes[i].id)
  {
    if i < |writes| - 1 {
      InWritesOf(writes[..|writes| - 1], i);
    }
  }

  lemma {:induction false} TwoWrites(writes: seq<Written>, i: nat, j: nat)
    requires i < j < |writes| && writes[i].id == writes[j].id
    ensures |WritesOf(writes, writes[i].id)| >= 2
  {
    if j < |writes| - 1 {
      TwoWrites(writes[..|writes| - 1], i, j);
    } else {
      InWritesOf(writes[..|writes| - 1], i);
    }
  }

  lemma {:induction false} OnceOrMore(ids: seq<u16>, id: u16)
    requires id in ids
    ensures Times(ids, id) > 0
  {
    if ids[|ids| - 1] != id {
      OnceOrMore(ids[..|ids| - 1], id);
    }
  }

  lemma {:induction false} WriteExists(writes: seq<Written>, id: u16)
    requires WritesOf(writes, id) != []
    ensures exists wr <- writes :: wr.id == id
  {
    if writes[|writes| - 1].id != id {
      WriteExists(writes[..|writes| - 1], id);
    }
  }

  /**
   End-to-end safety of whole nodes: however the datagrams of any number of transfers are mixed,
   delayed, lost or repeated, each file written is the served file of that name, no pull writes
   twice, and a `Served` event, or a pull reported as saved to the scheduler, means that the pull of
   that id has written its file.
   */
  lemma EveryWriteIsTheServedFile(files: map<string, Bytes>, labels: seq<Label>)
    requires Legal(files, NewWorld(), labels)
    ensures var w := After(files, NewWorld(), labels);
      && (forall wr <- w.writes :: wr.id in w.started && wr.name == w.started[wr.id]
            && wr.name in files && wr.content == Carried(files[wr.name]))
      && (forall i, j :: 0 <= i < j < |w.writes| ==> w.writes[i].id != w.writes[j].id)
      && (forall id <- w.acked :: exists wr <- w.writes :: wr.id == id)
      && (forall id <- w.client.receivers :: SavedFor(w, id) ==> exists wr <- w.writes :: wr.id == id)
  {
    hide WritesOf, Times, Network.InvAt, Next;
    RunHolds(files, NewWorld(), labels);
    var w := After(files, NewWorld(), labels);
    forall wr | wr in w.writes
      ensures wr.id in w.started && wr.name == w.started[wr.id] && wr.name in files && wr.content == Carried(files[wr.name])
    {
      var i :| 0 <= i < |w.writes| && w.writes[i] == wr;
      InWritesOf(w.writes, i);
      assert Holds(files, w, wr.id);
      InvSays(FileOf(files, wr.name), View(w, wr.id));
    }
    forall i, j | 0 <= i < j < |w.writes|
      ensures w.writes[i].id != w.writes[j].id
    {
      if w.writes[i].id == w.writes[j].id {
        TwoWrites(w.writes, i, j);
        assert w.writes[i] in w.writes;
        assert Holds(files, w, w.writes[i].id);
        InvSays(FileOf(files, w.started[w.writes[i].id]), View(w, w.writes[i].id));
      }
    }
    forall id | id in w.acked
      ensures exists wr <- w.writes :: wr.id == id
    {
      OnceOrMore(w.acked, id);
      assert Holds(files, w, id);
      InvSays(FileOf(files, w.started[id]), View(w, id));
      WriteExists(w.writes, id);
    }
    forall id | id in w.client.receivers && SavedFor(w, id)
      ensures exists wr <- w.writes :: wr.id == id
    {
      assert Holds(files, w, id);
      InvSays(FileOf(files, w.started[id]), View(w, id));
      WriteExists(w.writes, id);
    }
  }

  /** The scheduler is told that the pull was saved. */
  predicate SavedFor(w: World, id: u16)
    requires id in w.client.receivers
  {
    VerdictOf(w.client.receivers[id].receiver) == Some(Scheduler.Saved)
  }

  lemma InvSays(file: Bytes, s: Network.Net)
    requires Network.Inv(file, s)
    ensures |s.writes| <= 1
    ensures forall x <- s.writes :: x == Carried(file)
    ensures s.served > 0 ==> |s.writes| == 1
    ensures s.receiver.Some? && s.receiver.value.outcome == Some(ReceiverMachine.Saved) ==> |s.writes| == 1
  {
    var k: nat :| Network.InvAt(file, k, s);
  }
}
