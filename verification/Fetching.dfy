/** Every file a node serves can be fetched from it, and the serving node keeps account of what it served. */
module Fetching {
  import opened Prelude
  import opened Text
  import opened Segments
  import opened SenderMachine
  import opened ReceiverMachine
  import opened Registry
  import opened ManyTransfers
  import Network
  import Recovery
  import ReceiverLaws
  import WindowSchedule
  import Codec

  // ----- A continuation of one transfer is one of the two nodes

  lemma {:induction false} FromLogOf(log: seq<Packet>, id: u16, d: Datagram)
    requires d in LogOf(log, id) && d != Request
    ensures Carry(id, d) in log
  {
    var last := log[|log| - 1];
    if last != Carry(id, d) {
      FromLogOf(log[..|log| - 1], id, d);
    }
  }

  /** The step of the two nodes that is a given sender tick or delivery of one transfer. */
  function Lifted(id: u16, l: Network.Label): Label
    requires Recovery.Benign(l)
  {
    match l
    case SenderTick(sendDue, ackDue) => ServerTick(id, sendDue, ackDue)
    case DeliverProgress(range) => AckComes(id, Progress(range))
    case DeliverComplete => AckComes(id, Complete)
    case DeliverContent(a) => ContentComes(id, a)
  }

  lemma LiftedIsEnabled(files: map<string, Bytes>, w: World, id: u16, l: Network.Label)
    requires Inv(files, w) && id in w.started
    requires Recovery.Benign(l) && Network.Enabled(View(w, id), l)
    ensures Enabled(w, Lifted(id, l)) && AtRegistries(w, Lifted(id, l))
    ensures AsSingle(files, w, Lifted(id, l)) == l
  {
    hide LogOf, ReceiverLaws.Possible;
    assert Holds(files, w, id);
    SenderIsValid(FileOf(files, w.started[id]), View(w, id));
    match l
    case DeliverProgress(range) => FromLogOf(w.log, id, Progress(range));
    case DeliverComplete => FromLogOf(w.log, id, Complete);
    case DeliverContent(a) => FromLogOf(w.log, id, Content(a.number, a.total, a.data));
    case _ =>
  }

  lemma SenderIsValid(file: Bytes, s: Network.Net)
    requires Network.Inv(file, s)
    ensures s.sender.Some? ==> s.sender.value.Valid()
  {
    var k: nat :| Network.InvAt(file, k, s);
  }

  lemma {:induction false} LiftPath(files: map<string, Bytes>, w: World, id: u16, path: seq<Network.Label>)
      returns (labels: seq<Label>)
    requires Inv(files, w) && id in w.started
    requires forall i :: 0 <= i < |path| ==> Recovery.Benign(path[i])
    requires Network.Legal(FileOf(files, w.started[id]), View(w, id), path)
    ensures Legal(files, w, labels)
    ensures View(After(files, w, labels), id) == Network.After(FileOf(files, w.started[id]), View(w, id), path)
    ensures After(files, w, labels).started == w.started
    decreases |path|
  {
    hide Inv, View, Enabled, Next, Network.Enabled, Network.Next, AtRegistries, AsSingle;
    labels := [];
    if path != [] {
      var l := Lifted(id, path[0]);
      LiftedIsEnabled(files, w, id, path[0]);
      StepIsSingle(files, w, l, id);
      SimulatesItself(files, w, l);
      StepHolds(files, w, l);
      StartedStays(files, w, l);
      var rest := LiftPath(files, Next(files, w, l), id, path[1..]);
      labels := [l] + rest;
      assert labels[1..] == rest;
    }
  }

  lemma SimulatesItself(files: map<string, Bytes>, w: World, l: Label)
    requires Enabled(w, l) && AtRegistries(w, l) && Simulates(files, w, l, l.id)
    ensures View(Next(files, w, l), l.id) ==
      Network.Next(FileOf(files, w.started[l.id]), View(w, l.id), AsSingle(files, w, l))
  {
  }

  // ----- Every served file can be fetched

  const PEER: Addr := Codec.V4(10, 0, 0, 1, 4000)

  /** The pull has started and its request has arrived. */
  function Opening(name: string): seq<Label> {
    [Pull(1, name, PEER), AskArrives(1, name, PEER, None)]
  }

  lemma OpeningServes(files: map<string, Bytes>, name: string)
    requires ValidFilename(name) && name in files
    ensures Legal(files, NewWorld(), Opening(name))
    ensures var w := After(files, NewWorld(), Opening(name));
      && w.started == map[1 := name]
      && View(w, 1) == Network.Init().(sender := Some(NewSender(files[name])))
  {
    hide ValidFilename, NewSender, Legal, After, Next, Enabled;
    var w0, labels := NewWorld(), Opening(name);
    PullOpens(files, name);
    var w1 := Next(files, w0, labels[0]);
    OneLabel(files, w0, labels[0]);
    RequestIsServed(files, name, w1);
    OneLabel(files, w1, labels[1]);
    LegalJoins(files, w0, [labels[0]], [labels[1]]);
    assert labels == [labels[0]] + [labels[1]];
  }

  lemma OneLabel(files: map<string, Bytes>, w: World, l: Label)
    requires Enabled(w, l)
    ensures Legal(files, w, [l]) && After(files, w, [l]) == Next(files, w, l)
  {
    hide Enabled, Next;
    assert [l][1..] == [];
    assert Legal(files, Next(files, w, l), []);
  }

  lemma PullOpens(files: map<string, Bytes>, name: string)
    ensures var w0, l := NewWorld(), Opening(name)[0];
      && Enabled(w0, l)
      && var w1 := Next(files, w0, l);
         && View(w1, 1) == Network.Init() && w1.log == [Ask(1, name)] && w1.started == map[1 := name]
         && w1.server == w0.server
  {
    PullIsInit(NewWorld(), Opening(name)[0], 1);
    assert Next(files, NewWorld(), Opening(name)[0]) == Next(map[], NewWorld(), Opening(name)[0]);
  }

  lemma RequestIsServed(files: map<string, Bytes>, name: string, w1: World)
    requires ValidFilename(name) && name in files
    requires View(w1, 1) == Network.Init() && w1.log == [Ask(1, name)] && w1.started == map[1 := name]
    requires w1.server == NewWorld().server
    ensures var l := Opening(name)[1];
      && Enabled(w1, l)
      && var w2 := Next(files, w1, l);
         w2.started == w1.started && View(w2, 1) == Network.Init().(sender := Some(NewSender(files[name])))
  {
    hide NewSender, LogOf, WritesOf, Times, Serve, ValidFilename;
    ServesExactly(w1.server, files, 1, name, PEER);
    assert w1.log[0] == Ask(1, name);
    assert w1.log + [] == w1.log;
  }

  lemma NewSenderIsAligned(file: Bytes)
    ensures Recovery.Aligned(file, 0, Network.Init().(sender := Some(NewSender(file))))
  {
    var x := NewSender(file);
    Network.InitHolds(file);
    assert WindowSchedule.IsWindow(x.range, 0, x.total);
  }

  lemma {:induction false} LegalJoins(files: map<string, Bytes>, w: World, a: seq<Label>, b: seq<Label>)
    requires Legal(files, w, a) && Legal(files, After(files, w, a), b)
    ensures Legal(files, w, a + b) && After(files, w, a + b) == After(files, After(files, w, a), b)
    decreases |a|
  {
    hide Enabled, Next;
    if a == [] {
      assert a + b == b;
    } else {
      LegalJoins(files, Next(files, w, a[0]), a[1..], b);
      assert (a + b)[1..] == a[1..] + b;
    }
  }

  /** For every valid name of a served file there is a run from the start in which that file is fetched. */
  lemma EveryFileCanBeFetched(files: map<string, Bytes>, name: string) returns (labels: seq<Label>)
    requires ValidFilename(name) && name in files
    ensures Legal(files, NewWorld(), labels)
    ensures exists wr <- After(files, NewWorld(), labels).writes :: wr.name == name && wr.content == Carried(files[name])
  {
    hide ValidFilename, Inv, Recovery.Aligned, Recovery.Reaches, View, Next, Enabled;
    var file, opening := files[name], Opening(name);
    OpeningServes(files, name);
    NewWorldHolds(files);
    RunHolds(files, NewWorld(), opening);
    var w := After(files, NewWorld(), opening);
    NewSenderIsAligned(file);
    var t := Recovery.FinishAligned(file, 0, View(w, 1));
    var path := SomePath(file, View(w, 1), t);
    var rest := LiftPath(files, w, 1, path);
    LegalJoins(files, NewWorld(), opening, rest);
    labels := opening + rest;
    FetchedIsWritten(files, labels, name);
  }

  lemma NewWorldHolds(files: map<string, Bytes>)
    ensures Inv(files, NewWorld())
  {
  }

  lemma SomePath(file: Bytes, s: Network.Net, t: Network.Net) returns (path: seq<Network.Label>)
    requires Recovery.Reaches(file, s, t)
    ensures forall i :: 0 <= i < |path| ==> Recovery.Benign(path[i])
    ensures Network.Legal(file, s, path) && Network.After(file, s, path) == t
  {
    path :| Recovery.Path(file, s, path, t);
  }

  lemma FetchedIsWritten(files: map<string, Bytes>, labels: seq<Label>, name: string)
    requires name in files && Legal(files, NewWorld(), labels)
    requires var w := After(files, NewWorld(), labels);
      w.started == map[1 := name] && View(w, 1).writes == [Carried(files[name])]
    ensures exists wr <- After(files, NewWorld(), labels).writes :: wr.name == name && wr.content == Carried(files[name])
  {
    hide WritesOf;
    var w := After(files, NewWorld(), labels);
    EveryWriteIsTheServedFile(files, labels);
    WriteExists(w.writes, 1);
  }

  // ----- The serving node's account

  /** The file sizes in the `Served` events, in order. */
  function ServedSizes(events: seq<Event>): seq<nat> {
    if events == [] then []
    else
      var last := events[|events| - 1];
      ServedSizes(events[..|events| - 1]) + if last.ServedTo? then [last.bytes] else []
  }

  /** The sizes of the files whose transfers were acknowledged as complete, in order. */
  function AckedSizes(files: map<string, Bytes>, started: map<u16, string>, acked: seq<u16>): seq<nat>
    requires forall id <- acked :: id in started
  {
    seq(|acked|, i requires 0 <= i < |acked| => assert acked[i] in acked; |FileOf(files, started[acked[i]])|)
  }

  function NotFoundEvents(events: seq<Event>): nat {
    if events == [] then 0
    else NotFoundEvents(events[..|events| - 1]) + if events[|events| - 1].NotFoundFor? then 1 else 0
  }

  function NotFoundSent(log: seq<Packet>): nat {
    if log == [] then 0
    else NotFoundSent(log[..|log| - 1]) + if Body(log[|log| - 1]).NotFound? then 1 else 0
  }

  predicate Balanced(files: map<string, Bytes>, w: World)
    requires Named(w)
  {
    && ServedSizes(w.server.events) == AckedSizes(files, w.started, w.acked)
    && NotFoundEvents(w.server.events) == NotFoundSent(w.log)
  }

  lemma OneMoreEvent(events: seq<Event>, e: Event)
    ensures ServedSizes(events + [e]) == ServedSizes(events) + if e.ServedTo? then [e.bytes] else []
    ensures NotFoundEvents(events + [e]) == NotFoundEvents(events) + if e.NotFoundFor? then 1 else 0
  {
    assert (events + [e])[..|events|] == events;
  }

  lemma {:induction false} NoneRefused(log: seq<Packet>, sent: seq<Packet>)
    requires forall p <- sent :: !Body(p).NotFound?
    ensures NotFoundSent(log + sent) == NotFoundSent(log)
  {
    if sent == [] {
      assert log + sent == log;
    } else {
      var front, last := sent[..|sent| - 1], sent[|sent| - 1];
      assert last in sent;
      NoneRefused(log, front);
      assert (log + sent)[..|log + sent| - 1] == log + front;
    }
  }

  lemma OneRefused(log: seq<Packet>, p: Packet)
    requires Body(p).NotFound?
    ensures NotFoundSent(log + [p]) == NotFoundSent(log) + 1
  {
    assert (log + [p])[..|log|] == log;
  }

  lemma AskBalances(files: map<string, Bytes>, w: World, l: Label)
    requires Enabled(w, l) && Named(w) && Balanced(files, w) && Named(Next(files, w, l)) && l.AskArrives?
    ensures Balanced(files, Next(files, w, l))
  {
    hide Named, NewSender, ServedSizes, NotFoundEvents, NotFoundSent, Serve, AckedSizes;
    assert w.log + [] == w.log;
    ServesExactly(w.server, files, l.id, l.name, l.src);
    OneMoreEvent(w.server.events, NotFoundFor(l.src));
    OneRefused(w.log, Carry(l.id, NotFound(false)));
    if l.denied.Some? {
      OneRefused(w.log, Carry(l.id, NotFound(l.denied.value)));
    }
  }

  lemma AckBalances(files: map<string, Bytes>, w: World, l: Label)
    requires Inv(files, w) && Enabled(w, l) && Balanced(files, w) && Named(Next(files, w, l)) && l.AckComes?
    ensures Balanced(files, Next(files, w, l))
  {
    hide Asked, OnProgress, ServedSizes, NotFoundEvents, NotFoundSent, AckArrives, Holds;
    assert w.log + [] == w.log;
    if l.id in w.server.senders {
      AckEndsOrMoves(w.server, l.id, l.ack);
      SenderServesFile(files, w, l.id);
      OneMoreEvent(w.server.events, ServedTo(w.server.senders[l.id].remote, |w.server.senders[l.id].sender.file|));
      OneMoreAcked(files, w.started, w.acked, l.id);
    } else {
      UnknownAck(w.server, l.id, l.ack);
    }
  }

  lemma UnknownAck(reg: Reg, id: u16, ack: Datagram)
    requires (ack.Progress? || ack.Complete?) && id !in reg.senders
    ensures AckArrives(reg, id, ack) == Registry.Outcome(reg, [], None)
  {
  }

  lemma OneMoreAcked(files: map<string, Bytes>, started: map<u16, string>, acked: seq<u16>, id: u16)
    requires (forall other <- acked :: other in started) && id in started
    ensures forall other <- acked + [id] :: other in started
    ensures AckedSizes(files, started, acked + [id]) == AckedSizes(files, started, acked) + [|FileOf(files, started[id])|]
  {
  }

  lemma TickBalances(files: map<string, Bytes>, w: World, l: Label)
    requires Enabled(w, l) && Named(w) && Balanced(files, w) && Named(Next(files, w, l)) && l.ServerTick?
    ensures Balanced(files, Next(files, w, l))
  {
    hide Named, Tick, ServedSizes, NotFoundEvents, NotFoundSent, TickSender, AckedSizes, WrapAll, PacketCount;
    TickSenderMeans(w.server, l.id, l.sendDue, l.ackDue);
    TickRefusesNothing(w.server, l.id, l.sendDue, l.ackDue);
    NoneRefused(w.log, TickSender(w.server, l.id, l.sendDue, l.ackDue).sent);
    OneMoreEvent(w.server.events, SenderFailed(w.server.senders[l.id].remote));
  }

  lemma TickRefusesNothing(reg: Reg, id: u16, sendDue: bool, ackDue: bool)
    requires id in reg.senders && reg.senders[id].sender.Valid()
    ensures forall p <- TickSender(reg, id, sendDue, ackDue).sent :: !Body(p).NotFound?
  {
    hide Tick;
    TickStaysInRange(reg.senders[id].sender, sendDue, ackDue);
  }

  lemma SenderServesFile(files: map<string, Bytes>, w: World, id: u16)
    requires Inv(files, w) && id in w.server.senders
    ensures id in w.started && w.server.senders[id].sender.file == FileOf(files, w.started[id])
  {
    assert Holds(files, w, id);
    SenderHasFile(FileOf(files, w.started[id]), View(w, id));
  }

  lemma SenderHasFile(file: Bytes, s: Network.Net)
    requires Network.Inv(file, s) && s.sender.Some?
    ensures s.sender.value.file == file
  {
    var k: nat :| Network.InvAt(file, k, s);
  }

  lemma ClientBalances(files: map<string, Bytes>, w: World, l: Label)
    requires Inv(files, w) && Enabled(w, l) && Balanced(files, w) && Named(Next(files, w, l))
    requires !l.AckComes? && !l.AskArrives? && !l.ServerTick?
    ensures Balanced(files, Next(files, w, l))
  {
    hide LogOf, WritesOf, Times, Asked, ServedSizes, NotFoundEvents, NotFoundSent, ReceiverLaws.Receive, ReceiverLaws.Possible;
    var w' := Next(files, w, l);
    StepAppends(files, w, l);
    NoneRefused(w.log, w'.log[|w.log|..]);
    assert w.log + w'.log[|w.log|..] == w'.log;
    assert AckedSizes(files, w'.started, w'.acked) == AckedSizes(files, w.started, w.acked);
  }

  lemma StepAppends(files: map<string, Bytes>, w: World, l: Label)
    requires Enabled(w, l) && !l.AckComes? && !l.AskArrives? && !l.ServerTick?
    ensures var w' := Next(files, w, l);
      && w.log <= w'.log && w'.acked == w.acked && w'.server.events == w.server.events
      && (forall p <- w'.log[|w.log|..] :: !Body(p).NotFound?)
  {
    hide ReceiverLaws.Possible;
    if l.ContentComes? && l.id in w.client.receivers {
      ReceiverNeverRefuses(w.client.receivers[l.id].receiver, l.a);
      hide ReceiverLaws.Receive;
    }
  }

  lemma ReceiverNeverRefuses(r: Receiver, a: ReceiverLaws.Arrival)
    requires ReceiverLaws.Possible(r, a)
    ensures forall d <- ReceiverLaws.Receive(r, a).sent :: !d.NotFound?
  {
    hide ReceiverLaws.Possible, RangeComplete;
  }

  lemma {:induction false} RunBalances(files: map<string, Bytes>, w: World, labels: seq<Label>)
    requires Inv(files, w) && Balanced(files, w) && Legal(files, w, labels)
    ensures Inv(files, After(files, w, labels)) && Balanced(files, After(files, w, labels))
    decreases |labels|
  {
    hide Enabled, Next, Balanced, Asked, Holds;
    if labels != [] {
      StepHolds(files, w, labels[0]);
      var l := labels[0];
      if l.AckComes? {
        AckBalances(files, w, l);
      } else if l.AskArrives? {
        AskBalances(files, w, l);
      } else if l.ServerTick? {
        TickBalances(files, w, l);
      } else {
        ClientBalances(files, w, l);
      }
      RunBalances(files, Next(files, w, l), labels[1..]);
    }
  }

  /**
   Over every run the `Served` events are, one for one, the acknowledged transfers with the sizes of
   their files, and there is one NOT_FOUND event for each NOT_FOUND sent.
   */
  lemma EventsMatchAnswers(files: map<string, Bytes>, labels: seq<Label>)
    requires Legal(files, NewWorld(), labels)
    ensures var w := After(files, NewWorld(), labels);
      && (forall id <- w.acked :: id in w.started)
      && ServedSizes(w.server.events) == AckedSizes(files, w.started, w.acked)
      && NotFoundEvents(w.server.events) == NotFoundSent(w.log)
  {
    hide Next, Enabled;
    NewWorldHolds(files);
    RunBalances(files, NewWorld(), labels);
  }
}
