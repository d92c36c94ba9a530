/** What holds of a receiver whatever packets arrive: any numbers, any totals, any payloads. */
module ReceiverLaws {
  import opened Prelude
  import opened WindowSchedule
  import opened Segments
  import opened Assembly
  import opened ReceiverMachine

  /** `r` is in window `k`: everything below it is held, something in it is missing, nothing above is held. */
  ghost predicate InWindow(r: Receiver, k: nat) {
    && r.total.Some? && r.total.value >= 1
    && r.range.Some? && IsWindow(r.range.value, k, r.total.value)
    && (forall p :: p in r.packets ==> 1 <= p <= End(k, r.total.value))
    && (forall p: u16 :: 1 <= p < Start(k) ==> p in r.packets)
    && (exists p: u16 :: Start(k) <= p <= End(k, r.total.value) && p !in r.packets)
    && r.retryCount <= RETRY_LIMIT
  }

  /** No content packet has been accepted yet; a declared total of 0 keeps it so for ever. */
  predicate NothingHeld(r: Receiver) {
    && r.packets == map[] && r.retryCount == 0
    && match r.total
       case None => r.range.None?
       case Some(n) => n == 0 && r.range == Some(Range(1, 0))
  }

  ghost predicate Running(r: Receiver) {
    r.outcome.None? && (NothingHeld(r) || exists k: nat :: InWindow(r, k))
  }

  /** Every packet 1..total is held and nothing else. */
  predicate HoldsAll(r: Receiver) {
    && r.total.Some? && r.total.value >= 1
    && forall p: u16 :: p in r.packets <==> 1 <= p <= r.total.value
  }

  ghost predicate Coherent(r: Receiver) {
    && 0 !in r.packets
    && (r.outcome.None? ==> Running(r))
    && (r.outcome == Some(Saved) ==> HoldsAll(r))
  }

  // ----- Counting packets

  function UpTo(n: u16): (s: set<u16>)
    ensures forall p: u16 :: p in s <==> 1 <= p <= n
    ensures |s| == n
  {
    if n == 0 then {} else UpTo(n - 1) + {n}
  }

  /** `packets.len() >= total` says that nothing is missing. */
  lemma CountIsFull(packets: Packets, n: u16)
    requires forall p :: p in packets ==> 1 <= p <= n
    ensures |packets| <= n
    ensures |packets| >= n <==> forall p: u16 :: 1 <= p <= n ==> p in packets
  {
    assert packets.Keys <= UpTo(n);
    SubsetCount(packets.Keys, UpTo(n));
    if forall p: u16 :: 1 <= p <= n ==> p in packets {
      assert packets.Keys == UpTo(n);
    }
  }

  // ----- One content packet

  /** The arguments of a content packet and the choices made for it. */
  datatype Arrival = Arrival(number: u16, total: u16, data: Bytes, order: seq<u16>, writeOk: bool)

  ghost predicate Possible(r: Receiver, a: Arrival) {
    && (a.number >= 1 ==> Copyable(a.order, r.packets[a.number := a.data]))
    && Enumerates(a.order, r.packets.Keys + {a.number})
  }

  function Receive(r: Receiver, a: Arrival): Effect
    requires a.number >= 1 ==> Copyable(a.order, r.packets[a.number := a.data])
  {
    OnContent(r, a.number, a.total, a.data, a.order, a.writeOk)
  }

  /** Every way a content packet can be taken. */
  lemma ContentCases(r: Receiver, a: Arrival)
    requires Possible(r, a)
    ensures var e, learnt := Receive(r, a), LearnTotal(r, a.total);
      && learnt.packets == r.packets && learnt.savedBytes == r.savedBytes && learnt.unresponsive == r.unresponsive
      && (a.number >= 1 ==> Copyable(a.order, r.packets[a.number := a.data]))
      && if r.outcome.Some? then e.receiver == r && e.written.None?
         else if a.number == 0 then e.receiver == learnt && e.written.None?
         else
           var held := learnt.(packets := learnt.packets[a.number := a.data]);
           || ((e.receiver == learnt || e.receiver == held) && e.written.None?)
           || e == Finish(held, a.order, a.writeOk)
           || (learnt.range.Some? && learnt.total.Some?
               && e == Advance(held, learnt.range.value, learnt.total.value, a.order, a.writeOk))
  {
    hide RangeComplete, Finish, Advance, Copyable, Enumerates;
  }

  /** A packet that is in the window and not held. */
  predicate Fresh(r: Receiver, number: u16) {
    && r.range.Some? && number !in r.packets
    && r.range.value.start <= number < r.range.value.start + r.range.value.count
  }

  lemma RangeCompleteMeans(packets: Packets, r: Range)
    requires r.start + r.count <= 0x1_0000
    ensures RangeComplete(packets, r) <==> forall p: u16 :: r.start <= p < r.start + r.count ==> p in packets
  {
    if RangeComplete(packets, r) {
      forall p: u16 | r.start <= p < r.start + r.count
        ensures p in packets
      {
        assert Trunc16(p) == p;
      }
    } else {
      var pn :| r.start <= pn < r.start + r.count && Trunc16(pn) !in packets;
      assert Trunc16(pn) == pn;
    }
  }

  /** With packet `number` the whole file is held. */
  predicate Completes(r: Receiver, number: u16)
    requires r.total.Some?
  {
    forall p: u16 :: 1 <= p <= r.total.value ==> p in r.packets || p == number
  }

  /** With packet `number` the whole window `k` is held. */
  predicate Closes(r: Receiver, k: nat, number: u16)
    requires r.total.Some?
  {
    forall p: u16 :: Start(k) <= p <= End(k, r.total.value) ==> p in r.packets || p == number
  }

  function Hold(r: Receiver, a: Arrival): Receiver {
    r.(packets := r.packets[a.number := a.data])
  }

  /** A packet that is not fresh changes nothing; if it is below or above the window it is answered with a nudge. */
  lemma ReceiveStale(r: Receiver, k: nat, a: Arrival)
    requires r.outcome.None? && InWindow(r, k) && Possible(r, a)
    requires !Fresh(r, a.number)
    ensures Receive(r, a) == Effect(r,
      if 1 <= a.number < Start(k) || End(k, r.total.value) < a.number <= r.total.value
      then [Progress(r.range.value)] else [], None)
  {
  }

  lemma ReceiveLast(r: Receiver, k: nat, a: Arrival)
    requires r.outcome.None? && InWindow(r, k) && Possible(r, a)
    requires Fresh(r, a.number) && Completes(r, a.number)
    ensures Receive(r, a) == Finish(Hold(r, a), a.order, a.writeOk)
    ensures HoldsAll(Hold(r, a))
  {
    CountIsFull(r.packets[a.number := a.data], r.total.value);
  }

  /** In `advance` no subtraction wraps and no cast truncates: the range asked for is window `k + 1`. */
  lemma AdvanceIsNextWindow(r: Receiver, k: nat, n: u16, range: Range, order: seq<u16>, writeOk: bool)
    requires Copyable(order, r.packets)
    requires IsWindow(range, k, n) && End(k, n) < n
    ensures var next := Range(Start(k + 1), End(k + 1, n) - Start(k + 1) + 1);
      && IsWindow(next, k + 1, n) && next.count >= 1
      && Advance(r, range, n, order, writeOk)
         == Effect(r.(range := Some(next), retryCount := 0), [Progress(next)], None)
  {
    NextWindow(k, n, range);
    assert Sub32(n + 1, range.start + range.count) == n + 1 - (range.start + range.count);
  }

  lemma ReceiveAdvances(r: Receiver, k: nat, a: Arrival)
    requires r.outcome.None? && InWindow(r, k) && Possible(r, a)
    requires Fresh(r, a.number) && !Completes(r, a.number) && Closes(r, k, a.number)
    ensures End(k, r.total.value) < r.total.value
    ensures Receive(r, a) == Advance(Hold(r, a), r.range.value, r.total.value, a.order, a.writeOk)
    ensures forall p: u16 :: 1 <= p <= End(k, r.total.value) ==> p in Hold(r, a).packets
  {
    var n := r.total.value;
    var packets := r.packets[a.number := a.data];
    CountIsFull(packets, n);
    RangeCompleteMeans(packets, r.range.value);
    var p: u16 :| 1 <= p <= n && !(p in r.packets || p == a.number);
    assert p !in packets && p > End(k, n);
  }

  /** The packet that closes a window which is not the last. */
  lemma ReceiveWindowEnd(r: Receiver, k: nat, a: Arrival)
    requires r.outcome.None? && InWindow(r, k) && Possible(r, a)
    requires Fresh(r, a.number) && !Completes(r, a.number) && Closes(r, k, a.number)
    ensures var n := r.total.value;
      var next := Range(Start(k + 1), End(k + 1, n) - Start(k + 1) + 1);
      && End(k, n) < n && IsWindow(next, k + 1, n) && next.count >= 1
      && Receive(r, a) == Effect(Hold(r, a).(range := Some(next), retryCount := 0), [Progress(next)], None)
      && InWindow(Receive(r, a).receiver, k + 1)
  {
    ReceiveAdvances(r, k, a);
    AdvanceIsNextWindow(Hold(r, a), k, r.total.value, r.range.value, a.order, a.writeOk);
    NowInNextWindow(Hold(r, a), k, Receive(r, a).receiver);
  }

  lemma NowInNextWindow(r: Receiver, k: nat, r': Receiver)
    requires r.total.Some? && r.range.Some? && IsWindow(r.range.value, k, r.total.value)
    requires End(k, r.total.value) < r.total.value
    requires forall p :: p in r.packets ==> 1 <= p <= End(k, r.total.value)
    requires forall p: u16 :: 1 <= p <= End(k, r.total.value) ==> p in r.packets
    requires r'.packets == r.packets && r'.total == r.total && r'.retryCount == 0
    requires r'.range.Some? && IsWindow(r'.range.value, k + 1, r.total.value)
    ensures InWindow(r', k + 1)
  {
    StartMonotone(k, k + 1);
    var first: u16 := Start(k + 1);
    assert Start(k + 1) == End(k, r.total.value) + 1;
    assert first !in r'.packets;
  }

  lemma ReceiveMore(r: Receiver, k: nat, a: Arrival)
    requires r.outcome.None? && InWindow(r, k) && Possible(r, a)
    requires Fresh(r, a.number) && !Closes(r, k, a.number)
    ensures Receive(r, a) == Effect(Hold(r, a), [], None)
    ensures InWindow(Hold(r, a), k)
  {
    var packets := r.packets[a.number := a.data];
    CountIsFull(packets, r.total.value);
    RangeCompleteMeans(packets, r.range.value);
    var p: u16 :| Start(k) <= p <= End(k, r.total.value) && !(p in r.packets || p == a.number);
    assert p !in packets;
  }

  /** The four cases together: what is held, and which window the receiver is in afterwards. */
  lemma ReceiveInWindow(r: Receiver, k: nat, a: Arrival)
    requires r.outcome.None? && InWindow(r, k) && Possible(r, a)
    ensures var e := Receive(r, a);
      && e.receiver.total == r.total
      && (e.receiver.outcome.None? ==>
        && e.written.None?
        && ((InWindow(e.receiver, k) && e.receiver.retryCount == r.retryCount)
            || (InWindow(e.receiver, k + 1))))
      && (e.receiver.outcome.Some? ==> HoldsAll(e.receiver) && (e.written.Some? <==> e.receiver.outcome.value == Saved))
  {
    if !Fresh(r, a.number) {
      ReceiveStale(r, k, a);
    } else if Completes(r, a.number) {
      ReceiveLast(r, k, a);
    } else if Closes(r, k, a.number) {
      ReceiveWindowEnd(r, k, a);
    } else {
      ReceiveMore(r, k, a);
    }
  }

  /** The first packet of a running receiver that holds nothing. */
  lemma ReceiveFirst(r: Receiver, a: Arrival)
    requires r.outcome.None? && NothingHeld(r) && Possible(r, a)
    ensures var e := Receive(r, a);
      var r' := LearnTotal(r, a.total);
      if r'.total.value == 0 then
        e == Effect(r', [], None) && NothingHeld(e.receiver)
      else
        InWindow(r', 0) && r'.outcome.None? && e == Receive(r', a)
  {
    var r' := LearnTotal(r, a.total);
    if r'.total.value != 0 {
      assert IsWindow(r'.range.value, 0, r'.total.value);
      assert 1 !in r'.packets;
    }
  }

  /** Content packets of any kind keep a receiver coherent; once it has an outcome they change nothing. */
  lemma ContentKeepsCoherent(r: Receiver, a: Arrival)
    requires Coherent(r) && Possible(r, a)
    ensures Coherent(Receive(r, a).receiver)
    ensures r.outcome.Some? ==> Receive(r, a).receiver == r && Receive(r, a).written.None?
  {
    if r.outcome.None? {
      if NothingHeld(r) {
        ReceiveFirst(r, a);
        var r' := LearnTotal(r, a.total);
        if r'.total.value != 0 {
          ReceiveInWindow(r', 0, a);
        }
      } else {
        var k: nat :| InWindow(r, k);
        ReceiveInWindow(r, k, a);
      }
    }
  }

  /** What a tick does to a receiver in a window: nothing, one re-request, or failure. */
  lemma TickInWindow(r: Receiver, k: nat, halfway: bool, firstExpired: bool, quiet: bool)
    requires r.outcome.None? && InWindow(r, k)
    ensures var e := OnTick(r, halfway, firstExpired, quiet);
      && e.written.None? && e.receiver.packets == r.packets
      && (e.receiver.outcome.None? ==>
        && InWindow(e.receiver, k)
        && e.receiver.retryCount == r.retryCount + (if quiet then 1 else 0)
        && e.sent == (if e.receiver.requestResent && !r.requestResent then [Request] else [])
                     + (if quiet then [Progress(r.range.value)] else []))
      && (e.receiver.outcome.Some? ==> e.receiver.outcome.value == Failed && forall d :: d in e.sent ==> d.Request?)
  {
    RangeCompleteMeans(r.packets, r.range.value);
  }

  lemma TickKeepsCoherent(r: Receiver, halfway: bool, firstExpired: bool, quiet: bool)
    requires Coherent(r)
    ensures var e := OnTick(r, halfway, firstExpired, quiet);
      && Coherent(e.receiver) && e.written.None?
      && (r.outcome.Some? ==> e == Effect(r, [], None))
  {
    if r.outcome.None? && !NothingHeld(r) {
      var k: nat :| InWindow(r, k);
      TickInWindow(r, k, halfway, firstExpired, quiet);
    }
  }

  // ----- Whole runs

  datatype Input =
    | Packet(a: Arrival)
    | Timer(halfway: bool, firstExpired: bool, quiet: bool)
    | Refused(retryable: bool)

  ghost predicate InputPossible(r: Receiver, i: Input) {
    i.Packet? ==> Possible(r, i.a)
  }

  function Feed(r: Receiver, i: Input): Effect
    requires i.Packet? && i.a.number >= 1 ==> Copyable(i.a.order, r.packets[i.a.number := i.a.data])
  {
    match i
    case Packet(a) => Receive(r, a)
    case Timer(halfway, firstExpired, quiet) => OnTick(r, halfway, firstExpired, quiet)
    case Refused(retryable) => Effect(OnNotFound(r, retryable), [], None)
  }

  /** What a run leaves behind: the receiver, its file writes, its re-requests and the quiet expiries it met in a window. */
  datatype History = History(receiver: Receiver, writes: seq<Bytes>, reRequests: nat, expiries: nat)

  ghost predicate RunPossible(inputs: seq<Input>)
    decreases |inputs|, 0
  {
    inputs == [] ||
    (var front := inputs[..|inputs| - 1];
     RunPossible(front) && InputPossible(Run(front).receiver, inputs[|inputs| - 1]))
  }

  ghost function Run(inputs: seq<Input>): (h: History)
    requires RunPossible(inputs)
    decreases |inputs|, 1
  {
    if inputs == [] then History(NewReceiver(), [], 0, 0)
    else
      var i := inputs[|inputs| - 1];
      var h := Run(inputs[..|inputs| - 1]);
      var e := Feed(h.receiver, i);
      var expired := i.Timer? && i.quiet && h.receiver.outcome.None? && !NothingHeld(h.receiver);
      History(
        e.receiver,
        if e.written.Some? then h.writes + [e.written.value] else h.writes,
        h.reRequests + (if i.Timer? && exists r :: Progress(r) in e.sent then 1 else 0),
        h.expiries + (if expired then 1 else 0))
  }

  /**
   Every run: the receiver is coherent, it has written at most one file, and if it is still
   running it has written none. Re-requests are paid for by windows: at most 8 for each one
   finished, and as many as `retryCount` shows for the one it is in.
   */
  ghost predicate Accounted(h: History) {
    && Coherent(h.receiver)
    && |h.writes| <= 1
    && (h.receiver.outcome.None? ==> h.writes == [] && h.expiries == h.reRequests)
    && (h.receiver.outcome == Some(Saved) ==> |h.writes| == 1)
    && (h.reRequests <= h.expiries <= h.reRequests + 1)
    && (h.receiver.total.None? || h.receiver.total.value == 0 ==> h.expiries == 0)
    && (h.receiver.total.Some? && h.receiver.total.value >= 1 ==>
      if h.receiver.outcome.None?
      then exists k: nat :: InWindow(h.receiver, k) && h.reRequests <= RETRY_LIMIT * k + h.receiver.retryCount
      else h.reRequests <= RETRY_LIMIT * WindowCount(h.receiver.total.value))
  }

  lemma RequestsWithinWindows(n: u16, k: nat, r: Receiver, requests: nat)
    requires InWindow(r, k) && r.total == Some(n)
    requires requests <= RETRY_LIMIT * k + r.retryCount
    ensures requests <= RETRY_LIMIT * WindowCount(n)
  {
    WindowsTile(k, n);
    assert RETRY_LIMIT * (k + 1) <= RETRY_LIMIT * WindowCount(n);
  }

  lemma NewIsAccounted()
    ensures Accounted(History(NewReceiver(), [], 0, 0))
  {
  }

  lemma {:induction false} EveryRun(inputs: seq<Input>)
    requires RunPossible(inputs)
    ensures Accounted(Run(inputs))
    decreases |inputs|
  {
    hide Accounted, Possible, OnContent;
    if inputs == [] {
      NewIsAccounted();
    } else {
      var front := inputs[..|inputs| - 1];
      EveryRun(front);
      var i := inputs[|inputs| - 1];
      match i
      case Packet(a) => AfterPacket(Run(front), a, Run(inputs));
      case Timer(x, y, z) => AfterTimer(Run(front), x, y, z, Run(inputs));
      case Refused(x) => AfterRefusal(Run(front), x, Run(inputs));
    }
  }

  lemma AfterPacket(h: History, a: Arrival, h': History)
    requires Accounted(h) && Possible(h.receiver, a)
    requires var e := Receive(h.receiver, a);
      h' == h.(receiver := e.receiver, writes := if e.written.Some? then h.writes + [e.written.value] else h.writes)
    ensures Accounted(h')
  {
    var r := h.receiver;
    ContentKeepsCoherent(r, a);
    if r.outcome.None? {
      var k: nat;
      var at: Receiver;
      if NothingHeld(r) {
        ReceiveFirst(r, a);
        k, at := 0, LearnTotal(r, a.total);
      } else {
        k :| InWindow(r, k) && h.reRequests <= RETRY_LIMIT * k + r.retryCount;
        at := r;
      }
      if at.total.value != 0 {
        ReceiveInWindow(at, k, a);
        RequestsWithinWindows(at.total.value, k, at, h.reRequests);
        assert RETRY_LIMIT * (k + 1) == RETRY_LIMIT * k + RETRY_LIMIT;
      }
    }
  }

  lemma AfterTimer(h: History, halfway: bool, firstExpired: bool, quiet: bool, h': History)
    requires Accounted(h)
    requires var e := OnTick(h.receiver, halfway, firstExpired, quiet);
      && h'.receiver == e.receiver && h'.writes == h.writes
      && h'.reRequests == h.reRequests + (if exists r :: Progress(r) in e.sent then 1 else 0)
      && h'.expiries == h.expiries
         + (if quiet && h.receiver.outcome.None? && !NothingHeld(h.receiver) then 1 else 0)
    ensures Accounted(h')
  {
    var r := h.receiver;
    TickKeepsCoherent(r, halfway, firstExpired, quiet);
    if r.outcome.None? && !NothingHeld(r) {
      var k: nat :| InWindow(r, k) && h.reRequests <= RETRY_LIMIT * k + r.retryCount;
      TickInWindow(r, k, halfway, firstExpired, quiet);
      RequestsWithinWindows(r.total.value, k, r, h.reRequests);
      var e := OnTick(r, halfway, firstExpired, quiet);
      if quiet && e.receiver.outcome.None? {
        assert Progress(r.range.value) in e.sent;
      }
    }
  }

  lemma AfterRefusal(h: History, retryable: bool, h': History)
    requires Accounted(h)
    requires h' == h.(receiver := OnNotFound(h.receiver, retryable))
    ensures Accounted(h')
  {
    var r := h.receiver;
    if r.outcome.None? && !NothingHeld(r) {
      var k: nat :| InWindow(r, k) && h.reRequests <= RETRY_LIMIT * k + r.retryCount;
      RequestsWithinWindows(r.total.value, k, r, h.reRequests);
    }
  }

  /** Termination: however packets arrive, re-requests and quiet expiries in a window are bounded by the packet count. */
  lemma QuietPeriodsAreBounded(inputs: seq<Input>)
    requires RunPossible(inputs)
    ensures var h := Run(inputs);
      && (h.expiries > 0 ==> h.receiver.total.Some? && h.receiver.total.value >= 1)
      && (h.receiver.total.Some? && h.receiver.total.value >= 1 ==>
        && h.reRequests <= 8 * WindowCount(h.receiver.total.value)
        && h.expiries <= 8 * WindowCount(h.receiver.total.value) + 1)
  {
    EveryRun(inputs);
    var h := Run(inputs);
    if h.receiver.total.Some? && h.receiver.total.value >= 1 && h.receiver.outcome.None? {
      var k: nat :| InWindow(h.receiver, k) && h.reRequests <= RETRY_LIMIT * k + h.receiver.retryCount;
      RequestsWithinWindows(h.receiver.total.value, k, h.receiver, h.reRequests);
    }
  }

  /** Content packets and timers never change an outcome. */
  lemma OutcomeIsFinal(r: Receiver, i: Input)
    requires Coherent(r) && InputPossible(r, i) && !i.Refused? && r.outcome.Some?
    ensures Feed(r, i).receiver.outcome == r.outcome && Feed(r, i).written.None?
  {
  }

  /** A saved file's receiver stays saved until the first NOT_FOUND, and is a failed one from then on. */
  lemma {:induction false} SavedUntilRefused(inputs: seq<Input>, more: seq<Input>)
    requires RunPossible(inputs + more) && RunPossible(inputs)
    requires Run(inputs).receiver.outcome == Some(Saved)
    ensures Run(inputs + more).receiver.outcome == Some(if exists i <- more :: i.Refused? then Failed else Saved)
    decreases |more|
  {
    hide Coherent, Feed, InputPossible;
    if more == [] {
      assert inputs + more == inputs;
    } else {
      var front, last := more[..|more| - 1], more[|more| - 1];
      assert (inputs + more)[..|inputs + more| - 1] == inputs + front;
      assert more == front + [last];
      SavedUntilRefused(inputs, front);
      EveryRun(inputs + front);
      RunSteps(inputs + more);
      AfterOutcome(Run(inputs + front).receiver, last);
    }
  }

  lemma RunSteps(inputs: seq<Input>)
    requires RunPossible(inputs) && inputs != []
    ensures var front, last := inputs[..|inputs| - 1], inputs[|inputs| - 1];
      InputPossible(Run(front).receiver, last) && Run(inputs).receiver == Feed(Run(front).receiver, last).receiver
  {
  }

  lemma AfterOutcome(r: Receiver, i: Input)
    requires Coherent(r) && InputPossible(r, i) && r.outcome.Some?
    ensures Feed(r, i).receiver.outcome == if i.Refused? then Some(Failed) else r.outcome
  {
    if !i.Refused? {
      OutcomeIsFinal(r, i);
    }
  }
}
