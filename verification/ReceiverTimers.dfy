/** What a receiver does when nothing arrives, what it says once it is finished, and how it ends. */
module ReceiverTimers {
  import opened Prelude
  import opened WindowSchedule
  import opened Segments
  import opened ReceiverMachine
  import opened ReceiverLaws
  import Assembly
  import Registry
  import Scheduler

  /** The deadlines that have passed when a tick comes. */
  datatype Flags = Flags(halfway: bool, firstExpired: bool, quiet: bool)

  /** The receiver after a stretch of ticks, and all it has sent in it. */
  datatype Waited = Waited(receiver: Receiver, sent: seq<Datagram>)

  function Ticks(r: Receiver, ticks: seq<Flags>): Waited {
    if ticks == [] then Waited(r, [])
    else
      var before, t := Ticks(r, ticks[..|ticks| - 1]), ticks[|ticks| - 1];
      var e := OnTick(before.receiver, t.halfway, t.firstExpired, t.quiet);
      Waited(e.receiver, before.sent + e.sent)
  }

  /** Running, and nothing of the file has arrived. */
  predicate Unanswered(r: Receiver) {
    r.outcome.None? && NothingHeld(r)
  }

  /** The request is sent again at the first tick with half of the time over, unless the time was over before. */
  predicate Resends(ticks: seq<Flags>) {
    exists i :: 0 <= i < |ticks| && ticks[i].halfway && forall j :: 0 <= j < i ==> !ticks[j].firstExpired
  }

  /** The time is over at a tick that does not itself send the request again. */
  predicate Expires(ticks: seq<Flags>, resent: bool) {
    exists i :: 0 <= i < |ticks| && ticks[i].firstExpired
      && (resent || !ticks[i].halfway || exists j :: 0 <= j < i && ticks[j].halfway)
  }

  /** What has become of a receiver that nothing was sent to. */
  predicate Awaits(r: Receiver, ticks: seq<Flags>, w: Waited) {
    && w.receiver.packets == map[] && w.receiver.total == r.total && w.receiver.range == r.range
    && w.receiver.retryCount == 0
    && w.sent == (if !r.requestResent && Resends(ticks) then [Request] else [])
    && (if Expires(ticks, r.requestResent) then w.receiver.outcome == Some(Failed) && w.receiver.unresponsive
        else w.receiver.outcome.None? && w.receiver.unresponsive == r.unresponsive)
    && (w.receiver.requestResent <==> r.requestResent || Resends(ticks))
  }

  lemma ResendsSnoc(front: seq<Flags>, last: Flags)
    ensures Resends(front + [last]) <==>
      Resends(front) || (last.halfway && forall j :: 0 <= j < |front| ==> !front[j].firstExpired)
  {
    var ticks := front + [last];
    assert ticks[|front|] == last && forall j :: 0 <= j < |front| ==> ticks[j] == front[j];
  }

  lemma ExpiresSnoc(front: seq<Flags>, last: Flags, resent: bool)
    ensures Expires(front + [last], resent) <==>
      || Expires(front, resent)
      || (last.firstExpired && (resent || !last.halfway || exists j :: 0 <= j < |front| && front[j].halfway))
  {
    var ticks := front + [last];
    assert ticks[|front|] == last && forall j :: 0 <= j < |front| ==> ticks[j] == front[j];
  }

  /** As long as the time is not over, the request has been sent again exactly if half of the time was over at some tick. */
  lemma NotYetExpired(ticks: seq<Flags>, resent: bool)
    requires !Expires(ticks, resent)
    ensures !resent ==> (Resends(ticks) <==> exists j :: 0 <= j < |ticks| && ticks[j].halfway)
    ensures resent ==> forall j :: 0 <= j < |ticks| ==> !ticks[j].firstExpired
    ensures (exists j :: 0 <= j < |ticks| && ticks[j].firstExpired) ==> Resends(ticks)
  {
    if i :| 0 <= i < |ticks| && ticks[i].halfway {
      var first := FirstHalfway(ticks, i);
    }
  }

  lemma FirstHalfway(ticks: seq<Flags>, i: nat) returns (first: nat)
    requires i < |ticks| && ticks[i].halfway
    ensures first < |ticks| && ticks[first].halfway && forall j :: 0 <= j < first ==> !ticks[j].halfway
  {
    first := 0;
    while !ticks[first].halfway
      decreases i - first
      invariant first <= i && forall j :: 0 <= j < first ==> !ticks[j].halfway
    {
      first := first + 1;
    }
  }

  lemma TickWhileWaiting(r: Receiver, t: Flags)
    requires r.outcome.None? && NothingHeld(r)
    ensures var e, resend := OnTick(r, t.halfway, t.firstExpired, t.quiet), !r.requestResent && t.halfway;
      && e.sent == (if resend then [Request] else [])
      && e.receiver == (if t.firstExpired && !resend then r.(unresponsive := true, outcome := Some(Failed))
                        else r.(requestResent := r.requestResent || resend))
  {
    assert forall range: Range :: range.count == 0 ==> RangeComplete(r.packets, range);
  }

  lemma SettledIsQuiet(r: Receiver, t: Flags)
    requires r.outcome.Some?
    ensures OnTick(r, t.halfway, t.firstExpired, t.quiet) == Effect(r, [], None)
  {
  }

  lemma AwaitsMore(r: Receiver, front: seq<Flags>, last: Flags, w: Waited)
    requires Unanswered(r) && Awaits(r, front, w)
    ensures var e := OnTick(w.receiver, last.halfway, last.firstExpired, last.quiet);
      Awaits(r, front + [last], Waited(e.receiver, w.sent + e.sent))
  {
    hide Expires, Resends, OnTick;
    ResendsSnoc(front, last);
    ExpiresSnoc(front, last, r.requestResent);
    assert w.sent + [] == w.sent;
    if Expires(front, r.requestResent) {
      SettledIsQuiet(w.receiver, last);
      ExpiredEarlier(front, last, r.requestResent);
    } else {
      NotYetExpired(front, r.requestResent);
      TickWhileWaiting(w.receiver, last);
    }
  }

  /** Exactly what a receiver does that nothing is sent to: one more request at most, and one failure. */
  lemma {:induction false} SilentSource(r: Receiver, ticks: seq<Flags>)
    requires Unanswered(r)
    ensures Awaits(r, ticks, Ticks(r, ticks))
  {
    hide Awaits, OnTick;
    if ticks == [] {
      NothingAwaited(r);
    } else {
      var front, last := ticks[..|ticks| - 1], ticks[|ticks| - 1];
      SilentSource(r, front);
      assert ticks == front + [last];
      AwaitsMore(r, front, last, Ticks(r, front));
    }
  }

  lemma NothingAwaited(r: Receiver)
    requires Unanswered(r)
    ensures Awaits(r, [], Waited(r, []))
  {
  }

  lemma ExpiredEarlier(front: seq<Flags>, last: Flags, resent: bool)
    requires Expires(front, resent)
    ensures Resends(front + [last]) == Resends(front)
  {
    ResendsSnoc(front, last);
  }

  // ----- Within whole runs

  function Timers(ticks: seq<Flags>): (inputs: seq<Input>)
    ensures |inputs| == |ticks|
  {
    seq(|ticks|, i requires 0 <= i < |ticks| => Timer(ticks[i].halfway, ticks[i].firstExpired, ticks[i].quiet))
  }

  lemma {:induction false} RunThenTicks(inputs: seq<Input>, ticks: seq<Flags>)
    requires RunPossible(inputs)
    ensures RunPossible(inputs + Timers(ticks))
    ensures Run(inputs + Timers(ticks)).receiver == Ticks(Run(inputs).receiver, ticks).receiver
  {
    hide OnTick, Possible;
    if ticks == [] {
      assert inputs + Timers(ticks) == inputs;
    } else {
      var front, last := ticks[..|ticks| - 1], ticks[|ticks| - 1];
      RunThenTicks(inputs, front);
      var before, after := inputs + Timers(front), inputs + Timers(ticks);
      assert after[..|after| - 1] == before;
      assert after[|after| - 1] == Timer(last.halfway, last.firstExpired, last.quiet);
      RunSteps(after);
    }
  }

  predicate TwoExpired(ticks: seq<Flags>) {
    exists i, j :: 0 <= i < j < |ticks| && ticks[i].firstExpired && ticks[j].firstExpired
  }

  lemma TwoAreEnough(ticks: seq<Flags>, resent: bool)
    requires TwoExpired(ticks)
    ensures Expires(ticks, resent)
  {
    var i, j :| 0 <= i < j < |ticks| && ticks[i].firstExpired && ticks[j].firstExpired;
    if !ticks[i].halfway {
    } else {
      assert ticks[i].halfway;
    }
  }

  /**
   In every run: a receiver to which nothing of the file is sent after its request is reported as
   silent after at most two ticks that find the first-response time over.
   */
  lemma SilentSourceIsReported(inputs: seq<Input>, ticks: seq<Flags>)
    requires RunPossible(inputs) && Unanswered(Run(inputs).receiver) && TwoExpired(ticks)
    ensures RunPossible(inputs + Timers(ticks))
    ensures Registry.VerdictOf(Run(inputs + Timers(ticks)).receiver) == Some(Scheduler.Silent)
  {
    hide Ticks, Run, Expires, TwoExpired, Resends;
    RunThenTicks(inputs, ticks);
    SilentSource(Run(inputs).receiver, ticks);
    TwoAreEnough(ticks, Run(inputs).receiver.requestResent);
  }

  predicate SomeHalfway(ticks: seq<Flags>) {
    exists i :: 0 <= i < |ticks| && ticks[i].halfway
  }

  /** A receiver that knows its window but holds nothing of it, after some ticks. */
  ghost predicate StillEmpty(r: Receiver, k: nat, ticks: seq<Flags>, x: Receiver) {
    && x.packets == map[] && x.retryableNotFound == r.retryableNotFound && x.notFound == r.notFound
    && (x.outcome.None? ==>
      && InWindow(x, k) && !Expires(ticks, r.requestResent)
      && x.retryCount == r.retryCount + QuietTicks(ticks)
      && (x.requestResent <==> r.requestResent || SomeHalfway(ticks)))
    && (x.outcome.Some? ==>
      && x.outcome.value == Failed
      && (r.retryCount + QuietTicks(ticks) <= RETRY_LIMIT ==> x.unresponsive))
  }

  lemma SomeHalfwaySnoc(front: seq<Flags>, last: Flags)
    ensures SomeHalfway(front + [last]) <==> SomeHalfway(front) || last.halfway
  {
    var ticks := front + [last];
    assert ticks[|front|] == last && forall j :: 0 <= j < |front| ==> ticks[j] == front[j];
  }

  lemma TickWhileEmpty(r: Receiver, k: nat, t: Flags)
    requires r.outcome.None? && InWindow(r, k) && r.packets == map[]
    ensures var x, resend := OnTick(r, t.halfway, t.firstExpired, t.quiet).receiver, !r.requestResent && t.halfway;
      if t.firstExpired && !resend then x == r.(unresponsive := true, outcome := Some(Failed))
      else
        && x.packets == map[] && x.requestResent == (r.requestResent || resend)
        && x.retryableNotFound == r.retryableNotFound && x.notFound == r.notFound
        && x.retryCount == r.retryCount + (if t.quiet then 1 else 0)
        && (if x.retryCount <= RETRY_LIMIT then x.outcome.None? && InWindow(x, k) else x.outcome == Some(Failed))
  {
    RangeCompleteMeans(r.packets, r.range.value);
    TickInWindow(r, k, t.halfway, t.firstExpired, t.quiet);
  }

  lemma StaysEmpty(r: Receiver, k: nat, front: seq<Flags>, x: Receiver, last: Flags)
    requires r.outcome.None? && InWindow(r, k) && StillEmpty(r, k, front, x)
    ensures StillEmpty(r, k, front + [last], OnTick(x, last.halfway, last.firstExpired, last.quiet).receiver)
  {
    hide InWindow, OnTick, Expires;
    assert (front + [last])[..|front|] == front;
    SomeHalfwaySnoc(front, last);
    ExpiresSnoc(front, last, r.requestResent);
    if x.outcome.Some? {
      SettledIsQuiet(x, last);
    } else {
      TickWhileEmpty(x, k, last);
    }
  }

  lemma {:induction false} EmptyWindowTicks(r: Receiver, k: nat, ticks: seq<Flags>)
    requires r.outcome.None? && InWindow(r, k) && r.packets == map[]
    ensures StillEmpty(r, k, ticks, Ticks(r, ticks).receiver)
  {
    if ticks != [] {
      var front, last := ticks[..|ticks| - 1], ticks[|ticks| - 1];
      hide StillEmpty, InWindow, OnTick;
      EmptyWindowTicks(r, k, front);
      assert ticks == front + [last];
      StaysEmpty(r, k, front, Ticks(r, front).receiver, last);
    }
  }

  /**
   The same of a receiver that has learnt its window from packets it could not use: it is finished,
   and reported as silent unless its quiet retries ran out before.
   */
  lemma EmptyWindowIsReported(inputs: seq<Input>, k: nat, ticks: seq<Flags>)
    requires RunPossible(inputs) && TwoExpired(ticks)
    requires var r := Run(inputs).receiver; r.outcome.None? && InWindow(r, k) && r.packets == map[]
    ensures RunPossible(inputs + Timers(ticks))
    ensures var r, x := Run(inputs).receiver, Run(inputs + Timers(ticks)).receiver;
      && x.outcome == Some(Failed)
      && (r.retryCount + QuietTicks(ticks) <= RETRY_LIMIT ==> Registry.VerdictOf(x) == Some(Scheduler.Silent))
  {
    hide Ticks, Run, Expires, TwoExpired, InWindow, QuietTicks;
    RunThenTicks(inputs, ticks);
    EmptyWindowTicks(Run(inputs).receiver, k, ticks);
    TwoAreEnough(ticks, Run(inputs).receiver.requestResent);
  }

  // ----- A source that falls silent

  function Asked(range: Range, times: nat): (s: seq<Datagram>)
    ensures |s| == times && forall i :: 0 <= i < times ==> s[i] == Progress(range)
  {
    seq(times, _ => Progress(range))
  }

  function QuietTicks(ticks: seq<Flags>): nat {
    if ticks == [] then 0
    else QuietTicks(ticks[..|ticks| - 1]) + if ticks[|ticks| - 1].quiet then 1 else 0
  }

  lemma TickInSilence(r: Receiver, k: nat, t: Flags)
    requires r.outcome.None? && InWindow(r, k) && r.packets != map[]
    ensures OnTick(r, t.halfway, t.firstExpired, t.quiet) ==
      if !t.quiet then Effect(r, [], None)
      else if r.retryCount == RETRY_LIMIT then
        Effect(r.(retryCount := r.retryCount + 1, outcome := Some(Failed)), [], None)
      else Effect(r.(retryCount := r.retryCount + 1), [Progress(r.range.value)], None)
  {
    RangeCompleteMeans(r.packets, r.range.value);
  }

  /** What has become of a receiver in a window whose source fell silent `quiet` quiet deadlines ago. */
  predicate KeptAsking(r: Receiver, quiet: nat, w: Waited)
    requires r.range.Some?
  {
    if r.retryCount + quiet <= 8 then
      w == Waited(r.(retryCount := r.retryCount + quiet), Asked(r.range.value, quiet))
    else
      && r.retryCount <= 8
      && w == Waited(r.(retryCount := 9, outcome := Some(Failed)),
                     Asked(r.range.value, 8 - r.retryCount))
  }

  lemma OneMoreAsked(range: Range, times: nat)
    ensures Asked(range, times) + [Progress(range)] == Asked(range, times + 1)
    ensures Asked(range, times) + [] == Asked(range, times)
  {
  }

  /**
   When a source falls silent in the middle the receiver asks again for its window at every quiet
   deadline, eight times in all since it entered the window, and fails at the next.
   */
  lemma {:induction false} FallsSilent(r: Receiver, k: nat, ticks: seq<Flags>)
    requires r.outcome.None? && InWindow(r, k) && r.packets != map[] && r.range.Some?
    ensures KeptAsking(r, QuietTicks(ticks), Ticks(r, ticks))
  {
    hide InWindow, OnTick, KeptAsking;
    InWindowHasRetries(r, k);
    if ticks == [] {
      NothingAsked(r);
    } else {
      var front, last := ticks[..|ticks| - 1], ticks[|ticks| - 1];
      FallsSilent(r, k, front);
      KeepsAsking(r, k, QuietTicks(front), Ticks(r, front), last);
    }
  }

  lemma KeepsAsking(r: Receiver, k: nat, quiet: nat, w: Waited, t: Flags)
    requires r.outcome.None? && InWindow(r, k) && r.packets != map[] && r.range.Some?
    requires KeptAsking(r, quiet, w)
    ensures var e := OnTick(w.receiver, t.halfway, t.firstExpired, t.quiet);
      KeptAsking(r, quiet + if t.quiet then 1 else 0, Waited(e.receiver, w.sent + e.sent))
  {
    hide InWindow, OnTick, Asked;
    InWindowHasRetries(r, k);
    OneMoreAsked(r.range.value, quiet);
    if w.receiver.outcome.Some? {
      SettledIsQuiet(w.receiver, t);
      OneMoreAsked(r.range.value, RETRY_LIMIT - r.retryCount);
    } else {
      SameWindow(r, k, quiet);
      TickInSilence(w.receiver, k, t);
    }
  }

  lemma NothingAsked(r: Receiver)
    requires r.range.Some? && r.retryCount <= RETRY_LIMIT
    ensures KeptAsking(r, 0, Waited(r, []))
  {
  }

  lemma InWindowHasRetries(r: Receiver, k: nat)
    requires InWindow(r, k)
    ensures r.retryCount <= RETRY_LIMIT && r.range.Some?
  {
  }

  lemma SameWindow(r: Receiver, k: nat, quiet: nat)
    requires InWindow(r, k) && r.retryCount + quiet <= RETRY_LIMIT
    ensures InWindow(r.(retryCount := r.retryCount + quiet), k)
  {
    var p: u16 :| Start(k) <= p <= End(k, r.total.value) && p !in r.packets;
    assert p !in r.(retryCount := r.retryCount + quiet).packets;
  }

  // ----- What a finished receiver still says

  /** A saved receiver answers every packet with COMPLETE and nothing else; a failed one is mute. */
  lemma FinishedReceiverReplies(r: Receiver, i: Input)
    requires r.outcome.Some? && InputPossible(r, i)
    ensures Feed(r, i).sent == if i.Packet? && r.outcome.value == Saved then [Complete] else []
    ensures Feed(r, i).written.None? && (!i.Refused? ==> Feed(r, i).receiver == r)
  {
    hide Possible, Finish, Advance;
  }

  // ----- How a run ends

  /** After a refusal the scheduler is told so, whatever else arrives, unless the source was silent to the end. */
  lemma {:induction false} RefusalDecides(inputs: seq<Input>, retryable: bool, more: seq<Input>)
    requires RunPossible(inputs) && RunPossible(inputs + [Refused(retryable)] + more)
    requires forall i <- more :: !i.Refused?
    ensures Registry.VerdictOf(Run(inputs + [Refused(retryable)] + more).receiver) ==
      Some(if Run(inputs).receiver.unresponsive then Scheduler.Silent
           else if retryable then Scheduler.NotReady else Scheduler.Missing)
    decreases |more|
  {
    hide Feed, InputPossible, Run;
    var all := inputs + [Refused(retryable)] + more;
    RunSteps(all);
    if more == [] {
      assert all[..|all| - 1] == inputs;
      RefusedMeans(Run(inputs).receiver, retryable);
    } else {
      var front, last := more[..|more| - 1], more[|more| - 1];
      assert all[..|all| - 1] == inputs + [Refused(retryable)] + front;
      PrefixIsPossible(all);
      RefusalDecides(inputs, retryable, front);
      FinishedReceiverReplies(Run(inputs + [Refused(retryable)] + front).receiver, last);
    }
  }

  lemma PrefixIsPossible(inputs: seq<Input>)
    requires RunPossible(inputs) && inputs != []
    ensures RunPossible(inputs[..|inputs| - 1])
  {
  }

  lemma RefusedMeans(r: Receiver, retryable: bool)
    ensures var r' := Feed(r, Refused(retryable)).receiver;
      && r'.outcome == Some(Failed) && r'.unresponsive == r.unresponsive
      && r'.retryableNotFound == retryable && r'.notFound == !retryable
  {
  }

  /** The last packet: the file is written and COMPLETE sent, or, if the write fails, nothing is sent and the pull has failed. */
  lemma LastPacketEnds(r: Receiver, k: nat, a: Arrival)
    requires r.outcome.None? && InWindow(r, k) && Possible(r, a) && Fresh(r, a.number) && Completes(r, a.number)
    requires !r.unresponsive && !r.notFound && !r.retryableNotFound
    ensures var e := Receive(r, a);
      && e.receiver.packets == r.packets[a.number := a.data]
      && Registry.VerdictOf(e.receiver) == Some(if a.writeOk then Scheduler.Saved else Scheduler.Broken)
      && e.written.Some? == a.writeOk
      && e.sent == if a.writeOk then [Complete] else []
  {
    hide Possible, InWindow;
    ReceiveLast(r, k, a);
  }

  predicate Recorded(r: Receiver, e: Effect) {
    e.receiver.savedBytes == if e.written.Some? then Some(|e.written.value|) else r.savedBytes
  }

  lemma FinishRecords(r: Receiver, order: seq<u16>, writeOk: bool)
    requires Assembly.Copyable(order, r.packets)
    ensures Recorded(r, Finish(r, order, writeOk))
  {
  }

  lemma AdvanceRecords(r: Receiver, range: Range, n: u16, order: seq<u16>, writeOk: bool)
    requires Assembly.Copyable(order, r.packets)
    ensures Recorded(r, Advance(r, range, n, order, writeOk))
  {
    hide Finish;
    FinishRecords(r, order, writeOk);
  }

  lemma ContentRecords(r: Receiver, a: Arrival)
    requires Possible(r, a)
    ensures Recorded(r, Receive(r, a))
  {
    hide Receive, Finish, Advance, LearnTotal, Possible;
    ContentCases(r, a);
    var learnt := LearnTotal(r, a.total);
    if a.number >= 1 {
      var held := learnt.(packets := learnt.packets[a.number := a.data]);
      FinishRecords(held, a.order, a.writeOk);
      if learnt.range.Some? && learnt.total.Some? {
        AdvanceRecords(held, learnt.range.value, learnt.total.value, a.order, a.writeOk);
      }
    }
  }

  lemma WriteIsRecorded(r: Receiver, i: Input)
    requires InputPossible(r, i)
    ensures Recorded(r, Feed(r, i))
  {
    hide Possible, Receive, RangeComplete;
    match i
    case Packet(a) => ContentRecords(r, a);
    case _ =>
  }

  /** The size reported for a pull is that of the file it wrote. */
  lemma {:induction false} SavedBytesAreWritten(inputs: seq<Input>)
    requires RunPossible(inputs)
    ensures var h := Run(inputs);
      && |h.writes| <= 1
      && h.receiver.savedBytes == if h.writes == [] then None else Some(|h.writes[0]|)
    decreases |inputs|
  {
    hide InputPossible, Feed, Accounted, Possible;
    EveryRunWritesOnce(inputs);
    if inputs != [] {
      var front := inputs[..|inputs| - 1];
      PrefixIsPossible(inputs);
      SavedBytesAreWritten(front);
      RunSteps(inputs);
      WriteIsRecorded(Run(front).receiver, inputs[|inputs| - 1]);
    }
  }

  lemma EveryRunWritesOnce(inputs: seq<Input>)
    requires RunPossible(inputs)
    ensures |Run(inputs).writes| <= 1
  {
    hide Run;
    EveryRun(inputs);
  }
}
