/**
 `FaultInjector`: the outgoing datagram path with drops, duplicates, a delay queue, one-slot
 reordering and bursts. Rolls and socket errors are nondeterministic. `tag` (the position of a
 datagram among all offered) and the sequences `offered`, `out`, `lost` and `errors` are
 history, kept only to say what happened to which datagram.
 */
module FaultChannel {
  import opened Prelude

  const HOLD_MAX := 50  // milliseconds

  type Time = nat

  datatype Packet = Packet(tag: nat, bytes: seq<byte>, dst: nat)

  datatype Timed = Timed(at: Time, packet: Packet)

  datatype Config = Config(
    started: Time, dropPct: nat, dupPct: nat, reorderPct: nat, delayMs: nat, burstEveryMs: nat, burstDurMs: nat)

  datatype Injector = Injector(
    config: Config,
    held: Option<Timed>,
    delayed: seq<Timed>,
    dropped: nat,
    emitted: nat,
    offered: seq<Packet>,
    out: seq<Packet>,
    lost: seq<Packet>,
    errors: seq<Packet>,
    extra: nat)

  /** What a roll with `pct` percent may answer. */
  predicate RollMay(pct: nat, answer: bool) {
    (pct >= 100 ==> answer) && (pct == 0 ==> !answer)
  }

  predicate InBurst(c: Config, now: Time) {
    c.burstEveryMs != 0 && (Max(now - c.started, 0) as nat) % c.burstEveryMs < c.burstDurMs
  }

  /** The rolls and the socket's answer for one copy. */
  datatype CopyFate = CopyFate(drop: bool, sent: bool)

  datatype Fate = Fate(dup: bool, first: CopyFate, second: CopyFate)

  predicate FateMay(c: Config, f: Fate) {
    RollMay(c.dupPct, f.dup) && RollMay(c.dropPct, f.first.drop) && RollMay(c.dropPct, f.second.drop)
  }

  function Transmit(s: Injector, p: Packet, sent: bool): Injector {
    if sent then s.(out := s.out + [p], emitted := s.emitted + 1)
    else s.(errors := s.errors + [p])
  }

  function Lose(s: Injector, p: Packet): Injector {
    s.(lost := s.lost + [p], dropped := s.dropped + 1)
  }

  function OneCopy(s: Injector, p: Packet, now: Time, f: CopyFate): Injector {
    if s.config.dropPct > 0 && f.drop then Lose(s, p)
    else if s.config.delayMs > 0 then s.(delayed := s.delayed + [Timed(now + s.config.delayMs, p)])
    else Transmit(s, p, f.sent)
  }

  function Pipeline(s: Injector, p: Packet, now: Time, f: Fate): Injector {
    if s.config.dupPct > 0 && f.dup
    then OneCopy(OneCopy(s, p, now, f.first), p, now, f.second).(extra := s.extra + 1)
    else OneCopy(s, p, now, f.first)
  }

  /** Rolls for one `send`: whether to hold the datagram, and the fates of it and of the one held before. */
  datatype SendFate = SendFate(hold: bool, own: Fate, other: Fate)

  predicate SendFateMay(c: Config, f: SendFate) {
    RollMay(c.reorderPct, f.hold) && FateMay(c, f.own) && FateMay(c, f.other)
  }

  function Send(s: Injector, bytes: seq<byte>, dst: nat, now: Time, f: SendFate): Injector {
    var p := Packet(|s.offered|, bytes, dst);
    var s := s.(offered := s.offered + [p]);
    if InBurst(s.config, now) then Lose(s, p)
    else if s.config.reorderPct > 0 && s.held.Some? then
      Pipeline(Pipeline(s.(held := None), p, now, f.own), s.held.value.packet, now, f.other)
    else if s.config.reorderPct > 0 && f.hold then s.(held := Some(Timed(now, p)))
    else Pipeline(s, p, now, f.own)
  }

  /** How many datagrams at the front of the delay queue are due. */
  function DueCount(delayed: seq<Timed>, now: Time): (n: nat)
    ensures n <= |delayed|
    ensures forall i :: 0 <= i < n ==> delayed[i].at <= now
    ensures n < |delayed| ==> delayed[n].at > now
  {
    if delayed == [] || delayed[0].at > now then 0 else 1 + DueCount(delayed[1..], now)
  }

  /** The first `n` datagrams of the delay queue handed to the socket, which gives `answers`. */
  function Released(s: Injector, n: nat, answers: seq<bool>): (t: Injector)
    requires n <= |s.delayed|
    ensures t.delayed == s.delayed[n..] && t.held == s.held && t.config == s.config
  {
    if n == 0 then s
    else
      var u := Released(s, n - 1, answers);
      Transmit(u.(delayed := u.delayed[1..]), u.delayed[0].packet, n - 1 < |answers| && answers[n - 1])
  }

  function ReleaseHeld(s: Injector, now: Time, sent: bool): Injector {
    if s.held.Some? && now >= s.held.value.at + HOLD_MAX
    then Transmit(s.(held := None), s.held.value.packet, sent)
    else s
  }

  function Drain(s: Injector, now: Time, answers: seq<bool>, heldSent: bool): Injector {
    ReleaseHeld(Released(s, DueCount(s.delayed, now), answers), now, heldSent)
  }

  // ----- The class

  class FaultInjector {
    const config: Config
    var held: Option<Timed>
    var delayed: seq<Timed>
    var dropped: nat
    var emitted: nat
    ghost var offered: seq<Packet>
    ghost var out: seq<Packet>
    ghost var lost: seq<Packet>
    ghost var errors: seq<Packet>
    ghost var extra: nat
    var nextTag: nat

    ghost function State(): Injector
      reads this
    {
      Injector(config, held, delayed, dropped, emitted, offered, out, lost, errors, extra)
    }

    ghost predicate Valid()
      reads this
    {
      nextTag == |offered|
    }

    constructor (config: Config)
      ensures Valid() && State() == Fresh(config)
    {
      this.config := config;
      held, delayed, dropped, emitted, nextTag := None, [], 0, 0, 0;
      offered, out, lost, errors, extra := [], [], [], [], 0;
    }

    method Roll(pct: nat) returns (answer: bool)
      ensures RollMay(pct, answer)
    {
      answer := *;
      if pct >= 100 {
        answer := true;
      } else if pct == 0 {
        answer := false;
      }
    }

    method SendTo(p: Packet) returns (ghost sent: bool)
      requires Valid()
      modifies this
      ensures Valid() && State() == Transmit(old(State()), p, sent)
    {
      var ok: bool := *;
      sent := ok;
      if ok {
        out := out + [p];
        emitted := emitted + 1;
      } else {
        errors := errors + [p];
      }
    }

    method PipelineCopy(p: Packet, now: Time) returns (ghost fate: CopyFate)
      requires Valid()
      modifies this
      ensures Valid() && RollMay(config.dropPct, fate.drop) && State() == OneCopy(old(State()), p, now, fate)
    {
      var drop := Roll(config.dropPct);
      fate := CopyFate(drop, false);
      if config.dropPct > 0 && drop {
        dropped := dropped + 1;
        lost := lost + [p];
        return;
      }
      if config.delayMs > 0 {
        delayed := delayed + [Timed(now + config.delayMs, p)];
      } else {
        ghost var sent := SendTo(p);
        fate := CopyFate(drop, sent);
      }
    }

    method RunPipeline(p: Packet, now: Time) returns (ghost fate: Fate)
      requires Valid()
      modifies this
      ensures Valid() && FateMay(config, fate) && State() == Pipeline(old(State()), p, now, fate)
    {
      var dup := Roll(config.dupPct);
      ghost var first := PipelineCopy(p, now);
      fate := Fate(dup, first, first);
      if config.dupPct > 0 && dup {
        ghost var second := PipelineCopy(p, now);
        extra := extra + 1;
        fate := Fate(dup, first, second);
      }
    }

    method SendDatagram(bytes: seq<byte>, dst: nat, now: Time) returns (ghost fate: SendFate)
      requires Valid()
      modifies this
      ensures Valid() && SendFateMay(config, fate) && State() == Send(old(State()), bytes, dst, now, fate)
    {
      var p := Packet(nextTag, bytes, dst);
      nextTag := nextTag + 1;
      offered := offered + [p];
      var hold := Roll(config.reorderPct);
      ghost var drop := config.dropPct > 0;
      ghost var any := Fate(config.dupPct > 0, CopyFate(drop, false), CopyFate(drop, false));
      fate := SendFate(hold, any, any);
      if InBurst(config, now) {
        dropped := dropped + 1;
        lost := lost + [p];
        return;
      }
      if config.reorderPct > 0 {
        if held.Some? {
          var other := held.value.packet;
          held := None;
          ghost var own := RunPipeline(p, now);
          ghost var second := RunPipeline(other, now);
          fate := SendFate(hold, own, second);
          return;
        }
        if hold {
          held := Some(Timed(now, p));
          return;
        }
      }
      ghost var own := RunPipeline(p, now);
      fate := SendFate(hold, own, any);
    }

    method ReleaseDue(now: Time) returns (ghost answers: seq<bool>)
      requires Valid()
      modifies this
      ensures Valid() && State() == Released(old(State()), DueCount(old(delayed), now), answers)
    {
      hide DueCount, Released;
      answers := [];
      ghost var start := State();
      NoneReleased(start, answers);
      DueStep(delayed, now);
      while delayed != [] && delayed[0].at <= now
        invariant Valid()
        invariant |answers| <= |start.delayed| && State() == Released(start, |answers|, answers)
        invariant |answers| + DueCount(delayed, now) == DueCount(start.delayed, now)
        decreases |delayed|
      {
        var p := delayed[0].packet;
        delayed := delayed[1..];
        ghost var sent := SendTo(p);
        OneMoreReleased(start, |answers|, answers, sent);
        DueStep(delayed, now);
        answers := answers + [sent];
      }
    }

    method DrainDue(now: Time) returns (ghost answers: seq<bool>, ghost heldSent: bool)
      requires Valid()
      modifies this
      ensures Valid() && State() == Drain(old(State()), now, answers, heldSent)
    {
      heldSent := false;
      answers := ReleaseDue(now);
      if held.Some? && now >= held.value.at + HOLD_MAX {
        var p := held.value.packet;
        held := None;
        heldSent := SendTo(p);
      }
    }
  }

  lemma DueStep(delayed: seq<Timed>, now: Time)
    ensures DueCount(delayed, now) ==
      if delayed == [] || delayed[0].at > now then 0 else 1 + DueCount(delayed[1..], now)
  {
  }

  lemma NoneReleased(s: Injector, answers: seq<bool>)
    ensures Released(s, 0, answers) == s
  {
  }

  lemma OneMoreReleased(s: Injector, n: nat, answers: seq<bool>, sent: bool)
    requires n < |s.delayed| && n == |answers|
    ensures var u := Released(s, n, answers);
      Released(s, n + 1, answers + [sent]) == Transmit(u.(delayed := u.delayed[1..]), s.delayed[n].packet, sent)
  {
    AnswersSoFar(s, n, answers, sent);
  }

  lemma {:induction false} AnswersSoFar(s: Injector, n: nat, answers: seq<bool>, next: bool)
    requires n <= |s.delayed| && n <= |answers|
    ensures Released(s, n, answers + [next]) == Released(s, n, answers)
  {
    if n > 0 {
      AnswersSoFar(s, n - 1, answers, next);
    }
  }

  // ----- Conservation

  function Fresh(config: Config): Injector {
    Injector(config, None, [], 0, 0, [], [], [], [], 0)
  }

  function Waiting(delayed: seq<Timed>): seq<Packet> {
    seq(|delayed|, i requires 0 <= i < |delayed| => delayed[i].packet)
  }

  function HeldPackets(s: Injector): seq<Packet> {
    if s.held.Some? then [s.held.value.packet] else []
  }

  /** Every copy in existence, wherever it went. */
  function Copies(s: Injector): multiset<Packet> {
    multiset(s.out) + multiset(s.lost) + multiset(s.errors) + multiset(Waiting(s.delayed)) + multiset(HeldPackets(s))
  }

  /** `c` holds one or two copies of every offered datagram and of no other. */
  ghost predicate CopiesOf(c: multiset<Packet>, offered: seq<Packet>, extra: nat) {
    && |c| == |offered| + extra
    && (forall p :: p in c <==> p in offered)
    && (forall p :: c[p] <= 2)
  }

  predicate Tagged(offered: seq<Packet>) {
    forall i :: 0 <= i < |offered| ==> offered[i].tag == i
  }

  ghost predicate Conserved(s: Injector) {
    && s.dropped == |s.lost| && s.emitted == |s.out|
    && Tagged(s.offered)
    && CopiesOf(Copies(s), s.offered, s.extra)
    && (s.held.Some? ==> Copies(s)[s.held.value.packet] == 1)
  }

  lemma LosingCopies(s: Injector, p: Packet)
    ensures Copies(Lose(s, p)) == Copies(s) + multiset{p}
  {
  }

  lemma DelayingCopies(s: Injector, t: Timed)
    ensures Copies(s.(delayed := s.delayed + [t])) == Copies(s) + multiset{t.packet}
  {
    assert Waiting(s.delayed + [t]) == Waiting(s.delayed) + [t.packet];
  }

  lemma TransmittingCopies(s: Injector, p: Packet, sent: bool)
    ensures Copies(Transmit(s, p, sent)) == Copies(s) + multiset{p}
  {
  }

  lemma CopyCopies(s: Injector, p: Packet, now: Time, f: CopyFate)
    ensures var t := OneCopy(s, p, now, f);
      && t.offered == s.offered && t.held == s.held && t.extra == s.extra && t.config == s.config
      && Copies(t) == Copies(s) + multiset{p}
      && t.dropped - |t.lost| == s.dropped - |s.lost| && t.emitted - |t.out| == s.emitted - |s.out|
  {
    hide Copies;
    LosingCopies(s, p);
    DelayingCopies(s, Timed(now + s.config.delayMs, p));
    TransmittingCopies(s, p, f.sent);
  }

  /** One pass through the pipeline adds one copy, or two and counts the extra one; nothing else moves. */
  lemma PipelineCopies(s: Injector, p: Packet, now: Time, f: Fate)
    ensures var t := Pipeline(s, p, now, f);
      && t.offered == s.offered && t.held == s.held && t.config == s.config
      && s.extra <= t.extra <= s.extra + 1
      && Copies(t) == Copies(s) + (if t.extra == s.extra then multiset{p} else multiset{p, p})
      && t.dropped - |t.lost| == s.dropped - |s.lost| && t.emitted - |t.out| == s.emitted - |s.out|
  {
    hide OneCopy, Copies;
    var one := OneCopy(s, p, now, f.first);
    CopyCopies(s, p, now, f.first);
    CopyCopies(one, p, now, f.second);
    CopiesIgnoreCounters(OneCopy(one, p, now, f.second), s.extra + 1);
  }

  lemma CopiesIgnoreCounters(s: Injector, extra: nat)
    ensures Copies(s.(extra := extra)) == Copies(s)
  {
  }

  lemma CopiesIgnoreOffered(s: Injector, offered: seq<Packet>)
    ensures Copies(s.(offered := offered)) == Copies(s)
  {
  }

  lemma HoldingCopies(s: Injector, t: Timed)
    requires s.held.None?
    ensures Copies(s.(held := Some(t))) == Copies(s) + multiset{t.packet}
  {
  }

  lemma NewCopies(c: multiset<Packet>, offered: seq<Packet>, extra: nat, p: Packet, twice: bool)
    requires CopiesOf(c, offered, extra) && Tagged(offered) && p.tag == |offered|
    ensures Tagged(offered + [p]) && p !in c
    ensures CopiesOf(c + (if twice then multiset{p, p} else multiset{p}), offered + [p], extra + if twice then 1 else 0)
  {
    assert p !in offered;
  }

  lemma MoreCopies(c: multiset<Packet>, offered: seq<Packet>, extra: nat, p: Packet)
    requires CopiesOf(c, offered, extra) && c[p] == 1
    ensures CopiesOf(c + multiset{p}, offered, extra + 1)
  {
  }

  lemma SendConserves(s: Injector, bytes: seq<byte>, dst: nat, now: Time, f: SendFate)
    requires Conserved(s)
    ensures Conserved(Send(s, bytes, dst, now, f))
  {
    hide Copies, CopiesOf, Tagged, Pipeline;
    var p := Packet(|s.offered|, bytes, dst);
    var s1 := s.(offered := s.offered + [p]);
    var t := Send(s, bytes, dst, now, f);
    CopiesIgnoreOffered(s, s1.offered);
    NewCopies(Copies(s), s.offered, s.extra, p, false);
    NewCopies(Copies(s), s.offered, s.extra, p, true);
    if InBurst(s.config, now) {
      LosingCopies(s1, p);
    } else if s.config.reorderPct > 0 && s.held.Some? {
      SendSwaps(s, s1, p, now, f);
    } else if s.config.reorderPct > 0 && f.hold {
      HoldingCopies(s1, Timed(now, p));
    } else {
      PipelineCopies(s1, p, now, f.own);
    }
  }

  lemma SendSwaps(s: Injector, s1: Injector, p: Packet, now: Time, f: SendFate)
    requires Conserved(s) && s.held.Some? && s1 == s.(offered := s.offered + [p]) && p.tag == |s.offered|
    ensures Conserved(Pipeline(Pipeline(s1.(held := None), p, now, f.own), s.held.value.packet, now, f.other))
  {
    hide Copies, CopiesOf, Tagged, Pipeline;
    var h := s.held.value.packet;
    var s2 := s1.(held := None);
    CopiesIgnoreOffered(s, s1.offered);
    HoldingCopies(s2, s.held.value);
    assert s1 == s2.(held := Some(s.held.value));
    var s3 := Pipeline(s2, p, now, f.own);
    PipelineCopies(s2, p, now, f.own);
    PipelineCopies(s3, h, now, f.other);
    var twice := s3.extra != s.extra;
    var c := Copies(s) + if twice then multiset{p, p} else multiset{p};
    NewCopies(Copies(s), s.offered, s.extra, p, twice);
    assert c == Copies(s3) + multiset{h};
    var t := Pipeline(s3, h, now, f.other);
    if t.extra == s3.extra {
      assert Copies(t) == c;
    } else {
      assert Copies(t) == c + multiset{h};
      MoreCopies(c, s1.offered, s3.extra, h);
    }
  }

  lemma FrontCopies(s: Injector)
    requires s.delayed != []
    ensures Copies(s) == Copies(s.(delayed := s.delayed[1..])) + multiset{s.delayed[0].packet}
  {
    assert Waiting(s.delayed) == [s.delayed[0].packet] + Waiting(s.delayed[1..]);
  }

  lemma {:induction false} ReleaseConserves(s: Injector, n: nat, answers: seq<bool>)
    requires Conserved(s) && n <= |s.delayed|
    ensures Conserved(Released(s, n, answers))
  {
    hide Copies, CopiesOf, Tagged;
    if n > 0 {
      ReleaseConserves(s, n - 1, answers);
      var u := Released(s, n - 1, answers);
      FrontCopies(u);
      TransmittingCopies(u.(delayed := u.delayed[1..]), u.delayed[0].packet, n - 1 < |answers| && answers[n - 1]);
    }
  }

  lemma DrainConserves(s: Injector, now: Time, answers: seq<bool>, heldSent: bool)
    requires Conserved(s)
    ensures Conserved(Drain(s, now, answers, heldSent))
  {
    hide Copies, CopiesOf, Tagged, Released;
    ReleaseConserves(s, DueCount(s.delayed, now), answers);
    var s1 := Released(s, DueCount(s.delayed, now), answers);
    if s1.held.Some? && now >= s1.held.value.at + HOLD_MAX {
      var s2 := s1.(held := None);
      HoldingCopies(s2, s1.held.value);
      assert s1 == s2.(held := Some(s1.held.value));
      TransmittingCopies(s2, s1.held.value.packet, heldSent);
    }
  }

  // ----- The delay queue

  /** Due times never decrease along the queue and none is further away than the fixed latency. */
  ghost predicate Queued(s: Injector, clock: Time) {
    && (forall i, j :: 0 <= i < j < |s.delayed| ==> s.delayed[i].at <= s.delayed[j].at)
    && (forall i :: 0 <= i < |s.delayed| ==> s.delayed[i].at <= clock + s.config.delayMs)
  }

  lemma SendQueues(s: Injector, bytes: seq<byte>, dst: nat, clock: Time, now: Time, f: SendFate)
    requires Queued(s, clock) && clock <= now
    ensures Queued(Send(s, bytes, dst, now, f), now)
  {
    hide Queued, Pipeline, InBurst;
    var p := Packet(|s.offered|, bytes, dst);
    var s1 := s.(offered := s.offered + [p]);
    QueuedDependsOnQueue(s, s1, clock, now);
    QueuedDependsOnQueue(s, Lose(s1, p), clock, now);
    QueuedDependsOnQueue(s, s1.(held := None), clock, now);
    QueuedDependsOnQueue(s, s1.(held := Some(Timed(now, p))), clock, now);
    PipelineQueues(s1, p, now, f.own);
    if s.held.Some? {
      var s2 := s1.(held := None);
      PipelineQueues(s2, p, now, f.own);
      PipelineQueues(Pipeline(s2, p, now, f.own), s.held.value.packet, now, f.other);
    }
  }

  lemma QueuedDependsOnQueue(s: Injector, t: Injector, clock: Time, now: Time)
    requires Queued(s, clock) && clock <= now && t.delayed == s.delayed && t.config == s.config
    ensures Queued(t, now)
  {
  }

  lemma PipelineQueues(s: Injector, p: Packet, now: Time, f: Fate)
    requires Queued(s, now)
    ensures Queued(Pipeline(s, p, now, f), now)
  {
  }

  /** Neither in the delay queue nor in the reorder slot. */
  predicate NothingDue(s: Injector, now: Time) {
    && (forall i :: 0 <= i < |s.delayed| ==> now < s.delayed[i].at)
    && (s.held.Some? ==> now < s.held.value.at + HOLD_MAX)
  }

  /** After a drain nothing that was due is left. */
  lemma DrainLeavesNothingDue(s: Injector, clock: Time, now: Time, answers: seq<bool>, heldSent: bool)
    requires Queued(s, clock) && clock <= now
    ensures var t := Drain(s, now, answers, heldSent);
      Queued(t, now) && t.config == s.config && NothingDue(t, now)
  {
    hide Released;
    var n := DueCount(s.delayed, now);
    var t := Drain(s, now, answers, heldSent);
    assert t.delayed == s.delayed[n..];
    forall i | 0 <= i < |t.delayed|
      ensures t.delayed[i].at > now
    {
      assert t.delayed[i] == s.delayed[n + i];
    }
  }

  // ----- Reordering

  /** Reordering is the only fault switched on. */
  predicate OnlyReorders(c: Config) {
    c.dropPct == 0 && c.dupPct == 0 && c.delayMs == 0 && c.burstEveryMs == 0
  }

  /** `b` is `a` with some disjoint pairs of neighbours swapped. */
  predicate Swapped<T(==)>(a: seq<T>, b: seq<T>) {
    if a == [] || b == [] then a == b
    else
      var m, n := |a|, |b|;
      || (a[m - 1] == b[n - 1] && Swapped(a[..m - 1], b[..n - 1]))
      || (m >= 2 && n >= 2 && a[m - 1] == b[n - 2] && a[m - 2] == b[n - 1] && Swapped(a[..m - 2], b[..n - 2]))
  }

  lemma SwappedOneMore<T>(a: seq<T>, b: seq<T>, x: T)
    requires Swapped(a, b)
    ensures Swapped(a + [x], b + [x])
  {
    assert (a + [x])[..|a|] == a && (b + [x])[..|b|] == b;
  }

  lemma SwappedTwoMore<T>(a: seq<T>, b: seq<T>, x: T, y: T)
    requires Swapped(a, b)
    ensures Swapped(a + [x] + [y], b + [y] + [x])
  {
    var c, d := a + [x] + [y], b + [y] + [x];
    assert c[..|c| - 2] == a && d[..|d| - 2] == b;
  }

  /** Unless the socket fails, what went out is what was offered, up to the swaps; the last one may be held. */
  ghost predicate Reordered(s: Injector) {
    && s.delayed == [] && (s.held.Some? ==> s.config.reorderPct > 0)
    && (s.errors == [] ==> Ordered(s.offered, s.held, s.out))
  }

  ghost predicate Ordered(offered: seq<Packet>, held: Option<Timed>, out: seq<Packet>) {
    if held.None? then Swapped(offered, out)
    else offered != [] && offered[|offered| - 1] == held.value.packet && Swapped(offered[..|offered| - 1], out)
  }

  /** With no drops, duplicates, delay or bursts a datagram goes straight to the socket. */
  lemma PipelineTransmits(s: Injector, p: Packet, now: Time, f: Fate)
    requires OnlyReorders(s.config) && FateMay(s.config, f)
    ensures Pipeline(s, p, now, f) == Transmit(s, p, f.first.sent)
  {
  }

  lemma SendReorders(s: Injector, bytes: seq<byte>, dst: nat, now: Time, f: SendFate)
    requires OnlyReorders(s.config) && SendFateMay(s.config, f) && Reordered(s)
    ensures Reordered(Send(s, bytes, dst, now, f))
  {
    hide Pipeline, FateMay, Swapped;
    var p := Packet(|s.offered|, bytes, dst);
    var s1 := s.(offered := s.offered + [p]);
    PipelineTransmits(s1, p, now, f.own);
    if s.held.Some? {
      var s2 := s1.(held := None);
      PipelineTransmits(s2, p, now, f.own);
      PipelineTransmits(Pipeline(s2, p, now, f.own), s.held.value.packet, now, f.other);
    }
    if s.errors == [] {
      OneMoreInOrder(s.offered, s.held, s.out, p, now);
    }
  }

  lemma OneMoreInOrder(offered: seq<Packet>, held: Option<Timed>, out: seq<Packet>, p: Packet, now: Time)
    requires Ordered(offered, held, out)
    ensures held.None? ==> Ordered(offered + [p], None, out + [p]) && Ordered(offered + [p], Some(Timed(now, p)), out)
    ensures held.Some? ==> Ordered(offered + [p], None, out + [p] + [held.value.packet])
  {
    hide Swapped;
    assert (offered + [p])[..|offered|] == offered;
    if held.None? {
      SwappedOneMore(offered, out, p);
    } else {
      var front := offered[..|offered| - 1];
      assert offered == front + [held.value.packet];
      SwappedTwoMore(front, out, held.value.packet, p);
    }
  }

  lemma HeldComesLast(offered: seq<Packet>, held: Option<Timed>, out: seq<Packet>)
    requires Ordered(offered, held, out) && held.Some?
    ensures Swapped(offered, out + [held.value.packet])
  {
    hide Swapped;
    var front := offered[..|offered| - 1];
    assert offered == front + [held.value.packet];
    SwappedOneMore(front, out, held.value.packet);
  }

  lemma DrainReorders(s: Injector, now: Time, answers: seq<bool>, heldSent: bool)
    requires Reordered(s)
    ensures Reordered(Drain(s, now, answers, heldSent))
  {
    hide Swapped;
    assert Released(s, 0, answers) == s;
    if s.errors == [] && s.held.Some? {
      HeldComesLast(s.offered, s.held, s.out);
    }
  }

  // ----- Whole runs

  datatype Step =
    | Offer(bytes: seq<byte>, dst: nat, now: Time, fate: SendFate)
    | Release(now: Time, answers: seq<bool>, heldSent: bool)

  function Run(config: Config, steps: seq<Step>): Injector {
    if steps == [] then Fresh(config)
    else
      var s := Run(config, steps[..|steps| - 1]);
      match steps[|steps| - 1]
      case Offer(bytes, dst, now, fate) => Send(s, bytes, dst, now, fate)
      case Release(now, answers, heldSent) => Drain(s, now, answers, heldSent)
  }

  /** The clock never goes back and the rolls are possible ones. */
  predicate Possible(config: Config, steps: seq<Step>) {
    && (forall i, j :: 0 <= i < j < |steps| ==> steps[i].now <= steps[j].now)
    && (forall i :: 0 <= i < |steps| && steps[i].Offer? ==> SendFateMay(config, steps[i].fate))
  }

  function Clock(steps: seq<Step>): Time {
    if steps == [] then 0 else steps[|steps| - 1].now
  }

  ghost predicate Lawful(config: Config, steps: seq<Step>, s: Injector) {
    && s.config == config && Conserved(s) && Queued(s, Clock(steps))
    && (steps != [] && steps[|steps| - 1].Release? ==> NothingDue(s, Clock(steps)))
    && (OnlyReorders(config) ==> Reordered(s))
  }

  lemma ConfigIsFixed(s: Injector, bytes: seq<byte>, dst: nat, now: Time, f: SendFate)
    ensures Send(s, bytes, dst, now, f).config == s.config
  {
    hide InBurst, Pipeline;
    var s1 := s.(offered := s.offered + [Packet(|s.offered|, bytes, dst)]);
    PipelineKeepsConfig(s1, Packet(|s.offered|, bytes, dst), now, f.own);
    if s.held.Some? {
      var s2 := s1.(held := None);
      PipelineKeepsConfig(s2, Packet(|s.offered|, bytes, dst), now, f.own);
      PipelineKeepsConfig(Pipeline(s2, Packet(|s.offered|, bytes, dst), now, f.own), s.held.value.packet, now, f.other);
    }
  }

  lemma PipelineKeepsConfig(s: Injector, p: Packet, now: Time, f: Fate)
    ensures Pipeline(s, p, now, f).config == s.config
  {
  }

  lemma {:induction false} RunHolds(config: Config, steps: seq<Step>)
    requires Possible(config, steps)
    ensures Lawful(config, steps, Run(config, steps))
  {
    hide Conserved, Queued, Reordered, OnlyReorders, Send, Drain, NothingDue, SendFateMay;
    if steps == [] {
      FreshIsLawful(config);
    } else {
      var front := steps[..|steps| - 1];
      RunHolds(config, front);
      var s := Run(config, front);
      match steps[|steps| - 1]
      case Offer(bytes, dst, now, fate) =>
        SendConserves(s, bytes, dst, now, fate);
        SendQueues(s, bytes, dst, Clock(front), now, fate);
        ConfigIsFixed(s, bytes, dst, now, fate);
        if OnlyReorders(config) {
          SendReorders(s, bytes, dst, now, fate);
        }
      case Release(now, answers, heldSent) =>
        DrainConserves(s, now, answers, heldSent);
        DrainLeavesNothingDue(s, Clock(front), now, answers, heldSent);
        if OnlyReorders(config) {
          DrainReorders(s, now, answers, heldSent);
        }
    }
  }

  lemma FreshIsLawful(config: Config)
    ensures Lawful(config, [], Fresh(config))
  {
  }

  /**
   The channel law, over every run: all datagrams offered and all extra copies are accounted for,
   and whatever comes out was offered and comes out at most twice.
   */
  lemma ChannelLaw(config: Config, steps: seq<Step>)
    requires Possible(config, steps)
    ensures var s := Run(config, steps);
      && |s.offered| + s.extra
         == s.dropped + s.emitted + |s.delayed| + (if s.held.Some? then 1 else 0) + |s.errors|
      && (forall p :: p in s.offered <==> p in Copies(s))
      && (forall p :: p in s.out ==> p.tag < |s.offered| && s.offered[p.tag] == p)
      && (forall p :: multiset(s.out)[p] <= 2)
  {
    RunHolds(config, steps);
    var s := Run(config, steps);
    forall p | p in s.out
      ensures p.tag < |s.offered| && s.offered[p.tag] == p
    {
      assert p in Copies(s);
      var i :| 0 <= i < |s.offered| && s.offered[i] == p;
    }
    forall p
      ensures multiset(s.out)[p] <= 2
    {
      assert multiset(s.out)[p] <= Copies(s)[p];
    }
  }

  /** With reordering alone and a socket that works, the output is the input up to disjoint adjacent swaps. */
  lemma ReorderingOnlySwapsNeighbours(config: Config, steps: seq<Step>)
    requires Possible(config, steps) && OnlyReorders(config)
    ensures var s := Run(config, steps);
      s.errors == [] ==> Swapped(s.offered, s.out + HeldPackets(s))
  {
    hide Swapped, Conserved;
    RunHolds(config, steps);
    var s := Run(config, steps);
    if s.errors == [] {
      if s.held.Some? {
        HeldComesLast(s.offered, s.held, s.out);
      } else {
        assert s.out + [] == s.out;
      }
    }
  }

  /** Nothing due survives a drain. */
  lemma NothingDueSurvives(config: Config, steps: seq<Step>)
    requires Possible(config, steps) && steps != [] && steps[|steps| - 1].Release?
    ensures NothingDue(Run(config, steps), steps[|steps| - 1].now)
  {
    RunHolds(config, steps);
  }

  // ----- The wake-up time

  /** `next_deadline` before it is clamped to the future. */
  function NextDeadline(s: Injector): Option<Time> {
    if s.delayed != [] then Some(s.delayed[0].at)
    else if s.held.Some? then Some(s.held.value.at + HOLD_MAX)
    else None
  }

  /** `t` is the first time at which a drain has something to release. */
  ghost predicate IsFirstRelease(s: Injector, t: Time) {
    && (forall i :: 0 <= i < |s.delayed| ==> t <= s.delayed[i].at)
    && (s.held.Some? ==> t <= s.held.value.at + HOLD_MAX)
    && ((exists i :: 0 <= i < |s.delayed| && s.delayed[i].at == t)
        || (s.held.Some? && s.held.value.at + HOLD_MAX == t))
  }

  /** The wake-up time is the time of the first release, if there is anything to release. */
  ghost predicate WakesInTime(s: Injector) {
    (s.delayed == [] && s.held.None?) || (NextDeadline(s).Some? && IsFirstRelease(s, NextDeadline(s).value))
  }

  lemma OnlyHeldIsOverlooked(s: Injector, clock: Time)
    requires Queued(s, clock)
    ensures WakesInTime(s) <==>
      (s.delayed == [] || s.held.None? || s.delayed[0].at <= s.held.value.at + HOLD_MAX)
  {
    if s.delayed != [] {
      assert s.delayed[0].at == NextDeadline(s).value;
    }
  }

  predicate AlwaysInBurst(c: Config) {
    c.burstEveryMs != 0 && c.burstDurMs >= c.burstEveryMs
  }

  /** No delayed datagram is due later than the fixed latency after the held one came in. */
  predicate HeldIsNewest(s: Injector) {
    && (s.held.Some? ==> s.config.reorderPct > 0)
    && (s.held.Some? ==> forall i :: 0 <= i < |s.delayed| ==> s.delayed[i].at <= s.held.value.at + s.config.delayMs)
    && (s.config.dropPct >= 100 ==> s.delayed == [])
    && (AlwaysInBurst(s.config) ==> s.delayed == [] && s.held.None?)
  }

  lemma BurstNeverEnds(c: Config, now: Time)
    requires AlwaysInBurst(c)
    ensures InBurst(c, now)
  {
  }

  lemma PipelineDropsAll(s: Injector, p: Packet, now: Time, f: Fate)
    requires FateMay(s.config, f)
    ensures var t := Pipeline(s, p, now, f);
      t.held == s.held && t.config == s.config && (s.config.dropPct >= 100 ==> t.delayed == s.delayed)
  {
  }

  lemma SendKeepsHeldNewest(s: Injector, bytes: seq<byte>, dst: nat, clock: Time, now: Time, f: SendFate)
    requires Queued(s, clock) && clock <= now && SendFateMay(s.config, f) && HeldIsNewest(s)
    ensures HeldIsNewest(Send(s, bytes, dst, now, f))
  {
    hide Pipeline, InBurst, FateMay;
    var p := Packet(|s.offered|, bytes, dst);
    var s1 := s.(offered := s.offered + [p]);
    if AlwaysInBurst(s.config) {
      BurstNeverEnds(s.config, now);
    }
    PipelineDropsAll(s1, p, now, f.own);
    if s.held.Some? {
      var s2 := s1.(held := None);
      PipelineDropsAll(s2, p, now, f.own);
      PipelineDropsAll(Pipeline(s2, p, now, f.own), s.held.value.packet, now, f.other);
    }
  }

  lemma DrainKeepsHeldNewest(s: Injector, now: Time, answers: seq<bool>, heldSent: bool)
    requires HeldIsNewest(s)
    ensures HeldIsNewest(Drain(s, now, answers, heldSent))
  {
    hide AlwaysInBurst, Drain;
    var t := Drain(s, now, answers, heldSent);
    var n := DrainTakesFromFront(s, now, answers, heldSent);
    if t.held.Some? {
      forall i | 0 <= i < |t.delayed|
        ensures t.delayed[i].at <= t.held.value.at + t.config.delayMs
      {
        assert t.delayed[i] == s.delayed[n + i];
      }
    }
  }

  lemma DrainTakesFromFront(s: Injector, now: Time, answers: seq<bool>, heldSent: bool) returns (n: nat)
    ensures n <= |s.delayed|
    ensures var t := Drain(s, now, answers, heldSent);
      && t.delayed == s.delayed[n..] && t.config == s.config
      && (t.held.None? || t.held == s.held)
  {
    hide Released;
    n := DueCount(s.delayed, now);
  }

  lemma {:induction false} HeldStaysNewest(config: Config, steps: seq<Step>)
    requires Possible(config, steps)
    ensures HeldIsNewest(Run(config, steps))
  {
    hide Conserved, Queued, Reordered, OnlyReorders, Send, Drain, NothingDue, SendFateMay, HeldIsNewest;
    if steps == [] {
      FreshHoldsNothing(config);
    } else {
      var front := steps[..|steps| - 1];
      HeldStaysNewest(config, front);
      RunHolds(config, front);
      match steps[|steps| - 1]
      case Offer(bytes, dst, now, fate) =>
        SendKeepsHeldNewest(Run(config, front), bytes, dst, Clock(front), now, fate);
      case Release(now, answers, heldSent) =>
        DrainKeepsHeldNewest(Run(config, front), now, answers, heldSent);
    }
  }

  lemma FreshHoldsNothing(config: Config)
    ensures HeldIsNewest(Fresh(config))
  {
  }

  /** The configurations under which a held datagram is never overlooked. */
  predicate WakesInTimeAlways(c: Config) {
    c.reorderPct == 0 || c.delayMs <= HOLD_MAX || c.dropPct >= 100 || AlwaysInBurst(c)
  }

  lemma InTimeUnder(config: Config, steps: seq<Step>)
    requires Possible(config, steps) && WakesInTimeAlways(config)
    ensures WakesInTime(Run(config, steps))
  {
    hide Conserved, Reordered, AlwaysInBurst, Run;
    RunHolds(config, steps);
    HeldStaysNewest(config, steps);
    OnlyHeldIsOverlooked(Run(config, steps), Clock(steps));
  }

  // A run that overlooks a held datagram: one is held, the next swaps with it into the delay queue, a third is held.

  function QuietTime(c: Config): Time {
    if c.burstEveryMs == 0 then c.started else c.started + c.burstDurMs
  }

  function HoldAlways(c: Config): SendFate {
    var fate := Fate(c.dupPct > 0, CopyFate(false, true), CopyFate(false, true));
    SendFate(true, fate, fate)
  }

  function ThreeOffers(c: Config): seq<Step> {
    var offer := Offer([], 0, QuietTime(c), HoldAlways(c));
    [offer, offer, offer]
  }

  lemma QuietTimeIsQuiet(c: Config)
    requires !AlwaysInBurst(c)
    ensures !InBurst(c, QuietTime(c))
  {
  }

  lemma PipelineDelays(s: Injector, p: Packet, now: Time, f: Fate)
    requires s.config.dropPct < 100 && s.config.delayMs > 0 && !f.first.drop && !f.second.drop
    ensures var t := Pipeline(s, p, now, f);
      && t.config == s.config && t.held == s.held
      && s.delayed <= t.delayed && |t.delayed| > |s.delayed|
      && t.delayed[|s.delayed|].at == now + s.config.delayMs
  {
  }

  lemma ThirdIsOverlooked(c: Config)
    requires !WakesInTimeAlways(c)
    ensures Possible(c, ThreeOffers(c)) && !WakesInTime(Run(c, ThreeOffers(c)))
  {
    hide InBurst, Pipeline;
    QuietTimeIsQuiet(c);
    var now, f, steps := QuietTime(c), HoldAlways(c), ThreeOffers(c);
    var s0 := Fresh(c);
    var s1 := Send(s0, [], 0, now, f);
    assert s1.held == Some(Timed(now, Packet(0, [], 0))) && s1.delayed == [];
    var p := Packet(1, [], 0);
    var s2 := s1.(offered := s1.offered + [p], held := None);
    PipelineDelays(s2, p, now, f.own);
    PipelineDelays(Pipeline(s2, p, now, f.own), s1.held.value.packet, now, f.other);
    var s3 := Send(s1, [], 0, now, f);
    var s4 := Send(s3, [], 0, now, f);
    RunOfThree(c, steps[0]);
    assert s4.delayed[0].at == now + c.delayMs && s4.held.value.at == now;
    assert NextDeadline(s4) == Some(now + c.delayMs);
  }

  lemma RunOneMore(c: Config, front: seq<Step>, o: Step)
    requires o.Offer?
    ensures Run(c, front + [o]) == Send(Run(c, front), o.bytes, o.dst, o.now, o.fate)
  {
    hide Send;
    assert (front + [o])[..|front|] == front;
  }

  lemma RunOfThree(c: Config, o: Step)
    requires o.Offer?
    ensures Run(c, [o, o, o]) ==
      Send(Send(Send(Fresh(c), o.bytes, o.dst, o.now, o.fate), o.bytes, o.dst, o.now, o.fate), o.bytes, o.dst, o.now, o.fate)
  {
    RunOneMore(c, [], o);
    RunOneMore(c, [o], o);
    RunOneMore(c, [o, o], o);
    hide Send;
    assert Run(c, []) == Fresh(c);
    assert [] + [o] == [o] && [o] + [o] == [o, o] && [o, o] + [o] == [o, o, o];
  }

  /**
   The wake-up time is the first release in every run exactly if nothing is ever held, or the
   latency is no longer than a hold, or nothing ever gets into the delay queue.
   */
  lemma WakeUpIsFirstRelease(config: Config)
    ensures (forall steps :: Possible(config, steps) ==> WakesInTime(Run(config, steps))) <==> WakesInTimeAlways(config)
  {
    hide Run, WakesInTime, WakesInTimeAlways, Possible;
    if WakesInTimeAlways(config) {
      forall steps | Possible(config, steps)
        ensures WakesInTime(Run(config, steps))
      {
        InTimeUnder(config, steps);
      }
    } else {
      ThirdIsOverlooked(config);
    }
  }

  /** With half of the datagrams held and a latency of a second a held datagram is overlooked. */
  lemma SlowLatencyOverlooks()
    ensures var c := Config(0, 0, 0, 50, 1000, 0, 0);
      Possible(c, ThreeOffers(c)) && !WakesInTime(Run(c, ThreeOffers(c)))
  {
    ThirdIsOverlooked(Config(0, 0, 0, 50, 1000, 0, 0));
  }
}
