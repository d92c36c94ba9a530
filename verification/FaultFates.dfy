/** What becomes of each datagram under given rolls: which copies are lost, in what order the others go, and when. */
module FaultFates {
  import opened Prelude
  import opened FaultChannel

  // ----- Without reordering

  predicate IsLost(c: Config, f: CopyFate) {
    c.dropPct > 0 && f.drop
  }

  /** The copies made of one datagram: two if duplicates are configured and the roll says so, else one. */
  function CopyFates(c: Config, f: Fate): seq<CopyFate> {
    if c.dupPct > 0 && f.dup then [f.first, f.second] else [f.first]
  }

  /** The network is silent for the first `burstDurMs` of every `burstEveryMs` milliseconds since the start. */
  ghost predicate Silent(c: Config, now: Time) {
    c.burstEveryMs > 0 && exists k: nat :: InSilence(c, now, k)
  }

  predicate InSilence(c: Config, now: Time, k: nat) {
    var el := Max(now - c.started, 0);
    k * c.burstEveryMs <= el < k * c.burstEveryMs + Min(c.burstDurMs, c.burstEveryMs)
  }

  lemma SilenceIsBurst(c: Config, now: Time)
    ensures Silent(c, now) <==> InBurst(c, now)
  {
    var el: nat := Max(now - c.started, 0);
    if c.burstEveryMs > 0 {
      var q := el / c.burstEveryMs;
      assert el == q * c.burstEveryMs + el % c.burstEveryMs;
      if InBurst(c, now) {
        assert InSilence(c, now, q);
      }
      if k: nat :| InSilence(c, now, k) {
        RemainderIn(el, c.burstEveryMs, k);
      }
    }
  }

  lemma MultiplesGrow(a: int, b: int, d: nat)
    requires a <= b
    ensures a * d <= b * d
  {
  }

  lemma RemainderIn(x: nat, d: nat, k: nat)
    requires d > 0 && k * d <= x < k * d + d
    ensures x % d == x - k * d
  {
    var q := x / d;
    assert x == q * d + x % d;
    if q > k {
      MultiplesGrow(k + 1, q, d);
    } else if q < k {
      MultiplesGrow(q + 1, k, d);
    }
  }

  function CopiesWhere(c: Config, fates: seq<CopyFate>, lost: bool, p: Packet): seq<Packet> {
    if fates == [] then []
    else
      CopiesWhere(c, fates[..|fates| - 1], lost, p) + if IsLost(c, fates[|fates| - 1]) == lost then [p] else []
  }

  function Offers(steps: seq<Step>): nat {
    if steps == [] then 0
    else Offers(steps[..|steps| - 1]) + if steps[|steps| - 1].Offer? then 1 else 0
  }

  /** The copies that are lost, in the order of the offers. */
  ghost function Casualties(c: Config, steps: seq<Step>): seq<Packet> {
    if steps == [] then []
    else
      var front, last := steps[..|steps| - 1], steps[|steps| - 1];
      Casualties(c, front) +
      if last.Release? then []
      else
        var p := Packet(Offers(front), last.bytes, last.dst);
        if Silent(c, last.now) then [p] else CopiesWhere(c, CopyFates(c, last.fate.own), true, p)
  }

  function Dated(packets: seq<Packet>, at: Time): (r: seq<Timed>)
    ensures |r| == |packets| && forall i :: 0 <= i < |r| ==> r[i] == Timed(at, packets[i])
  {
    seq(|packets|, i requires 0 <= i < |packets| => Timed(at, packets[i]))
  }

  /** The copies that get through, in the order of the offers, each with the time at which it is due. */
  ghost function Survivors(c: Config, steps: seq<Step>): seq<Timed> {
    if steps == [] then []
    else
      var front, last := steps[..|steps| - 1], steps[|steps| - 1];
      Survivors(c, front) +
      if last.Release? || Silent(c, last.now) then []
      else
        Dated(CopiesWhere(c, CopyFates(c, last.fate.own), false, Packet(Offers(front), last.bytes, last.dst)),
              last.now + c.delayMs)
  }

  function PacketsOf(timed: seq<Timed>): (r: seq<Packet>)
    ensures |r| == |timed| && forall i :: 0 <= i < |r| ==> r[i] == timed[i].packet
  {
    seq(|timed|, i requires 0 <= i < |timed| => timed[i].packet)
  }

  /** The last release before now; nothing was released before it. */
  function LastRelease(steps: seq<Step>): Option<Time> {
    if steps == [] then None
    else if steps[|steps| - 1].Release? then Some(steps[|steps| - 1].now)
    else LastRelease(steps[..|steps| - 1])
  }

  /** The first copies of the line are out and the others wait, in order; none is out that was not due at the last release. */
  predicate InLine(latency: nat, all: seq<Timed>, out: seq<Packet>, waiting: seq<Timed>, last: Option<Time>) {
    var n := |out|;
    && n <= |all| && out == PacketsOf(all[..n]) && waiting == all[n..]
    && (latency == 0 ==> n == |all|)
    && (latency > 0 && n > 0 ==> last.Some? && forall i :: 0 <= i < n ==> all[i].at <= last.value)
  }

  ghost predicate PassedInOrder(c: Config, steps: seq<Step>, s: Injector) {
    && s.held.None? && s.lost == Casualties(c, steps) && |s.offered| == Offers(steps)
    && (s.errors == [] ==> InLine(c.delayMs, Survivors(c, steps), s.out, s.delayed, LastRelease(steps)))
  }

  lemma CopyGoes(s: Injector, p: Packet, now: Time, f: CopyFate)
    ensures var t := OneCopy(s, p, now, f);
      if IsLost(s.config, f) then t == s.(lost := s.lost + [p], dropped := s.dropped + 1)
      else if s.config.delayMs > 0 then t == s.(delayed := s.delayed + [Timed(now + s.config.delayMs, p)])
      else t == if f.sent then s.(out := s.out + [p], emitted := s.emitted + 1) else s.(errors := s.errors + [p])
  {
  }

  /** Copies of `p` with these fates have gone through the pipeline. */
  predicate Went(s: Injector, t: Injector, p: Packet, now: Time, fates: seq<CopyFate>) {
    var through := CopiesWhere(s.config, fates, false, p);
    && t.held == s.held && t.offered == s.offered && t.config == s.config
    && t.lost == s.lost + CopiesWhere(s.config, fates, true, p)
    && s.errors <= t.errors
    && (t.errors == [] ==>
      if s.config.delayMs > 0 then t.delayed == s.delayed + Dated(through, now + s.config.delayMs) && t.out == s.out
      else t.out == s.out + through && t.delayed == s.delayed)
  }

  lemma NoneWent(s: Injector, p: Packet, now: Time)
    ensures Went(s, s, p, now, [])
  {
  }

  lemma OneMoreWent(s: Injector, t: Injector, p: Packet, now: Time, fates: seq<CopyFate>, f: CopyFate)
    requires Went(s, t, p, now, fates)
    ensures Went(s, OneCopy(t, p, now, f), p, now, fates + [f])
  {
    hide OneCopy, IsLost, CopiesWhere, Dated;
    CopyGoes(t, p, now, f);
    OneMoreFate(s.config, fates, f, p);
    var through, lost := CopiesWhere(s.config, fates, false, p), CopiesWhere(s.config, fates, true, p);
    OneMoreDated(through, p, now + s.config.delayMs);
    assert through + [] == through && lost + [] == lost;
    Associate(s.lost, lost, [p]);
    Associate(s.out, through, [p]);
    Associate(s.delayed, Dated(through, now + s.config.delayMs), [Timed(now + s.config.delayMs, p)]);
  }

  lemma OneMoreFate(c: Config, fates: seq<CopyFate>, f: CopyFate, p: Packet)
    ensures CopiesWhere(c, fates + [f], true, p) == CopiesWhere(c, fates, true, p) + if IsLost(c, f) then [p] else []
    ensures CopiesWhere(c, fates + [f], false, p) == CopiesWhere(c, fates, false, p) + if IsLost(c, f) then [] else [p]
  {
    hide IsLost;
    assert (fates + [f])[..|fates|] == fates;
  }

  /** What the pipeline does to one datagram. */
  lemma PipelineGoes(s: Injector, p: Packet, now: Time, f: Fate)
    ensures Went(s, Pipeline(s, p, now, f), p, now, CopyFates(s.config, f))
  {
    hide OneCopy, Went;
    var one := OneCopy(s, p, now, f.first);
    NoneWent(s, p, now);
    assert [] + [f.first] == [f.first] && [f.first] + [f.second] == [f.first, f.second];
    OneMoreWent(s, s, p, now, [], f.first);
    OneMoreWent(s, one, p, now, [f.first], f.second);
    ExtraDoesNotMatter(s, OneCopy(one, p, now, f.second), p, now, [f.first, f.second]);
  }

  lemma ExtraDoesNotMatter(s: Injector, t: Injector, p: Packet, now: Time, fates: seq<CopyFate>)
    ensures forall extra :: Went(s, t.(extra := extra), p, now, fates) == Went(s, t, p, now, fates)
  {
  }

  lemma OneMoreDated(packets: seq<Packet>, p: Packet, at: Time)
    ensures Dated(packets + [p], at) == Dated(packets, at) + [Timed(at, p)]
  {
  }

  lemma OfferInSilence(c: Config, steps: seq<Step>, s: Injector, o: Step)
    requires s.config == c && o.Offer? && Silent(c, o.now) && PassedInOrder(c, steps, s)
    ensures PassedInOrder(c, steps + [o], Send(s, o.bytes, o.dst, o.now, o.fate))
  {
    hide Silent, InBurst, Casualties, Survivors, LastRelease, Offers, Pipeline, InLine;
    SilenceIsBurst(c, o.now);
    OneMoreStep(c, steps, o);
    assert Survivors(c, steps) + [] == Survivors(c, steps);
  }

  lemma OfferPasses(c: Config, steps: seq<Step>, s: Injector, o: Step)
    requires c.reorderPct == 0 && s.config == c && o.Offer? && !Silent(c, o.now) && PassedInOrder(c, steps, s)
    ensures PassedInOrder(c, steps + [o], Send(s, o.bytes, o.dst, o.now, o.fate))
  {
    hide Pipeline, Silent, InBurst, CopiesWhere, Dated, Casualties, Survivors, LastRelease, Offers, CopyFates, InLine;
    SilenceIsBurst(c, o.now);
    OneMoreStep(c, steps, o);
    var t := Send(s, o.bytes, o.dst, o.now, o.fate);
    var p := Packet(|s.offered|, o.bytes, o.dst);
    PipelineGoes(s.(offered := s.offered + [p]), p, o.now, o.fate.own);
    if t.errors == [] {
      var through := CopiesWhere(c, CopyFates(c, o.fate.own), false, p);
      NoErrorsBefore(s.errors, t.errors);
      ThroughPasses(c.delayMs, Survivors(c, steps), s.out, s.delayed, LastRelease(steps), through, o.now + c.delayMs);
    }
  }

  lemma NoErrorsBefore(before: seq<Packet>, after: seq<Packet>)
    requires before <= after && after == []
    ensures before == []
  {
  }

  /** Copies that have just got through join the end of the line. */
  lemma ThroughPasses(latency: nat, all: seq<Timed>, out: seq<Packet>, waiting: seq<Timed>, last: Option<Time>,
                      through: seq<Packet>, at: Time)
    requires InLine(latency, all, out, waiting, last)
    ensures latency > 0 ==> InLine(latency, all + Dated(through, at), out, waiting + Dated(through, at), last)
    ensures latency == 0 ==> InLine(latency, all + Dated(through, at), out + through, waiting, last)
  {
    var more, n := Dated(through, at), |out|;
    if latency > 0 {
      assert (all + more)[..n] == all[..n] && (all + more)[n..] == all[n..] + more;
    } else {
      assert (all + more)[..n + |through|] == all + more && all[..n] == all;
      assert PacketsOf(all + more) == PacketsOf(all) + through;
    }
  }

  lemma OneMoreStep(c: Config, steps: seq<Step>, o: Step)
    ensures Offers(steps + [o]) == Offers(steps) + if o.Offer? then 1 else 0
    ensures LastRelease(steps + [o]) == if o.Release? then Some(o.now) else LastRelease(steps)
    ensures o.Release? ==> Casualties(c, steps + [o]) == Casualties(c, steps) && Survivors(c, steps + [o]) == Survivors(c, steps)
    ensures o.Offer? ==>
      var p := Packet(Offers(steps), o.bytes, o.dst);
      && Casualties(c, steps + [o]) ==
           Casualties(c, steps) + (if Silent(c, o.now) then [p] else CopiesWhere(c, CopyFates(c, o.fate.own), true, p))
      && Survivors(c, steps + [o]) ==
           Survivors(c, steps) +
           if Silent(c, o.now) then [] else Dated(CopiesWhere(c, CopyFates(c, o.fate.own), false, p), o.now + c.delayMs)
  {
    hide Silent, CopiesWhere;
    assert (steps + [o])[..|steps|] == steps;
  }

  /** A release takes the copies that are due from the front of the queue. */
  lemma {:induction false} ReleasedInOrder(s: Injector, n: nat, answers: seq<bool>)
    requires n <= |s.delayed|
    ensures var t := Released(s, n, answers);
      && t.lost == s.lost && t.offered == s.offered && s.errors <= t.errors
      && (t.errors == [] ==> t.out == s.out + PacketsOf(s.delayed[..n]))
  {
    if n > 0 {
      ReleasedInOrder(s, n - 1, answers);
      assert s.delayed[..n] == s.delayed[..n - 1] + [s.delayed[n - 1]];
      assert PacketsOf(s.delayed[..n]) == PacketsOf(s.delayed[..n - 1]) + [s.delayed[n - 1].packet];
    } else {
      assert PacketsOf(s.delayed[..0]) == [];
    }
  }

  lemma ReleasePasses(c: Config, steps: seq<Step>, s: Injector, o: Step)
    requires s.config == c && o.Release? && PassedInOrder(c, steps, s)
    requires LastRelease(steps).Some? ==> LastRelease(steps).value <= o.now
    ensures PassedInOrder(c, steps + [o], Drain(s, o.now, o.answers, o.heldSent))
  {
    hide Casualties, Survivors, LastRelease, Offers, Released, DueCount, InLine;
    OneMoreStep(c, steps, o);
    var n := DueCount(s.delayed, o.now);
    ReleasedInOrder(s, n, o.answers);
    var t := Drain(s, o.now, o.answers, o.heldSent);
    if t.errors == [] {
      NoErrorsBefore(s.errors, t.errors);
      DueAtFront(s.delayed, o.now);
      LineAdvances(c.delayMs, Survivors(c, steps), s.out, s.delayed, LastRelease(steps), n, o.now);
    }
  }

  lemma DueAtFront(delayed: seq<Timed>, now: Time)
    ensures forall i :: 0 <= i < DueCount(delayed, now) ==> delayed[i].at <= now
  {
  }

  /** The first `n` of those who wait go out. */
  lemma LineAdvances(latency: nat, all: seq<Timed>, out: seq<Packet>, waiting: seq<Timed>, last: Option<Time>, n: nat, now: Time)
    requires InLine(latency, all, out, waiting, last) && n <= |waiting|
    requires (last.Some? ==> last.value <= now) && forall i :: 0 <= i < n ==> waiting[i].at <= now
    ensures InLine(latency, all, out + PacketsOf(waiting[..n]), waiting[n..], Some(now))
  {
    var done := |out|;
    assert all[..done + n] == all[..done] + waiting[..n] && waiting[n..] == all[done + n..];
    assert forall i :: done <= i < done + n ==> all[i] == waiting[i - done];
  }

  /**
   Without reordering, over every run and for every roll: the copies lost are exactly those whose roll
   or whose time says so, and while the socket works the others go out in the order of the offers, none
   of them before its latency is over.
   */
  lemma {:induction false} SurvivorsPassInOrder(c: Config, steps: seq<Step>)
    requires Possible(c, steps) && c.reorderPct == 0
    ensures PassedInOrder(c, steps, Run(c, steps)) && Run(c, steps).config == c
  {
    hide Send, Drain, PassedInOrder;
    if steps == [] {
      NothingPassed(c);
    } else {
      var front, last := steps[..|steps| - 1], steps[|steps| - 1];
      SurvivorsPassInOrder(c, front);
      assert steps == front + [last];
      match last
      case Offer(bytes, dst, now, fate) =>
        ConfigIsFixed(Run(c, front), bytes, dst, now, fate);
        if Silent(c, now) {
          OfferInSilence(c, front, Run(c, front), last);
        } else {
          OfferPasses(c, front, Run(c, front), last);
        }
      case Release(now, answers, heldSent) =>
        ReleasesAscend(front, now);
        DrainKeepsConfig(Run(c, front), now, answers, heldSent);
        ReleasePasses(c, front, Run(c, front), last);
    }
  }

  lemma NothingPassed(c: Config)
    ensures PassedInOrder(c, [], Fresh(c))
  {
  }

  lemma DrainKeepsConfig(s: Injector, now: Time, answers: seq<bool>, heldSent: bool)
    ensures Drain(s, now, answers, heldSent).config == s.config
  {
  }

  lemma {:induction false} ReleasesAscend(steps: seq<Step>, now: Time)
    requires forall i :: 0 <= i < |steps| ==> steps[i].now <= now
    ensures LastRelease(steps).Some? ==> LastRelease(steps).value <= now
  {
    if steps != [] && !steps[|steps| - 1].Release? {
      ReleasesAscend(steps[..|steps| - 1], now);
    }
  }

  /** After a release, with a working socket, exactly the copies whose latency is over are out. */
  lemma LatencyExactly(c: Config, steps: seq<Step>, i: nat)
    requires Possible(c, steps) && c.reorderPct == 0 && c.delayMs > 0
    requires steps != [] && steps[|steps| - 1].Release? && Run(c, steps).errors == []
    requires i < |Survivors(c, steps)|
    ensures var all, n, now := Survivors(c, steps), |Run(c, steps).out|, steps[|steps| - 1].now;
      && n <= |all| && Run(c, steps).out == PacketsOf(all[..n])
      && (i < n <==> all[i].at <= now)
  {
    hide Run, Survivors, Casualties;
    SurvivorsPassInOrder(c, steps);
    NothingDueSurvives(c, steps);
    var all, n := Survivors(c, steps), |Run(c, steps).out|;
    if i >= n {
      assert all[n..][i - n] == all[i];
    }
  }

  // ----- With reordering

  /** With reordering alone: a datagram is held when the roll says so, the next one goes before it, and nothing else changes places. */
  lemma HeldGoesAfterTheNext(s: Injector, bytes: seq<byte>, dst: nat, now: Time, f: SendFate)
    requires OnlyReorders(s.config) && s.config.reorderPct > 0 && SendFateMay(s.config, f)
    ensures var p, t := Packet(|s.offered|, bytes, dst), Send(s, bytes, dst, now, f);
      && t.offered == s.offered + [p] && t.delayed == s.delayed && t.lost == s.lost
      && (s.held.None? && f.hold ==> t.held == Some(Timed(now, p)) && t.out == s.out && t.errors == s.errors)
      && (s.held.None? && !f.hold && t.errors == s.errors ==> t.held == None && t.out == s.out + [p])
      && (s.held.Some? && t.errors == s.errors ==> t.held == None && t.out == s.out + [p] + [s.held.value.packet])
  {
  }

  /** A held datagram is let go by a drain exactly if it has been held for 50 ms, and delayed ones exactly if they are due. */
  lemma DrainLetsGoExactly(s: Injector, clock: Time, now: Time, answers: seq<bool>, heldSent: bool)
    requires Queued(s, clock)
    ensures var t := Drain(s, now, answers, heldSent);
      && (t.held == if s.held.Some? && now < s.held.value.at + 50 then s.held else None)
      && |t.delayed| <= |s.delayed|
      && (forall i :: 0 <= i < |s.delayed| ==> (s.delayed[i].at > now <==> i >= |s.delayed| - |t.delayed|))
      && t.delayed == s.delayed[|s.delayed| - |t.delayed|..]
  {
    hide Released;
    var n := DueCount(s.delayed, now);
    assert Drain(s, now, answers, heldSent).delayed == s.delayed[n..];
  }

  /** In a silence every datagram offered is lost, and what is waiting stays. */
  lemma SilenceLosesAll(s: Injector, bytes: seq<byte>, dst: nat, now: Time, f: SendFate)
    requires Silent(s.config, now)
    ensures var p, t := Packet(|s.offered|, bytes, dst), Send(s, bytes, dst, now, f);
      t == s.(offered := s.offered + [p], lost := s.lost + [p], dropped := s.dropped + 1)
  {
    SilenceIsBurst(s.config, now);
  }
}
