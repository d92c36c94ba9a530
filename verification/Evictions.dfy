/** When the scheduler evicts a peer: over whole runs, and without the scheduler's own counter. */
module Evictions {
  import opened Prelude
  import opened Text
  import opened PeerChoice
  import opened Scheduler
  import opened SchedulerLaws

  /** The verdict on a pull from `p`, if the step collects one. */
  ghost function Collected(w: World, l: Label, p: Addr): seq<Verdict> {
    if l.Work? && l.step.Reaped? && Enabled(w, l) && w.s.active[l.step.id].peer == p
    then [w.s.pulls[l.step.id].verdict]
    else []
  }

  /** The verdicts on the pulls from `p`, in the order in which they were collected. */
  ghost function Verdicts(w: World, labels: seq<Label>, p: Addr): seq<Verdict>
    decreases |labels|
  {
    if labels == [] || !Enabled(w, labels[0]) then []
    else Collected(w, labels[0], p) + Verdicts(Next(w, labels[0]), labels[1..], p)
  }

  /** The silences in a row at the end: "not ready" answers in between do not count as answers. */
  function SilencesInARow(verdicts: seq<Verdict>): nat {
    if verdicts == [] then 0
    else
      var front := SilencesInARow(verdicts[..|verdicts| - 1]);
      match verdicts[|verdicts| - 1]
      case Silent => front + 1
      case NotReady => front
      case _ => 0
  }

  predicate Counted(s: Sched, p: Addr, verdicts: seq<Verdict>) {
    Lookup(s.hits, p, 0) == SilencesInARow(verdicts) % EVICT_AFTER_UNRESPONSIVE
  }

  lemma OneMoreVerdict(verdicts: seq<Verdict>, v: Verdict)
    ensures SilencesInARow(verdicts + [v]) ==
      match v case Silent => SilencesInARow(verdicts) + 1 case NotReady => SilencesInARow(verdicts) case _ => 0
  {
    assert (verdicts + [v])[..|verdicts|] == verdicts;
  }

  /** The step is the one silence that makes the silences in a row a multiple of three. */
  ghost predicate Evicts(w: World, l: Label, p: Addr, before: seq<Verdict>) {
    Collected(w, l, p) == [Silent] && (SilencesInARow(before) + 1) % EVICT_AFTER_UNRESPONSIVE == 0
  }

  lemma StepIsCounted(w: World, l: Label, p: Addr, before: seq<Verdict>)
    requires Enabled(w, l) && Counted(w.s, p, before)
    ensures Counted(Next(w, l).s, p, before + Collected(w, l, p))
    ensures l.Work? && p in w.s.peers ==> (p !in Next(w, l).s.peers <==> Evicts(w, l, p, before))
  {
    hide Reap, SilencesInARow, Tier, RequestFor, Sync;
    assert before + [] == before;
    match l
    case Work(env, Reaped(id, now)) => ReapIsCounted(w.s, env, id, now, p, before);
    case NewManifest(manifest, present, now) => SyncKeepsHits(w.s, manifest, present, now);
    case _ =>
  }

  lemma ReapIsCounted(s: Sched, env: Env, id: u16, now: Time, p: Addr, before: seq<Verdict>)
    requires Finished(s, id) && Counted(s, p, before)
    ensures var verdict, s' := s.pulls[id].verdict, Reap(s, id, env.local, now);
      if s.active[id].peer == p then
        && Counted(s', p, before + [verdict])
        && (p in s.peers ==> (p !in s'.peers <==>
              verdict == Silent && (SilencesInARow(before) + 1) % EVICT_AFTER_UNRESPONSIVE == 0))
      else Counted(s', p, before) && (p in s.peers ==> p in s'.peers)
  {
    hide Reap, SilencesInARow;
    SilenceIsCounted(s, env, id, now);
    OneMoreVerdict(before, s.pulls[id].verdict);
  }

  lemma SyncKeepsHits(s: Sched, manifest: seq<string>, present: set<string>, now: Time)
    ensures Sync(s, manifest, present, now).hits == s.hits && Sync(s, manifest, present, now).peers == s.peers
  {
  }

  lemma {:induction false} StretchIsCounted(w: World, labels: seq<Label>, w': World, p: Addr, before: seq<Verdict>)
    requires Continues(w, labels, w') && Counted(w.s, p, before)
    ensures Counted(w'.s, p, before + Verdicts(w, labels, p))
    decreases |labels|
  {
    hide Enabled, Next, Counted, Collected;
    if labels == [] {
      assert before + [] == before;
    } else {
      var first := Collected(w, labels[0], p);
      StepIsCounted(w, labels[0], p, before);
      StretchIsCounted(Next(w, labels[0]), labels[1..], w', p, before + first);
      Associate(before, first, Verdicts(Next(w, labels[0]), labels[1..], p));
    }
  }

  /**
   Over every run the scheduler counts the silences in a row of each peer, and a step of its work
   takes a peer out exactly if it collects the third, sixth, ... of them.
   */
  lemma EvictionTakesThreeSilences(labels: seq<Label>, w: World, p: Addr, l: Label)
    requires Continues(NewWorld(), labels, w) && Enabled(w, l)
    ensures Lookup(w.s.hits, p, 0) == SilencesInARow(Verdicts(NewWorld(), labels, p)) % EVICT_AFTER_UNRESPONSIVE
    ensures l.Work? && p in w.s.peers ==>
      (p !in Next(w, l).s.peers <==> Evicts(w, l, p, Verdicts(NewWorld(), labels, p)))
  {
    hide Continues, Enabled, Next, Verdicts, Evicts;
    assert Counted(NewWorld().s, p, []);
    StretchIsCounted(NewWorld(), labels, w, p, []);
    assert [] + Verdicts(NewWorld(), labels, p) == Verdicts(NewWorld(), labels, p);
    StepIsCounted(w, l, p, Verdicts(NewWorld(), labels, p));
  }

  // ----- A run in which an answer does not help

  /** A run from the start, with the verdicts on the pulls from `SOURCE`. */
  ghost predicate Leading(labels: seq<Label>, w: World, verdicts: seq<Verdict>) {
    Continues(NewWorld(), labels, w) && Verdicts(NewWorld(), labels, SOURCE) == verdicts
  }

  lemma {:induction false} OneMoreLabel(w: World, labels: seq<Label>, w': World, l: Label, p: Addr)
    requires Continues(w, labels, w') && Enabled(w', l)
    ensures Continues(w, labels + [l], Next(w', l))
    ensures Verdicts(w, labels + [l], p) == Verdicts(w, labels, p) + Collected(w', l, p)
    decreases |labels|
  {
    hide Enabled, Next, Collected;
    if labels == [] {
      LastLabel(w, l, p);
      assert [] + [l] == [l] && [] + Collected(w, l, p) == Collected(w, l, p);
    } else {
      OneMoreLabel(Next(w, labels[0]), labels[1..], w', l, p);
      assert (labels + [l])[1..] == labels[1..] + [l];
      Associate(Collected(w, labels[0], p), Verdicts(Next(w, labels[0]), labels[1..], p), Collected(w', l, p));
    }
  }

  lemma LastLabel(w: World, l: Label, p: Addr)
    requires Enabled(w, l)
    ensures Continues(w, [l], Next(w, l)) && Verdicts(w, [l], p) == Collected(w, l, p)
  {
    hide Enabled, Next, Collected;
    assert [l][1..] == [];
    assert Verdicts(Next(w, l), [], p) == [];
    assert Continues(Next(w, l), [], Next(w, l));
  }

  lemma Lead(labels: seq<Label>, w: World, verdicts: seq<Verdict>, l: Label)
    requires Leading(labels, w, verdicts) && Enabled(w, l)
    ensures Leading(labels + [l], Next(w, l), verdicts + Collected(w, l, SOURCE))
  {
    hide Enabled, Next, Collected, Verdicts, Continues;
    OneMoreLabel(NewWorld(), labels, w, l, SOURCE);
  }

  /** Nothing is in flight, and only the names in `used` have left a trace. */
  predicate Rested(s: Sched, used: set<string>) {
    && s.active == map[] && s.pulls == map[]
    && s.tried.Keys <= used && s.failedAt.Keys <= used && s.queued <= used
    && (forall name <- s.queue :: name in used)
    && (forall k <- s.retryAfter :: k.0 in used)
  }

  lemma SourceHasRoom(s: Sched, used: set<string>, name: string)
    requires Rested(s, used) && name !in used
    ensures SOURCE in Tier(RequestFor(s.(queue := [name], queued := {name}), AnyEnv(), [SOURCE], name, 0))
  {
    var t := s.(queue := [name], queued := {name});
    var q := RequestFor(t, AnyEnv(), [SOURCE], name, 0);
    assert PulledFrom(t.active, SOURCE) == {};
    assert q.cooling == {};
    hide Tier;
    BootstrapKeepsPullAlive(q);
    var p := Tier(q)[0];
    ChosenIsUsable(q, p);
    assert Reached(q) == [SOURCE];
  }

  lemma OnlyNameIsQueued(s: Sched, used: set<string>, name: string)
    requires Rested(s, used) && name !in used && ValidFilename(name)
    ensures Sync(s, [name], {}, 0) == s.(queue := [name], queued := {name})
  {
    hide ValidFilename, Additions, Retain, Reverse, Names;
    OneAddition(s, name);
    NoneIsRetained(s.queue, {name});
  }

  lemma NoneIsRetained(queue: seq<string>, wanted: set<string>)
    requires forall name <- queue :: name !in wanted
    ensures Retain(queue, wanted) == []
  {
    SomethingIn(Retain(queue, wanted));
  }

  lemma SomethingIn(s: seq<string>)
    ensures s != [] ==> s[0] in s
  {
  }

  /** The state in which the one pull from `SOURCE` has ended. */
  function Ended(s: Sched, name: string, verdict: Verdict): Sched {
    s.(queue := [], queued := {name}, active := map[1 := Job(name, SOURCE)],
       tried := s.tried[name := {SOURCE}], pulls := map[1 := Done(verdict, 0)])
  }

  lemma PullEnds(w: World, used: set<string>, name: string, verdict: Verdict, labels: seq<Label>, verdicts: seq<Verdict>)
      returns (longer: seq<Label>, w': World)
    requires Leading(labels, w, verdicts) && w.lastRound == 0
    requires Rested(w.s, used) && w.s.peers == {SOURCE} && name !in used && ValidFilename(name)
    ensures Leading(longer, w', verdicts) && w'.lastRound == 0
    ensures w'.s == Ended(w.s, name, verdict)
  {
    hide Leading, Enabled, Next, Rested, ValidFilename;
    var queued, started, ended := NewManifest([name], {}, 0), Work(AnyEnv(), Started(1, SOURCE, [SOURCE], 0)), OutcomeSet(1, verdict, 0);
    assert verdicts + [] == verdicts;
    NameIsQueued(w, used, name);
    Lead(labels, w, verdicts, queued);
    var w1 := Next(w, queued);
    PullOfNameStarts(w, w1, used, name);
    Lead(labels + [queued], w1, verdicts, started);
    var w2 := Next(w1, started);
    PullOfNameEnds(w, w2, name, verdict);
    Lead(labels + [queued] + [started], w2, verdicts, ended);
    longer, w' := labels + [queued] + [started] + [ended], Next(w2, ended);
  }

  lemma NameIsQueued(w: World, used: set<string>, name: string)
    requires Rested(w.s, used) && name !in used && ValidFilename(name)
    ensures var l := NewManifest([name], {}, 0);
      && Enabled(w, l) && Collected(w, l, SOURCE) == []
      && Next(w, l).s == w.s.(queue := [name], queued := {name}) && Next(w, l).lastRound == w.lastRound
  {
    hide Sync, ValidFilename;
    OnlyNameIsQueued(w.s, used, name);
  }

  lemma PullOfNameStarts(w: World, w1: World, used: set<string>, name: string)
    requires Rested(w.s, used) && w.s.peers == {SOURCE} && name !in used
    requires w1.s == w.s.(queue := [name], queued := {name})
    ensures var l := Work(AnyEnv(), Started(1, SOURCE, [SOURCE], 0));
      && Enabled(w1, l) && Collected(w1, l, SOURCE) == [] && Next(w1, l).lastRound == w1.lastRound
      && Next(w1, l).s == w.s.(queue := [], queued := {name}, active := map[1 := Job(name, SOURCE)],
                               tried := w.s.tried[name := {SOURCE}], pulls := map[1 := Waiting])
  {
    hide Tier, RequestFor;
    SourceHasRoom(w.s, used, name);
    assert name !in w.s.tried;
    assert [name][1..] == [];
  }

  lemma PullOfNameEnds(w: World, w2: World, name: string, verdict: Verdict)
    requires w2.lastRound == 0
    requires w2.s == w.s.(queue := [], queued := {name}, active := map[1 := Job(name, SOURCE)],
                          tried := w.s.tried[name := {SOURCE}], pulls := map[1 := Waiting])
    ensures var l := OutcomeSet(1, verdict, 0);
      && Enabled(w2, l) && Collected(w2, l, SOURCE) == [] && Next(w2, l).lastRound == 0
      && Next(w2, l).s == Ended(w.s, name, verdict)
  {
  }

  lemma EndedIsReaped(s: Sched, used: set<string>, name: string, verdict: Verdict)
    requires Rested(s, used) && s.peers == {SOURCE} && name !in used && (verdict == Silent || verdict == NotReady)
    ensures Rested(Reap(Ended(s, name, verdict), 1, SELF, 0), used + {name})
  {
    var t := Ended(s, name, verdict);
    assert map[1 := Job(name, SOURCE)] - {1} == map[];
    assert map[1 := Done(verdict, 0)] - {1} == map[];
    assert !SomeoneUntried({SOURCE}, {SOURCE}, SELF) && !SomeoneUntried({}, {SOURCE}, SELF);
  }

  /** One more pull from `SOURCE`, of a name not used before. */
  lemma PullOnce(w: World, used: set<string>, name: string, verdict: Verdict, labels: seq<Label>, verdicts: seq<Verdict>)
      returns (longer: seq<Label>, w': World)
    requires Leading(labels, w, verdicts) && w.lastRound == 0
    requires Rested(w.s, used) && w.s.peers == {SOURCE} && name !in used && ValidFilename(name)
    requires verdict == Silent || verdict == NotReady
    ensures Leading(longer, w', verdicts + [verdict]) && w'.lastRound == 0 && Rested(w'.s, used + {name})
    ensures w'.s.peers ==
      if verdict == Silent && (SilencesInARow(verdicts) + 1) % EVICT_AFTER_UNRESPONSIVE == 0 then {} else {SOURCE}
  {
    hide Reap, Rested, ValidFilename, SilencesInARow;
    var ended, w1 := PullEnds(w, used, name, verdict, labels, verdicts);
    EndedIsReaped(w.s, used, name, verdict);
    var l := Work(AnyEnv(), Reaped(1, 0));
    assert Enabled(w1, l) && Collected(w1, l, SOURCE) == [verdict];
    Lead(ended, w1, verdicts, l);
    longer, w' := ended + [l], Next(w1, l);
    EvictionTakesThreeSilences(ended, w1, SOURCE, l);
    ReapOnlyTakesPeer(w1.s, 1, 0);
  }

  lemma ReapOnlyTakesPeer(s: Sched, id: u16, now: Time)
    requires Finished(s, id)
    ensures Reap(s, id, SELF, now).peers == s.peers || Reap(s, id, SELF, now).peers == s.peers - {s.active[id].peer}
  {
    SilenceIsCounted(s, AnyEnv(), id, now);
  }

  lemma NamesAreValid()
    ensures ValidFilename("a") && ValidFilename("b") && ValidFilename("c") && ValidFilename("d")
  {
  }

  /** Silent, not ready, silent, silent: the peer has answered, and is evicted. */
  lemma NotReadyDoesNotHelp() returns (labels: seq<Label>, w: World)
    ensures Leading(labels, w, [Silent, NotReady, Silent, Silent])
    ensures SOURCE !in w.s.peers
  {
    hide Rested, ValidFilename, Leading;
    NamesAreValid();
    var l0, w0 := StartWithSource();
    var l1, w1 := PullOnce(w0, {}, "a", Silent, l0, []);
    Rows();
    assert {} + {"a"} == {"a"} && [] + [Silent] == [Silent];
    var l2, w2 := PullOnce(w1, {"a"}, "b", NotReady, l1, [Silent]);
    assert {"a"} + {"b"} == {"a", "b"} && [Silent] + [NotReady] == [Silent, NotReady];
    var l3, w3 := PullOnce(w2, {"a", "b"}, "c", Silent, l2, [Silent, NotReady]);
    assert [Silent, NotReady] + [Silent] == [Silent, NotReady, Silent];
    labels, w := PullOnce(w3, {"a", "b"} + {"c"}, "d", Silent, l3, [Silent, NotReady, Silent]);
    assert [Silent, NotReady, Silent] + [Silent] == [Silent, NotReady, Silent, Silent];
  }

  lemma Rows()
    ensures SilencesInARow([]) == 0 && SilencesInARow([Silent, NotReady]) == 1 && SilencesInARow([Silent, NotReady, Silent]) == 2
  {
    OneMoreVerdict([], Silent);
    OneMoreVerdict([Silent], NotReady);
    OneMoreVerdict([Silent, NotReady], Silent);
    assert [] + [Silent] == [Silent] && [Silent] + [NotReady] == [Silent, NotReady]
      && [Silent, NotReady] + [Silent] == [Silent, NotReady, Silent];
  }

  lemma StartWithSource() returns (labels: seq<Label>, w: World)
    ensures Leading(labels, w, []) && w.lastRound == 0 && Rested(w.s, {}) && w.s.peers == {SOURCE}
  {
    var l := PeersAre({SOURCE});
    LastLabel(NewWorld(), l, SOURCE);
    labels, w := [l], Next(NewWorld(), l);
  }
}
