/** What every run of the download scheduler keeps. */
module SchedulerLaws {
  import opened Prelude
  import opened Text
  import opened PeerChoice
  import opened Scheduler
  import Codec

  const COMPLETE_GRACE: Time := 4000

  /**
   The scheduler in its surroundings: when `schedule_jobs` last ran, the names in the
   newest manifest, and the names that were in some manifest and left it.
   */
  datatype World = World(s: Sched, lastRound: Time, wanted: set<string>, gone: set<string>)

  datatype Label =
    | NewManifest(manifest: seq<string>, present: set<string>, now: Time)
    | OutcomeSet(id: u16, verdict: Verdict, at: Time)
    | Expiry(id: u16, at: Time)
    | PeersAre(peers: set<Addr>)
    | Work(env: Env, step: Step)
    | RoundEnds(started: Time)

  ghost predicate Enabled(w: World, l: Label) {
    match l
    case NewManifest(_, _, _) => true
    case OutcomeSet(id, _, at) => id in w.s.pulls && w.lastRound <= at
    case Expiry(id, at) => id in w.s.pulls && w.s.pulls[id].Done? && w.s.pulls[id].at + COMPLETE_GRACE <= at
    case PeersAre(_) => true
    case Work(env, step) => CanStep(w.s, env, step)
    case RoundEnds(started) => NoneFinished(w.s)
  }

  function Next(w: World, l: Label): World
    requires Enabled(w, l)
  {
    match l
    case NewManifest(manifest, present, now) =>
      World(Sync(w.s, manifest, present, now), w.lastRound, Names(manifest),
            w.gone + (w.wanted - Names(manifest)))
    case OutcomeSet(id, verdict, at) => w.(s := w.s.(pulls := w.s.pulls[id := Done(verdict, at)]))
    case Expiry(id, at) => w.(s := w.s.(pulls := w.s.pulls - {id}))
    case PeersAre(peers) => w.(s := w.s.(peers := peers))
    case Work(env, step) => w.(s := Take(w.s, env, step))
    case RoundEnds(started) => w.(lastRound := started)
  }

  /** Receivers are dropped at most `turn` after the last round: the length of a turn of the event loop. */
  predicate Timely(w: World, l: Label, turn: nat) {
    l.Expiry? ==> l.at <= w.lastRound + turn
  }

  /** No name returns to the manifest after leaving it. */
  predicate NoReturn(w: World, l: Label) {
    l.NewManifest? ==> Names(l.manifest) !! w.gone
  }

  function NewWorld(): World {
    World(Sched(map[], [], {}, map[], map[], map[], map[], {}, map[]), 0, {}, {})
  }

  /** A run with turns no longer than `turn`, and without returning names if asked for, ending in the given world. */
  ghost predicate IsRun(labels: seq<Label>, turn: nat, noReturn: bool, w: World)
    decreases |labels|
  {
    if labels == [] then w == NewWorld()
    else
      var l := labels[|labels| - 1];
      exists before ::
        && IsRun(labels[..|labels| - 1], turn, noReturn, before)
        && Enabled(before, l) && Timely(before, l, turn) && (noReturn ==> NoReturn(before, l))
        && w == Next(before, l)
  }

  // ----- What holds in every run

  predicate InFlight(active: map<u16, Job>, name: string) {
    exists id <- active :: active[id].name == name
  }

  /** Every name in `queued` is in the queue or in flight. */
  predicate Conserved(s: Sched) {
    forall name <- s.queued :: name in s.queue || InFlight(s.active, name)
  }

  /** Every job in flight has a receiver, whose outcome, if any, is newer than the last round. */
  predicate Live(s: Sched, lastRound: Time) {
    forall id <- s.active :: id in s.pulls && (s.pulls[id].Done? ==> lastRound <= s.pulls[id].at)
  }

  ghost predicate Bounded(s: Sched) {
    && |s.active| <= MAX_PARALLEL_DOWNLOADS
    && (forall p :: Load(s.active, p) <= MAX_INFLIGHT_PER_PEER)
    && (forall p <- s.hits :: 0 < s.hits[p] < EVICT_AFTER_UNRESPONSIVE)
  }

  ghost predicate Sound(w: World) {
    Conserved(w.s) && Live(w.s, w.lastRound) && Bounded(w.s)
  }

  lemma RetryKeepsSound(s: Sched, name: string, local: Addr, now: Time, lastRound: Time)
    requires Live(s, lastRound) && Bounded(s)
    requires forall other <- s.queued :: other == name || other in s.queue || InFlight(s.active, other)
    ensures Conserved(Retry(s, name, local, now))
    ensures Live(Retry(s, name, local, now), lastRound) && Bounded(Retry(s, name, local, now))
  {
  }

  lemma FewerJobs(active: map<u16, Job>, id: u16)
    requires id in active
    ensures |active - {id}| == |active| - 1
    ensures forall p :: Load(active - {id}, p) <= Load(active, p)
    ensures forall name :: InFlight(active, name) ==> name == active[id].name || InFlight(active - {id}, name)
  {
    var rest := active - {id};
    assert rest.Keys == active.Keys - {id};
    assert |rest.Keys| == |active.Keys| - 1;
    forall p
      ensures Load(rest, p) <= Load(active, p)
    {
      SubsetCount(PulledFrom(rest, p), PulledFrom(active, p));
    }
    forall name | InFlight(active, name)
      ensures name == active[id].name || InFlight(rest, name)
    {
      var other :| other in active && active[other].name == name;
      assert other != id ==> other in rest && rest[other].name == name;
    }
  }

  lemma OneMorePull(active: map<u16, Job>, id: u16, job: Job, p: Addr)
    requires id !in active
    ensures PulledFrom(active[id := job], p) == PulledFrom(active, p) + if p == job.peer then {id} else {}
  {
  }

  lemma OneMoreJob(active: map<u16, Job>, id: u16, job: Job, p: Addr)
    requires id !in active
    ensures |active[id := job]| == |active| + 1
    ensures Load(active[id := job], p) == Load(active, p) + if p == job.peer then 1 else 0
  {
    assert id !in PulledFrom(active, p);
    OneMorePull(active, id, job, p);
    hide PulledFrom;
    assert active[id := job].Keys == active.Keys + {id};
  }

  lemma NameInFlight(active: map<u16, Job>, id: u16, job: Job, name: string)
    requires id !in active
    ensures InFlight(active[id := job], name) <==> InFlight(active, name) || name == job.name
  {
    var more := active[id := job];
    if InFlight(active, name) {
      var other :| other in active && active[other].name == name;
      assert other in more && more[other].name == name;
    }
    assert id in more && more[id] == job;
  }

  lemma ReapKeepsSound(w: World, id: u16, local: Addr, now: Time)
    requires Sound(w) && Finished(w.s, id)
    ensures Sound(w.(s := Reap(w.s, id, local, now)))
  {
    hide Load, InFlight, Retry, ForgetCooling;
    var s, job, verdict := w.s, w.s.active[id], w.s.pulls[id].verdict;
    FewerJobs(s.active, id);
    var rest := s.(active := s.active - {id}, pulls := if verdict == Saved then s.pulls else s.pulls - {id});
    if verdict != Saved && verdict != NotReady {
      RetryKeepsSound(Blame(rest, job.peer, verdict == Silent), job.name, local, now, w.lastRound);
    }
  }

  /** `pick_peer` only ever answers with a peer that has room for one more pull. */
  lemma ChosenHasRoom(s: Sched, env: Env, known: seq<Addr>, name: string, now: Time, peer: Addr)
    requires peer in Tier(RequestFor(s, env, known, name, now))
    ensures Load(s.active, peer) < MAX_INFLIGHT_PER_PEER && peer !in Lookup(s.tried, name, {})
  {
    hide Tier;
    var q := RequestFor(s, env, known, name, now);
    ChosenIsUsable(q, peer);
    assert q.inflight(peer) == Load(s.active, peer);
  }

  lemma StartKeepsBounded(s: Sched, id: u16, peer: Addr)
    requires Bounded(s) && s.queue != [] && id !in s.active
    requires |s.active| < MAX_PARALLEL_DOWNLOADS && Load(s.active, peer) < MAX_INFLIGHT_PER_PEER
    ensures Bounded(Start(s, id, peer))
  {
    hide Load;
    forall p
      ensures Load(Start(s, id, peer).active, p) <= MAX_INFLIGHT_PER_PEER
    {
      OneMoreJob(s.active, id, Job(s.queue[0], peer), p);
    }
    OneMoreJob(s.active, id, Job(s.queue[0], peer), peer);
  }

  lemma StartKeepsConserved(s: Sched, id: u16, peer: Addr)
    requires Conserved(s) && s.queue != [] && id !in s.active
    ensures Conserved(Start(s, id, peer))
  {
    hide InFlight;
    var t := Start(s, id, peer);
    assert s.queue == [s.queue[0]] + t.queue;
    forall name <- t.queued
      ensures name in t.queue || InFlight(t.active, name)
    {
      NameInFlight(s.active, id, Job(s.queue[0], peer), name);
    }
  }

  lemma StartKeepsSound(w: World, env: Env, id: u16, peer: Addr, known: seq<Addr>, now: Time)
    requires Sound(w) && CanStart(w.s, env, known, id, peer, now)
    ensures Sound(w.(s := Start(w.s, id, peer)))
  {
    hide Load, InFlight, Tier, Conserved, Bounded, RequestFor;
    ChosenHasRoom(w.s, env, known, w.s.queue[0], now, peer);
    StartKeepsBounded(w.s, id, peer);
    StartKeepsConserved(w.s, id, peer);
  }

  lemma SyncKeepsSound(w: World, manifest: seq<string>, present: set<string>, now: Time)
    requires Sound(w)
    ensures var s := Sync(w.s, manifest, present, now);
      Conserved(s) && Live(s, w.lastRound) && Bounded(s)
  {
    hide Load, InFlight;
  }

  lemma StepKeepsSound(w: World, l: Label, turn: nat)
    requires Sound(w) && Enabled(w, l) && Timely(w, l, turn) && turn < COMPLETE_GRACE
    ensures Sound(Next(w, l))
  {
    hide Load, InFlight, Reap, Start, CanStart, Sync;
    match l
    case NewManifest(manifest, present, now) =>
      SyncKeepsSound(w, manifest, present, now);
    case OutcomeSet(id, verdict, at) =>
    case Expiry(id, at) =>
    case PeersAre(_) =>
    case Work(env, Reaped(id, now)) => ReapKeepsSound(w, id, env.local, now);
    case Work(env, Started(id, peer, known, now)) => StartKeepsSound(w, env, id, peer, known, now);
    case RoundEnds(_) =>
      assert forall id <- w.s.active :: !Finished(w.s, id);
  }

  /**
   In every run with turns shorter than the grace period: every name in `queued`
   is in the queue or in flight, every job in flight still has its receiver, at most four pulls
   are in flight and at most two from one peer.
   */
  lemma {:induction false} EveryRunIsSound(labels: seq<Label>, turn: nat, noReturn: bool, w: World)
    requires IsRun(labels, turn, noReturn, w) && turn < COMPLETE_GRACE
    ensures Sound(w)
    decreases |labels|
  {
    hide Sound, Enabled, Timely, NoReturn;
    if labels == [] {
      NewIsSound();
    } else {
      var l := labels[|labels| - 1];
      var before :| IsRun(labels[..|labels| - 1], turn, noReturn, before) && Enabled(before, l) && Timely(before, l, turn)
                    && (noReturn ==> NoReturn(before, l)) && w == Next(before, l);
      EveryRunIsSound(labels[..|labels| - 1], turn, noReturn, before);
      StepKeepsSound(before, l, turn);
    }
  }

  lemma ExtendRun(labels: seq<Label>, turn: nat, noReturn: bool, w: World, l: Label)
    requires IsRun(labels, turn, noReturn, w) && Enabled(w, l) && Timely(w, l, turn) && (noReturn ==> NoReturn(w, l))
    ensures IsRun(labels + [l], turn, noReturn, Next(w, l))
  {
    var longer := labels + [l];
    assert longer[..|longer| - 1] == labels && longer[|longer| - 1] == l;
    assert IsRun(longer[..|longer| - 1], turn, noReturn, w);
  }

  /** What one call of `schedule_jobs` does is a stretch of a run. */
  lemma {:induction false} RoundExtendsRun(labels: seq<Label>, turn: nat, noReturn: bool, w: World, env: Env, steps: seq<Step>, s': Sched, now: Time)
    requires IsRun(labels, turn, noReturn, w) && Leads(w.s, env, steps, s') && NoneFinished(s')
    ensures exists longer :: labels <= longer && IsRun(longer, turn, noReturn, World(s', now, w.wanted, w.gone))
    decreases |steps|
  {
    hide IsRun, NoneFinished, CanStep, Take;
    var l := if steps == [] then RoundEnds(now) else Work(env, steps[0]);
    ExtendRun(labels, turn, noReturn, w, l);
    if steps == [] {
      assert labels <= labels + [l];
    } else {
      RoundExtendsRun(labels + [l], turn, noReturn, Next(w, l), env, steps[1..], s', now);
    }
  }

  lemma NewIsSound()
    ensures Sound(NewWorld())
  {
    assert forall p :: PulledFrom(map[], p) == {};
  }

  // ----- How long a turn may be

  const SOURCE: Addr := Codec.V4(10, 0, 0, 1, 4000)
  const SELF: Addr := Codec.V4(10, 0, 0, 2, 4000)

  function AnyEnv(): Env {
    Env(a => a, name => a => None, {}, SELF, SOURCE, a => 50, a => true, {})
  }

  /** The job's receiver is gone while the job is still in flight. */
  predicate Lost(s: Sched, id: u16, job: Job) {
    id in s.active && s.active[id] == job && id !in s.pulls
  }

  /** One segment is wanted, and its pull has been started. */
  function OnePull(): World {
    var s := NewWorld().s.(active := map[1 := Job("a", SOURCE)], queued := {"a"}, peers := {SOURCE},
                           tried := map["a" := {SOURCE}], pulls := map[1 := Waiting]);
    World(s, 0, {"a"}, {})
  }

  function StartOfPull(): seq<Label> {
    [PeersAre({SOURCE}), NewManifest(["a"], {}, 0), Work(AnyEnv(), Started(1, SOURCE, [SOURCE], 0))]
  }

  lemma SourceIsChosen(s: Sched)
    requires s.active == map[] && s.tried == map[] && s.retryAfter == map[]
    ensures SOURCE in Tier(RequestFor(s, AnyEnv(), [SOURCE], "a", 0))
  {
    var q := RequestFor(s, AnyEnv(), [SOURCE], "a", 0);
    assert PulledFrom(s.active, SOURCE) == {};
    hide Tier;
    BootstrapKeepsPullAlive(q);
    var p := Tier(q)[0];
    ChosenIsUsable(q, p);
    assert Reached(q) == [SOURCE];
  }

  function OnePeer(): World {
    NewWorld().(s := NewWorld().s.(peers := {SOURCE}))
  }

  function OneWanted(): World {
    OnePeer().(s := OnePeer().s.(queue := ["a"], queued := {"a"}), wanted := {"a"})
  }

  lemma AIsValid()
    ensures ValidFilename("a")
  {
  }

  lemma NothingRetained(wanted: set<string>)
    ensures Retain([], wanted) == []
  {
  }

  lemma OneIsWanted()
    ensures Next(OnePeer(), NewManifest(["a"], {}, 0)) == OneWanted()
  {
    hide Additions, Retain, Reverse, ValidFilename;
    AIsValid();
    OneAddition(OnePeer().s, "a");
    NothingRetained(Names(["a"]));
  }

  lemma OneAddition(s: Sched, name: string)
    requires name !in s.queued && name !in s.failedAt && ValidFilename(name)
    ensures Additions(s, [name], {}, 0) == [name] && Reverse([name]) == [name] && Names([name]) == {name}
  {
    hide ValidFilename, Additions, Reverse;
    NothingAdded(s, {}, 0);
    AddOne(s, [name], 0, {}, 0);
    assert [name][..0] == [] && [name][..1] == [name] && [] + [name] == [name];
    ReverseGrows([], name);
  }

  lemma PullStarts()
    ensures var l := Work(AnyEnv(), Started(1, SOURCE, [SOURCE], 0));
      Enabled(OneWanted(), l) && Next(OneWanted(), l) == OnePull()
  {
    hide Tier, RequestFor;
    SourceIsChosen(OneWanted().s);
    assert ["a"][1..] == [];
  }

  lemma OnePullIsReached(turn: nat)
    ensures IsRun(StartOfPull(), turn, false, OnePull())
  {
    hide IsRun, Enabled, Next, OnePull, OnePeer, OneWanted, NewWorld;
    var labels := StartOfPull();
    NewIsRun(turn);
    PeerComes();
    OneIsWanted();
    ManifestComes();
    PullStarts();
    ExtendRun([], turn, false, NewWorld(), labels[0]);
    ExtendRun([] + [labels[0]], turn, false, OnePeer(), labels[1]);
    ExtendRun([] + [labels[0]] + [labels[1]], turn, false, OneWanted(), labels[2]);
    assert labels == [] + [labels[0]] + [labels[1]] + [labels[2]];
  }

  lemma PeerComes()
    ensures Enabled(NewWorld(), PeersAre({SOURCE})) && Next(NewWorld(), PeersAre({SOURCE})) == OnePeer()
  {
  }

  lemma ManifestComes()
    ensures Enabled(OnePeer(), NewManifest(["a"], {}, 0))
  {
  }

  lemma NewIsRun(turn: nat)
    ensures IsRun([], turn, false, NewWorld())
  {
  }

  /** The pull is saved at once, and dropped before the next round has collected it. */
  lemma LongTurnLosesJob(turn: nat) returns (labels: seq<Label>, w: World)
    requires turn >= COMPLETE_GRACE
    ensures IsRun(labels, turn, false, w) && Lost(w.s, 1, Job("a", SOURCE))
  {
    hide IsRun;
    OnePullIsReached(turn);
    var saved, dropped := OutcomeSet(1, Saved, 0), Expiry(1, COMPLETE_GRACE);
    ExtendRun(StartOfPull(), turn, false, OnePull(), saved);
    ExtendRun(StartOfPull() + [saved], turn, false, Next(OnePull(), saved), dropped);
    labels, w := StartOfPull() + [saved] + [dropped], Next(Next(OnePull(), saved), dropped);
  }

  /** All runs are sound exactly if turns are shorter than the grace period. */
  lemma TurnLengthDecides(turn: nat)
    ensures (forall labels, w :: IsRun(labels, turn, false, w) ==> Sound(w)) <==> turn < COMPLETE_GRACE
  {
    hide IsRun, Sound;
    if turn < COMPLETE_GRACE {
      forall labels, w | IsRun(labels, turn, false, w)
        ensures Sound(w)
      {
        EveryRunIsSound(labels, turn, false, w);
      }
    } else {
      var labels, w := LongTurnLosesJob(turn);
      LostIsUnsound(w, 1, Job("a", SOURCE));
    }
  }

  lemma LostIsUnsound(w: World, id: u16, job: Job)
    requires Lost(w.s, id, job)
    ensures !Sound(w)
  {
  }

  /** A stretch of behaviour without any assumption on time. */
  ghost predicate Continues(w: World, labels: seq<Label>, w': World)
    decreases |labels|
  {
    if labels == [] then w == w'
    else Enabled(w, labels[0]) && Continues(Next(w, labels[0]), labels[1..], w')
  }

  predicate Draws(l: Label, id: u16) {
    l.Work? && l.step.Started? && l.step.id == id
  }

  lemma LostStaysLost(w: World, l: Label, id: u16, job: Job)
    requires Lost(w.s, id, job) && Enabled(w, l) && !Draws(l, id)
    ensures Lost(Next(w, l).s, id, job)
  {
    hide Tier, RequestFor, Sync;
    match l
    case NewManifest(manifest, present, now) => SyncKeepsJobs(w.s, manifest, present, now);
    case Work(env, Reaped(other, now)) =>
      hide Reap;
    case _ =>
  }

  lemma SyncKeepsJobs(s: Sched, manifest: seq<string>, present: set<string>, now: Time)
    ensures Sync(s, manifest, present, now).active == s.active && Sync(s, manifest, present, now).pulls == s.pulls
    ensures Sync(s, manifest, present, now).failedAt == s.failedAt
    ensures Sync(s, manifest, present, now).retryAfter == s.retryAfter
  {
  }

  /** A lost job is never collected: it keeps its slot until its id is drawn for another pull. */
  lemma {:induction false} LostJobKeepsSlot(w: World, labels: seq<Label>, w': World, id: u16, job: Job)
    requires Lost(w.s, id, job) && Continues(w, labels, w')
    requires forall l <- labels :: !Draws(l, id)
    ensures Lost(w'.s, id, job)
    decreases |labels|
  {
    hide Lost, Enabled, Next;
    if labels != [] {
      LostStaysLost(w, labels[0], id, job);
      LostJobKeepsSlot(Next(w, labels[0]), labels[1..], w', id, job);
    }
  }

  // ----- No segment twice

  /** No name is queued twice, in flight twice, or both queued and in flight. */
  predicate Single(s: Sched) {
    && Distinct(s.queue)
    && (forall id <- s.active :: s.active[id].name !in s.queue)
    && (forall id <- s.active, other <- s.active :: id != other ==> s.active[id].name != s.active[other].name)
  }

  /** Whatever is queued or in flight is in `queued`, unless it has left the manifest. */
  predicate Accounted(w: World) {
    && (forall name <- w.s.queue :: name in w.s.queued || name in w.gone)
    && (forall id <- w.s.active :: w.s.active[id].name in w.s.queued || w.s.active[id].name in w.gone)
    && w.s.queued <= w.wanted
    && w.wanted !! w.gone
  }

  /** The source of a pull in flight counts as tried. */
  predicate AskedIsTried(s: Sched) {
    forall id <- s.active :: s.active[id].peer in Lookup(s.tried, s.active[id].name, {})
  }

  predicate NoDuplicates(w: World) {
    Single(w.s) && Accounted(w) && AskedIsTried(w.s)
  }

  lemma {:induction false} RetainKeepsDistinct(queue: seq<string>, wanted: set<string>)
    requires Distinct(queue)
    ensures Distinct(Retain(queue, wanted))
  {
    if queue != [] {
      RetainKeepsDistinct(queue[..|queue| - 1], wanted);
      assert queue[|queue| - 1] !in queue[..|queue| - 1];
    }
  }

  lemma {:induction false} AdditionsAreDistinct(s: Sched, manifest: seq<string>, present: set<string>, now: Time)
    ensures Distinct(Additions(s, manifest, present, now))
  {
    hide Needed;
    if manifest != [] {
      AdditionsAreDistinct(s, manifest[..|manifest| - 1], present, now);
    }
  }

  lemma ReverseIsDistinct(s: seq<string>)
    requires Distinct(s)
    ensures Distinct(Reverse(s))
  {
  }

  lemma JoinIsDistinct(a: seq<string>, b: seq<string>)
    requires Distinct(a) && Distinct(b)
    ensures Distinct(a + b) <==> forall x <- a :: x !in b
  {
    if x :| x in a && x in b {
      var i :| 0 <= i < |a| && a[i] == x;
      var j :| 0 <= j < |b| && b[j] == x;
      assert (a + b)[i] == (a + b)[|a| + j];
    } else {
      assert forall i, j :: 0 <= i < |a| && 0 <= j < |b| ==> a[i] in a && b[j] in b;
    }
  }

  /** `sync_queue` duplicates nothing exactly if no name it adds is still queued or in flight. */
  lemma SyncDuplicates(s: Sched, manifest: seq<string>, present: set<string>, now: Time)
    requires Single(s)
    ensures Single(Sync(s, manifest, present, now)) <==>
      forall x <- Additions(s, manifest, present, now) :: x !in s.queue && !InFlight(s.active, x)
  {
    hide Needed, Additions, Reverse, Retain, Distinct;
    var added, kept := Additions(s, manifest, present, now), Retain(s.queue, Names(manifest));
    AdditionsAreDistinct(s, manifest, present, now);
    ReverseIsDistinct(added);
    RetainKeepsDistinct(s.queue, Names(manifest));
    JoinIsDistinct(Reverse(added), kept);
    assert forall x <- added :: x in Names(manifest);
    var s' := Sync(s, manifest, present, now);
    assert forall x :: x in s'.queue <==> x in added || x in kept;
  }

  lemma SyncKeepsNoDuplicates(w: World, manifest: seq<string>, present: set<string>, now: Time)
    requires NoDuplicates(w) && NoReturn(w, NewManifest(manifest, present, now))
    ensures NoDuplicates(Next(w, NewManifest(manifest, present, now)))
  {
    hide Needed, Additions, Reverse, Retain, Distinct, Single;
    SyncDuplicates(w.s, manifest, present, now);
    var added, kept := Additions(w.s, manifest, present, now), Retain(w.s.queue, Names(manifest));
    var s' := Sync(w.s, manifest, present, now);
    assert forall x :: x in s'.queue <==> x in added || x in kept;
    assert forall x <- added :: x in Names(manifest) && x !in w.gone;
  }

  lemma AddingIsDistinct(q: seq<string>, name: string)
    requires Distinct(q) && name !in q
    ensures Distinct([name] + q) && Distinct(q + [name])
  {
  }

  /** The state with one job less: its name is now nowhere. */
  predicate JobGone(w: World, name: string) {
    && NoDuplicates(w)
    && name !in w.s.queue
    && (forall id <- w.s.active :: w.s.active[id].name != name)
  }

  lemma RemovingJob(w: World, id: u16, pulls: map<u16, Pull>)
    requires NoDuplicates(w) && id in w.s.active
    ensures JobGone(w.(s := w.s.(active := w.s.active - {id}, pulls := pulls)), w.s.active[id].name)
  {
  }

  predicate OthersTried(s: Sched, name: string, s': Sched) {
    forall other <- s.tried.Keys + s'.tried.Keys ::
      other != name ==> Lookup(s'.tried, other, {}) == Lookup(s.tried, other, {})
  }

  predicate Requeued(s: Sched, name: string, s': Sched) {
    && s'.active == s.active && s'.queued == s.queued && OthersTried(s, name, s')
    && (s'.queue == [name] + s.queue || s'.queue == s.queue + [name])
  }

  predicate Dropped(s: Sched, name: string, s': Sched) {
    s'.active == s.active && s'.queued == s.queued - {name} && s'.queue == s.queue && OthersTried(s, name, s')
  }

  lemma SavedIsDropped(s: Sched, name: string, s': Sched)
    requires s' == s.(queued := s.queued - {name}, tried := s.tried - {name}, retryAfter := s'.retryAfter, hits := s'.hits)
    ensures Dropped(s, name, s')
  {
  }

  lemma NotReadyIsRequeued(s: Sched, name: string, s': Sched)
    requires s' == s.(retryAfter := s'.retryAfter, tried := s'.tried, queue := s.queue + [name])
    requires s'.tried == s.tried || (name in s.tried && name in s'.tried && s'.tried == s.tried[name := s'.tried[name]])
    ensures Requeued(s, name, s')
  {
  }

  lemma FailedIsRequeuedOrDropped(s: Sched, blamed: Sched, name: string, local: Addr, now: Time)
    requires blamed == s.(hits := blamed.hits, peers := blamed.peers)
    ensures var s' := Retry(blamed, name, local, now); Requeued(s, name, s') || Dropped(s, name, s')
  {
  }

  /** A collected pull leaves its name in the queue or in no container. */
  lemma ReapedIsRequeuedOrDropped(s: Sched, id: u16, local: Addr, now: Time)
    requires Finished(s, id)
    ensures var name, s' := s.active[id].name, Reap(s, id, local, now);
      var rest := s.(active := s.active - {id}, pulls := s'.pulls);
      Requeued(rest, name, s') || Dropped(rest, name, s')
  {
    hide SomeoneUntried, ForgetCooling, Blame, Retry, Requeued, Dropped;
    var job, verdict := s.active[id], s.pulls[id].verdict;
    var rest := s.(active := s.active - {id}, pulls := if verdict == Saved then s.pulls else s.pulls - {id});
    match verdict
    case Saved => SavedIsDropped(rest, job.name, Reap(s, id, local, now));
    case NotReady => NotReadyIsRequeued(rest, job.name, Reap(s, id, local, now));
    case _ =>
      var blamed := Blame(rest, job.peer, verdict == Silent);
      FailedIsRequeuedOrDropped(rest, blamed, job.name, local, now);
  }

  lemma RequeueKeepsNoDuplicates(w: World, name: string, s': Sched)
    requires JobGone(w, name) && (name in w.s.queued || name in w.gone)
    requires Requeued(w.s, name, s')
    ensures NoDuplicates(w.(s := s'))
  {
    hide Distinct;
    AddingIsDistinct(w.s.queue, name);
  }

  lemma DropKeepsNoDuplicates(w: World, name: string, s': Sched)
    requires JobGone(w, name)
    requires Dropped(w.s, name, s')
    ensures NoDuplicates(w.(s := s'))
  {
    hide Distinct;
  }

  lemma ReapKeepsNoDuplicates(w: World, id: u16, local: Addr, now: Time)
    requires NoDuplicates(w) && Finished(w.s, id)
    ensures NoDuplicates(w.(s := Reap(w.s, id, local, now)))
  {
    hide Single, AskedIsTried, JobGone, NoDuplicates, Reap, Requeued, Dropped;
    var s', name := Reap(w.s, id, local, now), w.s.active[id].name;
    var rest := w.s.(active := w.s.active - {id}, pulls := s'.pulls);
    RemovingJob(w, id, s'.pulls);
    NameIsAccounted(w, id);
    ReapedIsRequeuedOrDropped(w.s, id, local, now);
    if Requeued(rest, name, s') {
      RequeueKeepsNoDuplicates(w.(s := rest), name, s');
    } else {
      DropKeepsNoDuplicates(w.(s := rest), name, s');
    }
  }

  lemma NameIsAccounted(w: World, id: u16)
    requires NoDuplicates(w) && id in w.s.active
    ensures w.s.active[id].name in w.s.queued || w.s.active[id].name in w.gone
  {
  }

  lemma StartKeepsNoDuplicates(w: World, id: u16, peer: Addr)
    requires NoDuplicates(w) && w.s.queue != [] && id !in w.s.active
    ensures NoDuplicates(w.(s := Start(w.s, id, peer)))
  {
    assert w.s.queue == [w.s.queue[0]] + w.s.queue[1..];
    assert w.s.queue[0] !in w.s.queue[1..];
  }

  lemma StepKeepsNoDuplicates(w: World, l: Label)
    requires Sound(w) && NoDuplicates(w) && Enabled(w, l) && NoReturn(w, l)
    ensures NoDuplicates(Next(w, l))
  {
    hide Reap, Start, Conserved, Bounded, Distinct, Sync;
    match l
    case NewManifest(manifest, present, now) =>
      SyncKeepsNoDuplicates(w, manifest, present, now);
    case Work(env, Reaped(id, now)) => ReapKeepsNoDuplicates(w, id, env.local, now);
    case Work(env, Started(id, peer, known, now)) => StartKeepsNoDuplicates(w, id, peer);
    case _ =>
  }

  /** While no name returns to the manifest after leaving it, no segment is queued or pulled twice at a time. */
  lemma {:induction false} EveryRunIsFreeOfDuplicates(labels: seq<Label>, turn: nat, w: World)
    requires IsRun(labels, turn, true, w) && turn < COMPLETE_GRACE
    ensures Single(w.s) && Accounted(w) && AskedIsTried(w.s)
    decreases |labels|
  {
    hide Sound, Enabled, Timely, NoReturn;
    if labels != [] {
      var l := labels[|labels| - 1];
      var before :| IsRun(labels[..|labels| - 1], turn, true, before) && Enabled(before, l) && Timely(before, l, turn)
                    && NoReturn(before, l) && w == Next(before, l);
      EveryRunIsFreeOfDuplicates(labels[..|labels| - 1], turn, before);
      EveryRunIsSound(labels[..|labels| - 1], turn, true, before);
      StepKeepsNoDuplicates(before, l);
    }
  }

  // ----- Nobody is asked twice

  /** Collecting this pull ends the search for its name: saved, put off by the source, or given up. */
  predicate Forgets(s: Sched, env: Env, id: u16)
    requires Finished(s, id)
  {
    var job, verdict := s.active[id], s.pulls[id].verdict;
    || verdict == Saved || verdict == NotReady
    || !SomeoneUntried(Blame(s, job.peer, verdict == Silent).peers, Lookup(s.tried, job.name, {}), env.local)
  }

  ghost predicate StartsPull(w: World, l: Label, name: string) {
    l.Work? && l.step.Started? && Enabled(w, l) && w.s.queue[0] == name
  }

  ghost predicate EndsSearch(w: World, l: Label, name: string) {
    l.Work? && l.step.Reaped? && Enabled(w, l) && w.s.active[l.step.id].name == name && Forgets(w.s, l.env, l.step.id)
  }

  /** A stretch of a run during which the search for `name` goes on; `asked` are the sources it tries. */
  ghost predicate Searches(w: World, labels: seq<Label>, name: string, asked: seq<Addr>, w': World)
    decreases |labels|
  {
    if labels == [] then w == w' && asked == []
    else
      var l := labels[0];
      && Enabled(w, l) && !EndsSearch(w, l, name)
      && if StartsPull(w, l, name) then
           asked != [] && asked[0] == l.step.peer && Searches(Next(w, l), labels[1..], name, asked[1..], w')
         else
           Searches(Next(w, l), labels[1..], name, asked, w')
  }

  function TriedFor(s: Sched, name: string): set<Addr> {
    Lookup(s.tried, name, {})
  }

  lemma ReapKeepsSearch(s: Sched, env: Env, id: u16, now: Time, name: string)
    requires Finished(s, id) && !(s.active[id].name == name && Forgets(s, env, id))
    ensures TriedFor(Reap(s, id, env.local, now), name) == TriedFor(s, name)
  {
    hide SomeoneUntried, ForgetCooling;
  }

  lemma SearchStep(w: World, l: Label, name: string)
    requires Enabled(w, l) && !EndsSearch(w, l, name)
    ensures var before, after := TriedFor(w.s, name), TriedFor(Next(w, l).s, name);
      if StartsPull(w, l, name) then l.step.peer !in before && after == before + {l.step.peer}
      else after == before
  {
    hide Tier, RequestFor, Forgets, Reap, Additions, Retain, Load;
    match l
    case Work(env, Reaped(id, now)) => ReapKeepsSearch(w.s, env, id, now, name);
    case Work(env, Started(id, peer, known, now)) => ChosenHasRoom(w.s, env, known, w.s.queue[0], now, peer);
    case _ =>
  }

  /** While the search for a segment goes on no source is asked twice, nor any that was tried before. */
  lemma {:induction false} NobodyIsAskedTwice(w: World, labels: seq<Label>, name: string, asked: seq<Addr>, w': World)
    requires Searches(w, labels, name, asked, w')
    ensures Distinct(asked)
    ensures forall p <- asked :: p !in TriedFor(w.s, name)
    ensures TriedFor(w'.s, name) == TriedFor(w.s, name) + (set p | p in asked)
    decreases |labels|
  {
    hide Enabled, EndsSearch, StartsPull, Next;
    if labels != [] {
      var l := labels[0];
      SearchStep(w, l, name);
      if StartsPull(w, l, name) {
        NobodyIsAskedTwice(Next(w, l), labels[1..], name, asked[1..], w');
        assert asked == [asked[0]] + asked[1..];
      } else {
        NobodyIsAskedTwice(Next(w, l), labels[1..], name, asked, w');
      }
    }
  }

  // ----- The order of the queue

  /** The first place a name has in the manifest. */
  function FirstAt(manifest: seq<string>, name: string): (i: nat)
    requires name in manifest
    ensures i < |manifest| && manifest[i] == name && name !in manifest[..i]
  {
    var front := manifest[..|manifest| - 1];
    assert manifest == front + [manifest[|manifest| - 1]];
    if name in front then
      assert manifest[..FirstAt(front, name)] == front[..FirstAt(front, name)];
      FirstAt(front, name)
    else |manifest| - 1
  }

  /** The names occur in the manifest, one after another. */
  predicate InOrder(manifest: seq<string>, names: seq<string>) {
    && (forall i :: 0 <= i < |names| ==> names[i] in manifest)
    && (forall i, j :: 0 <= i < j < |names| ==> FirstAt(manifest, names[i]) < FirstAt(manifest, names[j]))
  }

  lemma LongerManifest(front: seq<string>, last: string, names: seq<string>)
    requires InOrder(front, names)
    ensures InOrder(front + [last], names)
    ensures last !in front ==> InOrder(front + [last], names + [last])
  {
    var manifest := front + [last];
    assert manifest[..|front|] == front && manifest[|front|] == last;
    assert forall x <- front :: x in manifest && FirstAt(manifest, x) == FirstAt(front, x);
  }

  lemma {:induction false} AdditionsKeepOrder(s: Sched, manifest: seq<string>, present: set<string>, now: Time)
    ensures InOrder(manifest, Additions(s, manifest, present, now))
  {
    hide Needed, InOrder;
    if manifest == [] {
      NothingInOrder();
    } else {
      var front, last := manifest[..|manifest| - 1], manifest[|manifest| - 1];
      AdditionsKeepOrder(s, front, present, now);
      assert manifest == front + [last];
      LongerManifest(front, last, Additions(s, front, present, now));
    }
  }

  lemma NothingInOrder()
    ensures InOrder([], [])
  {
  }

  /** After `sync_queue` the queue holds exactly the names of the manifest that were queued before or are newly needed. */
  lemma SyncedQueue(s: Sched, manifest: seq<string>, present: set<string>, now: Time)
    ensures forall x :: x in Sync(s, manifest, present, now).queue <==>
      x in manifest && (x in s.queue || (x !in s.queued && Needed(s, present, now, x)))
  {
    hide Needed, Retain, Additions, Reverse;
  }

  /** The newly queued names come first, and of two of them the later one in the manifest. */
  lemma NewestFirst(s: Sched, manifest: seq<string>, present: set<string>, now: Time)
    ensures var q, added := Sync(s, manifest, present, now).queue, Additions(s, manifest, present, now);
      && |added| <= |q| && q[|added|..] == Retain(s.queue, Names(manifest))
      && (forall i :: 0 <= i < |added| ==> q[i] in manifest && q[i] !in s.queued)
      && (forall i, j :: 0 <= i < j < |added| ==> FirstAt(manifest, q[i]) > FirstAt(manifest, q[j]))
  {
    hide Needed, Retain;
    AdditionsKeepOrder(s, manifest, present, now);
  }

  // ----- What does not hold

  /** A name that leaves the manifest while it is pulled, and comes back, is queued beside its own pull. */
  lemma ReturningNameIsDuplicated(s: Sched, id: u16, without: seq<string>, again: seq<string>, present: set<string>, now: Time)
    requires id in s.active && s.active[id].name !in without && s.active[id].name in again
    requires Needed(s, present, now, s.active[id].name)
    ensures var name, s' := s.active[id].name, Sync(Sync(s, without, present, now), again, present, now);
      name in s'.queue && id in s'.active && s'.active[id].name == name && !Single(s')
  {
    hide Needed;
    NeededDependsOnCooling(s, Sync(s, without, present, now), present, now, s.active[id].name);
  }

  /** From the start: "a" is queued while it is pulled. */
  lemma ReturningNameIsReached(turn: nat) returns (labels: seq<Label>, w: World)
    ensures IsRun(labels, turn, false, w) && 1 in w.s.active && w.s.active[1].name in w.s.queue
  {
    hide IsRun, Additions, Retain;
    OnePullIsReached(turn);
    var gone, back := NewManifest([], {}, 0), NewManifest(["a"], {}, 0);
    ExtendRun(StartOfPull(), turn, false, OnePull(), gone);
    ExtendRun(StartOfPull() + [gone], turn, false, Next(OnePull(), gone), back);
    AIsValid();
    ReturningNameIsDuplicated(OnePull().s, 1, [], ["a"], {}, 0);
    labels, w := StartOfPull() + [gone] + [back], Next(Next(OnePull(), gone), back);
  }

  /** From the start: "a" is queued and not in `queued`. */
  lemma UnlistedNameIsReached(turn: nat) returns (labels: seq<Label>, w: World)
    ensures IsRun(labels, turn, false, w) && "a" in w.s.queue && "a" !in w.s.queued
  {
    hide IsRun, Additions, Retain;
    OnePullIsReached(turn);
    var gone, refused, reaped := NewManifest([], {}, 0), OutcomeSet(1, NotReady, 0), Work(AnyEnv(), Reaped(1, 0));
    ExtendRun(StartOfPull(), turn, false, OnePull(), gone);
    var w1 := Next(OnePull(), gone);
    ExtendRun(StartOfPull() + [gone], turn, false, w1, refused);
    var w2 := Next(w1, refused);
    ExtendRun(StartOfPull() + [gone] + [refused], turn, false, w2, reaped);
    labels, w := StartOfPull() + [gone] + [refused] + [reaped], Next(w2, reaped);
    assert "a" in [] + ["a"];
  }

  lemma NeededDependsOnCooling(s: Sched, s': Sched, present: set<string>, now: Time, name: string)
    requires s.failedAt == s'.failedAt
    ensures Needed(s, present, now, name) == Needed(s', present, now, name)
  {
  }

  /**
   Collecting a pull keeps the queue within `queued` exactly if the name is in `queued`
   or is not queued again: a failed pull of a name that left the manifest breaks it.
   */
  lemma QueueStaysWithinQueued(s: Sched, env: Env, id: u16, now: Time)
    requires Finished(s, id) && s.active[id].name !in s.queue
    requires forall x <- s.queue :: x in s.queued
    ensures var name, verdict, s' := s.active[id].name, s.pulls[id].verdict, Reap(s, id, env.local, now);
      (forall x <- s'.queue :: x in s'.queued) <==>
      name in s.queued || (Forgets(s, env, id) && verdict != NotReady)
  {
    hide Reap, Forgets;
    ReapedQueue(s, env, id, now);
    var name := s.active[id].name;
    assert name in [name] + s.queue && name in s.queue + [name];
  }

  lemma ReapedQueue(s: Sched, env: Env, id: u16, now: Time)
    requires Finished(s, id)
    ensures var name, s' := s.active[id].name, Reap(s, id, env.local, now);
      if Forgets(s, env, id) && s.pulls[id].verdict != NotReady then
        s'.queue == s.queue && s'.queued == s.queued - {name}
      else
        s'.queued == s.queued && (s'.queue == [name] + s.queue || s'.queue == s.queue + [name])
  {
    hide SomeoneUntried, ForgetCooling;
  }

  // ----- What a failed pull has for consequence

  lemma GiveUpIsRecorded(s: Sched, env: Env, id: u16, now: Time)
    requires Finished(s, id) && Forgets(s, env, id)
    requires s.pulls[id].verdict != Saved && s.pulls[id].verdict != NotReady
    ensures var name, s' := s.active[id].name, Reap(s, id, env.local, now);
      name in s'.failedAt && s'.failedAt[name] == now && name !in s'.queued
  {
    hide SomeoneUntried, ForgetCooling;
  }

  /** The label's time lies in the cooldown that began at `since`. */
  predicate During(l: Label, since: Time) {
    && (l.NewManifest? ==> l.now < since + FAIL_RETRY_COOLDOWN)
    && (l.Work? ==> since <= l.step.now)
  }

  /** Given up no earlier than `since`, and in no container. */
  predicate GivenUp(s: Sched, name: string, since: Time) {
    && name in s.failedAt && since <= s.failedAt[name]
    && name !in s.queued && name !in s.queue && !InFlight(s.active, name)
  }

  lemma SyncLeavesGivenUp(s: Sched, manifest: seq<string>, present: set<string>, now: Time, name: string, since: Time)
    requires GivenUp(s, name, since) && now < since + FAIL_RETRY_COOLDOWN
    ensures GivenUp(Sync(s, manifest, present, now), name, since)
  {
    hide ValidFilename, InFlight;
  }

  lemma ReapLeavesGivenUp(s: Sched, env: Env, id: u16, now: Time, name: string, since: Time)
    requires GivenUp(s, name, since) && Finished(s, id) && since <= now
    ensures GivenUp(Reap(s, id, env.local, now), name, since)
  {
    hide SomeoneUntried, ForgetCooling;
    assert s.active[id].name != name;
  }

  lemma StartLeavesGivenUp(s: Sched, id: u16, peer: Addr, name: string, since: Time)
    requires GivenUp(s, name, since) && s.queue != []
    ensures GivenUp(Start(s, id, peer), name, since)
  {
    assert s.queue[0] in s.queue;
  }

  lemma {:induction false} StaysGivenUp(w: World, labels: seq<Label>, w': World, name: string, since: Time)
    requires GivenUp(w.s, name, since) && Continues(w, labels, w')
    requires forall l <- labels :: During(l, since)
    ensures GivenUp(w'.s, name, since)
    decreases |labels|
  {
    hide GivenUp, Reap, Start, Sync, Tier, RequestFor;
    if labels != [] {
      assert During(labels[0], since);
      match labels[0] {
        case NewManifest(manifest, present, now) => SyncLeavesGivenUp(w.s, manifest, present, now, name, since);
        case Work(env, Reaped(id, now)) => ReapLeavesGivenUp(w.s, env, id, now, name, since);
        case Work(_, Started(id, peer, _, _)) => StartLeavesGivenUp(w.s, id, peer, name, since);
        case _ => SameFieldsGivenUp(w.s, Next(w, labels[0]).s, name, since);
      }
      StaysGivenUp(Next(w, labels[0]), labels[1..], w', name, since);
    }
  }

  lemma SameFieldsGivenUp(s: Sched, s': Sched, name: string, since: Time)
    requires GivenUp(s, name, since)
    requires s'.failedAt == s.failedAt && s'.queue == s.queue && s'.queued == s.queued && s'.active == s.active
    ensures GivenUp(s', name, since)
  {
  }

  /** The name is neither queued nor pulled a second time beside this pull. */
  predicate OnlyJobOfItsName(s: Sched, id: u16)
    requires id in s.active
  {
    !InFlight(s.active - {id}, s.active[id].name) && s.active[id].name !in s.queue
  }

  /** In a state without duplicates that is so of every job. */
  lemma SingleJobs(s: Sched, id: u16)
    requires Single(s) && id in s.active
    ensures OnlyJobOfItsName(s, id)
  {
  }

  /** A segment that was given up is neither queued nor pulled again, whatever happens, before the cooldown is over. */
  lemma GivenUpNameWaits(w: World, env: Env, id: u16, now: Time, labels: seq<Label>, w': World)
    requires Finished(w.s, id) && Forgets(w.s, env, id) && OnlyJobOfItsName(w.s, id)
    requires w.s.pulls[id].verdict != Saved && w.s.pulls[id].verdict != NotReady
    requires Continues(Next(w, Work(env, Reaped(id, now))), labels, w')
    requires forall l <- labels :: During(l, now)
    ensures var name := w.s.active[id].name;
      name !in w'.s.queued && name !in w'.s.queue && !InFlight(w'.s.active, name)
  {
    hide Reap, Forgets, InFlight;
    var name := w.s.active[id].name;
    GiveUpIsRecorded(w.s, env, id, now);
    ReapedQueue(w.s, env, id, now);
    StaysGivenUp(Next(w, Work(env, Reaped(id, now))), labels, w', name, now);
  }

  predicate PutOff(s: Sched, name: string, peer: Addr, until: Time) {
    (name, peer) in s.retryAfter && until <= s.retryAfter[(name, peer)]
  }

  predicate Saves(w: World, l: Label, name: string) {
    && l.Work? && l.step.Reaped? && Finished(w.s, l.step.id)
    && w.s.active[l.step.id].name == name && w.s.pulls[l.step.id].verdict == Saved
  }

  lemma StepLeavesPutOff(w: World, l: Label, name: string, peer: Addr, since: Time)
    requires PutOff(w.s, name, peer, since + FAIL_RETRY_COOLDOWN) && Enabled(w, l)
    requires (l.Work? ==> since <= l.step.now) && !Saves(w, l, name)
    ensures PutOff(Next(w, l).s, name, peer, since + FAIL_RETRY_COOLDOWN)
  {
    hide Tier, RequestFor, Sync, SomeoneUntried;
    match l
    case NewManifest(manifest, present, now) => SyncKeepsJobs(w.s, manifest, present, now);
    case _ =>
  }

  /** As long as no pull of `name` is saved, and the clock does not go back. */
  ghost predicate SearchedFrom(w: World, labels: seq<Label>, name: string, since: Time)
    decreases |labels|
  {
    labels == [] ||
    (Enabled(w, labels[0]) && !Saves(w, labels[0], name) && (labels[0].Work? ==> since <= labels[0].step.now)
     && SearchedFrom(Next(w, labels[0]), labels[1..], name, since))
  }

  lemma {:induction false} StaysPutOff(w: World, labels: seq<Label>, w': World, name: string, peer: Addr, since: Time)
    requires PutOff(w.s, name, peer, since + FAIL_RETRY_COOLDOWN) && Continues(w, labels, w')
    requires SearchedFrom(w, labels, name, since)
    ensures PutOff(w'.s, name, peer, since + FAIL_RETRY_COOLDOWN)
    decreases |labels|
  {
    hide PutOff, Enabled, Next, Saves;
    if labels != [] {
      StepLeavesPutOff(w, labels[0], name, peer, since);
      StaysPutOff(Next(w, labels[0]), labels[1..], w', name, peer, since);
    }
  }

  lemma PutOffIsNotChosen(s: Sched, env: Env, known: seq<Addr>, name: string, peer: Addr, until: Time, later: Time)
    requires PutOff(s, name, peer, until) && later < until
    ensures peer !in Tier(RequestFor(s, env, known, name, later))
  {
    hide Tier;
    var q := RequestFor(s, env, known, name, later);
    assert (name, peer) in s.retryAfter && later < s.retryAfter[(name, peer)];
    assert peer in q.cooling;
    if peer in Tier(q) {
      ChosenIsUsable(q, peer);
    }
  }

  /**
   A source that was not ready counts as untried at once, but until the cooldown is over it is not
   chosen for the segment again, whatever happens, unless the segment is saved in between.
   */
  lemma PutOffSourceWaits(w: World, env: Env, id: u16, now: Time, labels: seq<Label>, w': World,
                          env': Env, known: seq<Addr>, later: Time)
    requires Finished(w.s, id) && w.s.pulls[id].verdict == NotReady
    requires Continues(Next(w, Work(env, Reaped(id, now))), labels, w')
    requires SearchedFrom(Next(w, Work(env, Reaped(id, now))), labels, w.s.active[id].name, now)
    ensures var job := w.s.active[id];
      && job.peer !in TriedFor(Next(w, Work(env, Reaped(id, now))).s, job.name)
      && (later < now + FAIL_RETRY_COOLDOWN ==> job.peer !in Tier(RequestFor(w'.s, env', known, job.name, later)))
  {
    hide Tier, RequestFor, Continues, SearchedFrom;
    var job, w1 := w.s.active[id], Next(w, Work(env, Reaped(id, now)));
    StaysPutOff(w1, labels, w', job.name, job.peer, now);
    if later < now + FAIL_RETRY_COOLDOWN {
      PutOffIsNotChosen(w'.s, env', known, job.name, job.peer, now + FAIL_RETRY_COOLDOWN, later);
    }
  }

  /** What collecting one pull does to the counts of silences. */
  lemma SilenceIsCounted(s: Sched, env: Env, id: u16, now: Time)
    requires Finished(s, id)
    ensures var peer, verdict, s' := s.active[id].peer, s.pulls[id].verdict, Reap(s, id, env.local, now);
      var silences := if verdict == Silent then Lookup(s.hits, peer, 0) + 1
                      else if verdict == NotReady then Lookup(s.hits, peer, 0) else 0;
      && s'.peers == (if verdict == Silent && silences >= EVICT_AFTER_UNRESPONSIVE then s.peers - {peer} else s.peers)
      && Lookup(s'.hits, peer, 0) == (if verdict == Silent && silences >= EVICT_AFTER_UNRESPONSIVE then 0 else silences)
      && (forall other :: other != peer ==> Lookup(s'.hits, other, 0) == Lookup(s.hits, other, 0))
  {
    hide SomeoneUntried, ForgetCooling, Retry;
  }
}
