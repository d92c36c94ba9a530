/**
 The download scheduler: `sync_queue` and `schedule_jobs`.

 The steps are functions on the value `Sched`; the class `DownloadScheduler` holds its
 fields and its two methods are proved to take exactly such steps. The order in which
 finished pulls are met, the fresh transfer ids and the rolls are arbitrary.
 */
module Scheduler {
  import opened Prelude
  import opened Text
  import opened PeerChoice

  type Time = int

  const MAX_PARALLEL_DOWNLOADS := 4
  const FAIL_RETRY_COOLDOWN: Time := 5000
  const EVICT_AFTER_UNRESPONSIVE := 3
  const MAX_CONCURRENT_TRANSFERS := 32

  datatype Verdict = Saved | Silent | NotReady | Missing | Broken

  /** What the registry knows about one of its receivers; `at` is when the outcome was set. */
  datatype Pull = Waiting | Done(verdict: Verdict, at: Time)

  datatype Job = Job(name: string, peer: Addr)

  datatype Sched = Sched(
    active: map<u16, Job>,
    queue: seq<string>,
    queued: set<string>,
    tried: map<string, set<Addr>>,
    failedAt: map<string, Time>,
    retryAfter: map<(string, Addr), Time>,
    hits: map<Addr, nat>,
    peers: set<Addr>,
    pulls: map<u16, Pull>)

  /** What the scheduler reads and never writes; `busy` holds the ids of the registry's senders. */
  datatype Env = Env(
    reach: Addr -> Addr,
    answer: string -> Addr -> Option<bool>,
    parents: set<Addr>,
    local: Addr,
    bootstrap: Addr,
    score: Addr -> nat,
    freshPath: Addr -> bool,
    busy: set<u16>)

  function Lookup<K, V>(m: map<K, V>, k: K, default: V): V {
    if k in m then m[k] else default
  }

  function PulledFrom(active: map<u16, Job>, p: Addr): set<u16> {
    set id | id in active && active[id].peer == p
  }

  function Load(active: map<u16, Job>, p: Addr): nat {
    |PulledFrom(active, p)|
  }

  // ----- `sync_queue`

  function Retain(queue: seq<string>, wanted: set<string>): (r: seq<string>)
    ensures forall x :: x in r <==> x in queue && x in wanted
  {
    if queue == [] then []
    else
      var rest, last := Retain(queue[..|queue| - 1], wanted), queue[|queue| - 1];
      assert forall x :: x in queue <==> x in queue[..|queue| - 1] || x == last;
      if last in wanted then rest + [last] else rest
  }

  function Names(manifest: seq<string>): set<string> {
    set x | x in manifest
  }

  predicate CoolingDown(failedAt: map<string, Time>, name: string, now: Time) {
    name in failedAt && now - failedAt[name] < FAIL_RETRY_COOLDOWN
  }

  /** A name that may be queued, unless it is queued already. */
  predicate Needed(s: Sched, present: set<string>, now: Time, name: string) {
    ValidFilename(name) && name !in present && !CoolingDown(s.failedAt, name, now)
  }

  /** The names newly queued for a manifest, oldest first. */
  function Additions(s: Sched, manifest: seq<string>, present: set<string>, now: Time): (r: seq<string>)
    ensures forall x :: x in r <==> x in manifest && x !in s.queued && Needed(s, present, now, x)
  {
    if manifest == [] then []
    else
      var rest, last := Additions(s, manifest[..|manifest| - 1], present, now), manifest[|manifest| - 1];
      assert forall x :: x in manifest <==> x in manifest[..|manifest| - 1] || x == last;
      if Needed(s, present, now, last) && last !in s.queued && last !in rest then rest + [last] else rest
  }

  function Reverse(s: seq<string>): (r: seq<string>)
    ensures |r| == |s|
    ensures forall x :: x in r <==> x in s
    ensures forall i :: 0 <= i < |s| ==> r[i] == s[|s| - 1 - i]
  {
    var r := seq(|s|, i requires 0 <= i < |s| => s[|s| - 1 - i]);
    assert forall i :: 0 <= i < |s| ==> s[i] == r[|s| - 1 - i];
    r
  }

  lemma NothingAdded(s: Sched, present: set<string>, now: Time)
    ensures Additions(s, [], present, now) == [] && Reverse([]) == []
  {
  }

  lemma AddOne(s: Sched, manifest: seq<string>, i: nat, present: set<string>, now: Time)
    requires i < |manifest|
    ensures manifest[i] in Names(manifest)
    ensures var added, name := Additions(s, manifest[..i], present, now), manifest[i];
      Additions(s, manifest[..i + 1], present, now) ==
      if Needed(s, present, now, name) && name !in s.queued && name !in added then added + [name] else added
  {
    assert manifest[..i + 1][..i] == manifest[..i];
  }

  lemma ReverseGrows(s: seq<string>, x: string)
    ensures Reverse(s + [x]) == [x] + Reverse(s)
    ensures Names(s + [x]) == Names(s) + {x}
  {
    assert forall y :: y in s + [x] <==> y in s || y == x;
  }

  function Sync(s: Sched, manifest: seq<string>, present: set<string>, now: Time): Sched {
    var added := Additions(s, manifest, present, now);
    s.(queue := Reverse(added) + Retain(s.queue, Names(manifest)),
       queued := (s.queued * Names(manifest)) + Names(added))
  }

  // ----- Collecting finished pulls

  predicate Finished(s: Sched, id: u16) {
    id in s.active && id in s.pulls && s.pulls[id].Done?
  }

  ghost predicate NoneFinished(s: Sched) {
    forall id :: !Finished(s, id)
  }

  function Blame(s: Sched, p: Addr, silent: bool): (r: Sched)
    ensures r == s.(hits := r.hits, peers := r.peers)
  {
    var count := Lookup(s.hits, p, 0) + 1;
    if !silent then s.(hits := s.hits - {p})
    else if count < EVICT_AFTER_UNRESPONSIVE then s.(hits := s.hits[p := count])
    else s.(hits := s.hits - {p}, peers := s.peers - {p})
  }

  predicate SomeoneUntried(peers: set<Addr>, tried: set<Addr>, local: Addr) {
    exists p | p in peers :: p != local && p !in tried
  }

  /** A source failed: back to the front of the queue for another source, or give up for now. */
  function Retry(s: Sched, name: string, local: Addr, now: Time): (r: Sched)
    ensures r == s.(queue := r.queue, queued := r.queued, tried := r.tried, failedAt := r.failedAt)
  {
    if SomeoneUntried(s.peers, Lookup(s.tried, name, {}), local) then s.(queue := [name] + s.queue)
    else s.(queued := s.queued - {name}, tried := s.tried - {name}, failedAt := s.failedAt[name := now])
  }

  function ForgetCooling(retryAfter: map<(string, Addr), Time>, name: string): map<(string, Addr), Time> {
    map k | k in retryAfter && k.0 != name :: retryAfter[k]
  }

  function Reap(s: Sched, id: u16, local: Addr, now: Time): (r: Sched)
    requires Finished(s, id)
    ensures r.active == s.active - {id}
    ensures r.pulls == if s.pulls[id].verdict == Saved then s.pulls else s.pulls - {id}
  {
    var job, verdict := s.active[id], s.pulls[id].verdict;
    var s := s.(active := s.active - {id}, pulls := if verdict == Saved then s.pulls else s.pulls - {id});
    match verdict
    case Saved =>
      s.(queued := s.queued - {job.name},
         tried := s.tried - {job.name},
         retryAfter := ForgetCooling(s.retryAfter, job.name),
         hits := s.hits - {job.peer})
    case NotReady =>
      s.(retryAfter := s.retryAfter[(job.name, job.peer) := now + FAIL_RETRY_COOLDOWN],
         tried := if job.name in s.tried then s.tried[job.name := s.tried[job.name] - {job.peer}] else s.tried,
         queue := s.queue + [job.name])
    case _ => Retry(Blame(s, job.peer, verdict == Silent), job.name, local, now)
  }

  // ----- Filling free slots

  function Cooling(s: Sched, name: string, now: Time): set<Addr> {
    set k | k in s.retryAfter && k.0 == name && now < s.retryAfter[k] :: k.1
  }

  /** The choice `pick_peer` is asked to make; `known` lists the peers in map order. */
  function RequestFor(s: Sched, env: Env, known: seq<Addr>, name: string, now: Time): Request {
    Request(known, env.reach, env.answer(name), env.parents, env.local, env.bootstrap,
            Lookup(s.tried, name, {}), Cooling(s, name, now), p => Load(s.active, p),
            env.score, env.freshPath)
  }

  ghost predicate Lists(known: seq<Addr>, peers: set<Addr>) {
    forall p :: p in known <==> p in peers
  }

  predicate RegistryFull(s: Sched, env: Env) {
    |env.busy| + |s.pulls| >= MAX_CONCURRENT_TRANSFERS
  }

  ghost predicate CanStart(s: Sched, env: Env, known: seq<Addr>, id: u16, peer: Addr, now: Time) {
    && |s.active| < MAX_PARALLEL_DOWNLOADS
    && s.queue != []
    && Lists(known, s.peers)
    && peer in Tier(RequestFor(s, env, known, s.queue[0], now))
    && !RegistryFull(s, env)
    && id != 0 && id !in s.pulls && id !in env.busy
  }

  function Start(s: Sched, id: u16, peer: Addr): Sched
    requires s.queue != []
  {
    var name := s.queue[0];
    s.(queue := s.queue[1..],
       pulls := s.pulls[id := Waiting],
       active := s.active[id := Job(name, peer)],
       tried := s.tried[name := Lookup(s.tried, name, {}) + {peer}])
  }

  function Fraction(roll: u64): (f: real)
    ensures 0.0 <= f <= 1.0
  {
    roll as real / U64_MAX as real
  }

  // ----- What `schedule_jobs` does, as a sequence of steps

  datatype Step =
    | Reaped(id: u16, now: Time)
    | Started(id: u16, peer: Addr, known: seq<Addr>, now: Time)

  ghost predicate CanStep(s: Sched, env: Env, step: Step) {
    match step
    case Reaped(id, now) => Finished(s, id)
    case Started(id, peer, known, now) => CanStart(s, env, known, id, peer, now)
  }

  function Take(s: Sched, env: Env, step: Step): Sched
    requires CanStep(s, env, step)
  {
    match step
    case Reaped(id, now) => Reap(s, id, env.local, now)
    case Started(id, peer, known, now) => Start(s, id, peer)
  }

  ghost predicate Leads(s: Sched, env: Env, steps: seq<Step>, s': Sched)
    decreases |steps|
  {
    if steps == [] then s == s'
    else CanStep(s, env, steps[0]) && Leads(Take(s, env, steps[0]), env, steps[1..], s')
  }

  lemma LeadsNowhere(s: Sched, env: Env)
    ensures Leads(s, env, [], s)
  {
  }

  lemma {:induction false} LeadsOn(s: Sched, env: Env, steps: seq<Step>, s': Sched, step: Step)
    requires Leads(s, env, steps, s') && CanStep(s', env, step)
    ensures Leads(s, env, steps + [step], Take(s', env, step))
    decreases |steps|
  {
    hide Reap, CanStart, Start;
    if steps == [] {
      assert [step][1..] == [];
    } else {
      LeadsOn(Take(s, env, steps[0]), env, steps[1..], s', step);
      assert (steps + [step])[1..] == steps[1..] + [step];
    }
  }

  /** Why the filling loop ended. */
  ghost predicate Filled(s: Sched, env: Env, now: Time) {
    || |s.active| >= MAX_PARALLEL_DOWNLOADS
    || s.queue == []
    || RegistryFull(s, env)
    || exists known :: Lists(known, s.peers) && Tier(RequestFor(s, env, known, s.queue[0], now)) == []
  }

  lemma {:induction false} LeadsTransitively(s: Sched, env: Env, a: seq<Step>, m: Sched, b: seq<Step>, s': Sched)
    requires Leads(s, env, a, m) && Leads(m, env, b, s')
    ensures Leads(s, env, a + b, s')
    decreases |a|
  {
    hide Reap, CanStart, Start;
    if a == [] {
      assert a + b == b;
    } else {
      LeadsTransitively(Take(s, env, a[0]), env, a[1..], m, b, s');
      assert (a + b)[1..] == a[1..] + b;
    }
  }

  lemma FilledForWantOfSource(s: Sched, env: Env, known: seq<Addr>, now: Time)
    requires s.queue != [] && Lists(known, s.peers)
    requires Tier(RequestFor(s, env, known, s.queue[0], now)) == []
    ensures Filled(s, env, now)
  {
  }

  lemma ReapKeepsOthers(s: Sched, id: u16, local: Addr, now: Time)
    requires Finished(s, id)
    ensures forall other :: Finished(Reap(s, id, local, now), other) <==> Finished(s, other) && other != id
  {
    hide Retry, Blame, ForgetCooling, Reap;
  }

  lemma {:induction false} SomeIdIsFree(used: set<u16>, bound: u16)
    requires |used| < bound
    ensures exists id: u16 :: 1 <= id <= bound && id !in used
    decreases bound
  {
    if bound in used {
      SomeIdIsFree(used - {bound}, bound - 1);
    }
  }

  lemma StartFinishesNone(s: Sched, id: u16, peer: Addr)
    requires NoneFinished(s) && s.queue != [] && id !in s.pulls
    ensures NoneFinished(Start(s, id, peer))
  {
    forall other
      ensures !Finished(Start(s, id, peer), other)
    {
      assert !Finished(s, other);
    }
  }

  // ----- The class

  class DownloadScheduler {
    var active: map<u16, Job>
    var queue: seq<string>
    var queued: set<string>
    var tried: map<string, set<Addr>>
    var failedAt: map<string, Time>
    var retryAfter: map<(string, Addr), Time>
    var hits: map<Addr, nat>
    var peers: set<Addr>
    var pulls: map<u16, Pull>

    function State(): Sched
      reads this
    {
      Sched(active, queue, queued, tried, failedAt, retryAfter, hits, peers, pulls)
    }

    constructor ()
      ensures State() == Sched(map[], [], {}, map[], map[], map[], map[], {}, map[])
    {
      active, queue, queued, tried, failedAt := map[], [], {}, map[], map[];
      retryAfter, hits, peers, pulls := map[], map[], {}, map[];
    }

    method SyncQueue(manifest: seq<string>, present: set<string>, now: Time)
      modifies this
      ensures State() == Sync(old(State()), manifest, present, now)
    {
      hide ValidFilename, CoolingDown, Additions, Reverse, Retain;
      var wanted := Names(manifest);
      NothingAdded(State(), present, now);
      ghost var before := State();
      queue := Retain(queue, wanted);
      queued := queued * wanted;
      ghost var retained, kept, added := queue, queued, [];
      for i := 0 to |manifest|
        invariant unchanged(this`active, this`tried, this`failedAt, this`retryAfter, this`hits, this`peers, this`pulls)
        invariant added == Additions(before, manifest[..i], present, now)
        invariant queue == Reverse(added) + retained
        invariant queued == kept + Names(added)
      {
        var name := manifest[i];
        AddOne(before, manifest, i, present, now);
        if !ValidFilename(name) { continue; }
        if name in present { continue; }
        if name in queued { continue; }
        if CoolingDown(failedAt, name, now) { continue; }
        queued := queued + {name};
        queue := [name] + queue;
        ReverseGrows(added, name);
        added := added + [name];
      }
      assert manifest[..|manifest|] == manifest;
    }

    method ReapJob(id: u16, local: Addr, now: Time)
      requires Finished(State(), id)
      modifies this
      ensures State() == Reap(old(State()), id, local, now)
    {
      hide Retry, Blame, ForgetCooling;
      var job, verdict := active[id], pulls[id].verdict;
      active := active - {id};
      if verdict != Saved {
        pulls := pulls - {id};
      }
      if verdict == Saved {
        queued := queued - {job.name};
        tried := tried - {job.name};
        DropCooling(job.name);
        hits := hits - {job.peer};
      } else if verdict == NotReady {
        retryAfter := retryAfter[(job.name, job.peer) := now + FAIL_RETRY_COOLDOWN];
        if job.name in tried {
          tried := tried[job.name := tried[job.name] - {job.peer}];
        }
        queue := queue + [job.name];
      } else {
        BlamePeer(job.peer, verdict == Silent);
        RetryName(job.name, local, now);
      }
    }

    method DropCooling(name: string)
      modifies this`retryAfter
      ensures retryAfter == ForgetCooling(old(retryAfter), name)
    {
      retryAfter := map k | k in retryAfter && k.0 != name :: retryAfter[k];
    }

    method BlamePeer(p: Addr, silent: bool)
      modifies this`hits, this`peers
      ensures State() == Blame(old(State()), p, silent)
    {
      if silent {
        hits := hits[p := Lookup(hits, p, 0) + 1];
        if hits[p] >= EVICT_AFTER_UNRESPONSIVE {
          peers := peers - {p};
          hits := hits - {p};
        }
      } else {
        hits := hits - {p};
      }
    }

    method RetryName(name: string, local: Addr, now: Time)
      modifies this`queue, this`queued, this`tried, this`failedAt
      ensures State() == Retry(old(State()), name, local, now)
    {
      if SomeoneUntried(peers, Lookup(tried, name, {}), local) {
        queue := [name] + queue;
      } else {
        queued := queued - {name};
        tried := tried - {name};
        failedAt := failedAt[name := now];
      }
    }

    /** The request is on its way: the pull is registered and the source counts as tried. */
    method StartJob(id: u16, peer: Addr)
      requires queue != []
      modifies this`queue, this`pulls, this`active, this`tried
      ensures State() == Start(old(State()), id, peer)
    {
      var name := queue[0];
      queue := queue[1..];
      pulls := pulls[id := Waiting];
      active := active[id := Job(name, peer)];
      tried := tried[name := Lookup(tried, name, {}) + {peer}];
    }

    /** The known peers in some order. */
    method KnownPeers() returns (known: seq<Addr>)
      ensures Lists(known, peers)
    {
      known := [];
      var rest := peers;
      while rest != {}
        invariant rest <= peers
        invariant forall p :: p in known <==> p in peers - rest
      {
        var p :| p in rest;
        known, rest := known + [p], rest - {p};
      }
    }

    /** `fresh_id`, for a registry whose other entries have the ids `busy`. */
    method FreshId(busy: set<u16>) returns (id: u16)
      requires |busy| + |pulls| < MAX_CONCURRENT_TRANSFERS
      ensures id != 0 && id !in busy && id !in pulls
    {
      var used := busy + pulls.Keys;
      SomeIdIsFree(used, MAX_CONCURRENT_TRANSFERS);
      id :| id != 0 && id !in used;
    }

    /** Every finished pull is collected, whatever their order. */
    method CollectFinished(env: Env, now: Time, ghost start: Sched) returns (ghost steps: seq<Step>)
      requires start == State()
      modifies this
      ensures Leads(start, env, steps, State())
      ensures NoneFinished(State())
      ensures forall step <- steps :: step.Reaped? && step.now == now
    {
      steps := [];
      var finished := set id | id in active && id in pulls && pulls[id].Done?;
      while finished != {}
        invariant Leads(start, env, steps, State())
        invariant forall id :: id in finished <==> Finished(State(), id)
        invariant forall step <- steps :: step.Reaped? && step.now == now
      {
        var id :| id in finished;
        LeadsOn(start, env, steps, State(), Reaped(id, now));
        ReapKeepsOthers(State(), id, env.local, now);
        ReapJob(id, env.local, now);
        steps := steps + [Reaped(id, now)];
        finished := finished - {id};
      }
    }

    /** The filling loop: it stops at the first head of the queue that has no source. */
    method FillSlots(env: Env, now: Time, ghost start: Sched) returns (ghost steps: seq<Step>)
      requires start == State() && NoneFinished(start)
      modifies this
      ensures Leads(start, env, steps, State())
      ensures Filled(State(), env, now) && NoneFinished(State())
      ensures forall step <- steps :: step.Started? && step.now == now
    {
      hide Tier, Leads, RequestFor, NoneFinished;
      steps := [];
      LeadsNowhere(start, env);
      while |active| < MAX_PARALLEL_DOWNLOADS
        invariant Leads(start, env, steps, State()) && NoneFinished(State())
        invariant forall step <- steps :: step.Started? && step.now == now
        decreases |queue|
      {
        if queue == [] {
          return;
        }
        var name := queue[0];
        var known := KnownPeers();
        var q := RequestFor(State(), env, known, name, now);
        var roll: u64 := *;
        var choice := PickPeer(q, Fraction(roll));
        if choice.None? {
          FilledForWantOfSource(State(), env, known, now);
          return;
        }
        if |env.busy| + |pulls| >= MAX_CONCURRENT_TRANSFERS {
          return;
        }
        var id := FreshId(env.busy);
        var step := Started(id, choice.value, known, now);
        LeadsOn(start, env, steps, State(), step);
        StartFinishesNone(State(), id, choice.value);
        steps := steps + [step];
        StartJob(id, choice.value);
      }
    }

    method ScheduleJobs(env: Env, now: Time) returns (ghost steps: seq<Step>)
      modifies this
      ensures Leads(old(State()), env, steps, State())
      ensures Filled(State(), env, now) && NoneFinished(State())
      ensures forall step <- steps :: step.now == now
    {
      ghost var start := State();
      var first := CollectFinished(env, now, start);
      ghost var middle := State();
      var rest := FillSlots(env, now, middle);
      LeadsTransitively(start, env, first, middle, rest, State());
      steps := first + rest;
    }
  }
}
