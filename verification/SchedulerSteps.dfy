/** What each step of the scheduler does to each of its containers, spelled out. */
module SchedulerSteps {
  import opened Prelude
  import opened Text
  import opened PeerChoice
  import opened Scheduler
  import opened SchedulerLaws

  // ----- `sync_queue`

  /** A name is newly queued exactly if it is wanted, not queued, not in the store, valid, and did not fail less than 5 s ago. */
  lemma SyncAddsExactly(s: Sched, manifest: seq<string>, present: set<string>, now: Time, name: string)
    ensures var s' := Sync(s, manifest, present, now);
      && (name in s'.queued && name !in s.queued <==>
           && name in manifest && name !in s.queued && name !in present && ValidFilename(name)
           && (name in s.failedAt ==> now - s.failedAt[name] >= 5000))
      && (name in s'.queued && name in s.queued <==> name in manifest && name in s.queued)
      && (name in s'.queue <==> (name in s.queue && name in manifest) || (name in s'.queued && name !in s.queued))
  {
    hide ValidFilename, Additions, Retain, Reverse;
  }

  /** Nothing else is touched. */
  lemma SyncTouchesTheQueueOnly(s: Sched, manifest: seq<string>, present: set<string>, now: Time)
    ensures var s' := Sync(s, manifest, present, now);
      s' == s.(queue := s'.queue, queued := s'.queued)
  {
  }

  lemma RetainSnoc(queue: seq<string>, name: string, wanted: set<string>)
    ensures Retain(queue + [name], wanted) == Retain(queue, wanted) + if name in wanted then [name] else []
  {
    assert (queue + [name])[..|queue|] == queue;
  }

  /** Retaining goes name by name, and keeps the order. */
  lemma {:induction false} RetainGoesByName(a: seq<string>, b: seq<string>, wanted: set<string>)
    ensures Retain(a + b, wanted) == Retain(a, wanted) + Retain(b, wanted)
    ensures forall name :: Retain([name], wanted) == if name in wanted then [name] else []
  {
    hide Retain;
    NothingRetained(wanted);
    forall name
      ensures Retain([name], wanted) == if name in wanted then [name] else []
    {
      RetainSnoc([], name, wanted);
      assert [] + [name] == [name];
    }
    if b == [] {
      assert a + b == a;
    } else {
      var front, last := b[..|b| - 1], b[|b| - 1];
      RetainGoesByName(a, front, wanted);
      RetainSnoc(a + front, last, wanted);
      RetainSnoc(front, last, wanted);
      assert a + b == a + front + [last] && b == front + [last];
    }
  }

  /** A valid name: printable ASCII without separators, not hidden, 1 to 255 characters. */
  lemma ValidNamesExactly(name: string)
    ensures ValidFilename(name) <==>
      && 1 <= |name| <= 255 && name[0] != '.'
      && forall c <- name :: 33 <= c as int <= 126 && c != '/' && c != '\\'
  {
    assert forall i :: 0 <= i < |name| ==> name[i] in name;
  }

  // ----- Collecting a pull, verdict by verdict

  /** Another source can be asked for the name: known, not this node, and not tried. */
  predicate SomeoneLeft(peers: set<Addr>, tried: set<Addr>, local: Addr) {
    exists p | p in peers :: p != local && p !in tried
  }

  /** The known peers after a failed pull: a peer goes with its third silence in a row. */
  function PeersAfter(s: Sched, peer: Addr, verdict: Verdict): set<Addr> {
    if verdict == Silent && Lookup(s.hits, peer, 0) >= 2 then s.peers - {peer} else s.peers
  }

  /**
   A pull that failed: with a source left the segment goes to the front of the queue and everything
   kept about it stays; without one it is given up, and may be tried afresh after the cooldown.
   */
  lemma FailedGoesFirst(s: Sched, env: Env, id: u16, now: Time)
    requires Finished(s, id)
    requires s.pulls[id].verdict in {Silent, Missing, Broken}
    ensures var name, peer, s' := s.active[id].name, s.active[id].peer, Reap(s, id, env.local, now);
      && s'.active == s.active - {id} && s'.pulls == s.pulls - {id} && s'.retryAfter == s.retryAfter
      && s'.peers == PeersAfter(s, peer, s.pulls[id].verdict)
      && if SomeoneLeft(s'.peers, TriedFor(s, name), env.local) then
           && s'.queue == [name] + s.queue
           && s'.queued == s.queued && s'.tried == s.tried && s'.failedAt == s.failedAt
         else
           && s'.queue == s.queue && s'.queued == s.queued - {name}
           && s'.tried == s.tried - {name} && s'.failedAt == s.failedAt[name := now]
  {
    FailedIsBlamed(s, id);
    FailedIsRetried(Collected(s, id), s.active[id].name, env.local, now);
    hide Blame, Retry;
  }

  /** The scheduler without the finished job, its peer blamed. */
  function Collected(s: Sched, id: u16): Sched
    requires Finished(s, id)
  {
    var rest := s.(active := s.active - {id}, pulls := s.pulls - {id});
    Blame(rest, s.active[id].peer, s.pulls[id].verdict == Silent)
  }

  lemma FailedIsBlamed(s: Sched, id: u16)
    requires Finished(s, id)
    ensures Collected(s, id).peers == PeersAfter(s, s.active[id].peer, s.pulls[id].verdict)
  {
  }

  lemma FailedIsRetried(s: Sched, name: string, local: Addr, now: Time)
    ensures Retry(s, name, local, now) ==
      if SomeoneLeft(s.peers, TriedFor(s, name), local) then s.(queue := [name] + s.queue)
      else s.(queued := s.queued - {name}, tried := s.tried - {name}, failedAt := s.failedAt[name := now])
  {
  }

  /** "Not ready": the segment goes to the end of the queue, and its source counts as untried and cools down for 5 s. */
  lemma NotReadyGoesLast(s: Sched, env: Env, id: u16, now: Time)
    requires Finished(s, id) && s.pulls[id].verdict == NotReady
    ensures var name, peer, s' := s.active[id].name, s.active[id].peer, Reap(s, id, env.local, now);
      && s'.queue == s.queue + [name] && s'.queued == s.queued
      && s'.active == s.active - {id} && s'.pulls == s.pulls - {id}
      && s'.retryAfter == s.retryAfter[(name, peer) := now + 5000]
      && TriedFor(s', name) == TriedFor(s, name) - {peer}
      && (forall other :: other != name ==> TriedFor(s', other) == TriedFor(s, other))
      && s'.failedAt == s.failedAt && s'.hits == s.hits && s'.peers == s.peers
  {
    hide Retry, Blame, ForgetCooling;
  }

  /** Saved: everything kept about the segment is forgotten, and the receiver stays for its grace period. */
  lemma SavedIsForgotten(s: Sched, env: Env, id: u16, now: Time)
    requires Finished(s, id) && s.pulls[id].verdict == Saved
    ensures var name, peer, s' := s.active[id].name, s.active[id].peer, Reap(s, id, env.local, now);
      && s'.queue == s.queue && s'.queued == s.queued - {name}
      && s'.active == s.active - {id} && s'.pulls == s.pulls
      && TriedFor(s', name) == {} && (forall other :: other != name ==> TriedFor(s', other) == TriedFor(s, other))
      && (forall k :: k in s'.retryAfter <==> k in s.retryAfter && k.0 != name)
      && (forall k :: k in s'.retryAfter ==> s'.retryAfter[k] == s.retryAfter[k])
      && s'.failedAt == s.failedAt && s'.peers == s.peers
  {
    hide Retry, Blame;
  }

  // ----- Starting a pull

  /** The head of the queue is taken, and its source counts as tried. */
  lemma StartTakesHead(s: Sched, id: u16, peer: Addr)
    requires s.queue != [] && id !in s.active
    ensures var name, s' := s.queue[0], Start(s, id, peer);
      && [name] + s'.queue == s.queue && s'.queued == s.queued
      && s'.active == s.active[id := Job(name, peer)] && s'.pulls == s.pulls[id := Waiting]
      && TriedFor(s', name) == TriedFor(s, name) + {peer}
      && (forall other :: other != name ==> TriedFor(s', other) == TriedFor(s, other))
      && s'.failedAt == s.failedAt && s'.retryAfter == s.retryAfter && s'.hits == s.hits && s'.peers == s.peers
  {
  }

  /** Collections that do not put anything in front of the queue. */
  predicate LeavesHead(s: Sched, step: Step) {
    step.Reaped? && Finished(s, step.id) && s.pulls[step.id].verdict in {Saved, NotReady}
  }

  ghost predicate HeadLeft(s: Sched, env: Env, steps: seq<Step>, s': Sched)
    decreases |steps|
  {
    if steps == [] then s == s'
    else CanStep(s, env, steps[0]) && LeavesHead(s, steps[0]) && HeadLeft(Take(s, env, steps[0]), env, steps[1..], s')
  }

  lemma {:induction false} HeadStays(s: Sched, env: Env, steps: seq<Step>, s': Sched)
    requires HeadLeft(s, env, steps, s') && s.queue != []
    ensures s'.queue != [] && s'.queue[0] == s.queue[0]
    decreases |steps|
  {
    if steps != [] {
      var id, now := steps[0].id, steps[0].now;
      if s.pulls[id].verdict == Saved {
        SavedIsForgotten(s, env, id, now);
      } else {
        NotReadyGoesLast(s, env, id, now);
      }
      hide Reap;
      HeadStays(Take(s, env, steps[0]), env, steps[1..], s');
    }
  }

  /** After a failure with a source left the next pull started is for the same segment, unless another failure is collected first. */
  lemma FailedIsPulledNext(s: Sched, env: Env, id: u16, now: Time, steps: seq<Step>, s': Sched, start: Step)
    requires Finished(s, id) && s.pulls[id].verdict in {Silent, Missing, Broken}
    requires SomeoneLeft(PeersAfter(s, s.active[id].peer, s.pulls[id].verdict), TriedFor(s, s.active[id].name), env.local)
    requires HeadLeft(Reap(s, id, env.local, now), env, steps, s') && start.Started? && CanStep(s', env, start)
    ensures var s'' := Take(s', env, start);
      start.id in s''.active && s''.active[start.id] == Job(s.active[id].name, start.peer)
  {
    hide Reap, HeadLeft, CanStart, SomeoneLeft;
    FailedGoesFirst(s, env, id, now);
    HeadStays(Reap(s, id, env.local, now), env, steps, s');
  }

  // ----- The source of a pull

  /** The source cools down for the segment at `now`. */
  predicate CoolsDown(s: Sched, name: string, p: Addr, now: Time) {
    (name, p) in s.retryAfter && now < s.retryAfter[(name, p)]
  }

  /** `p` is where some known peer is reached, and may be asked for the segment. */
  ghost predicate Askable(s: Sched, env: Env, name: string, p: Addr, now: Time) {
    && (exists known <- s.peers :: env.reach(known) == p)
    && p != env.local
    && (p == env.bootstrap || env.answer(name)(p) != Some(false))
    && p !in TriedFor(s, name) && !CoolsDown(s, name, p, now) && Load(s.active, p) < 2
  }

  /** The bootstrap itself, as the last resort. */
  predicate BootstrapLeft(s: Sched, env: Env, name: string, now: Time) {
    && env.bootstrap in s.peers
    && env.bootstrap !in TriedFor(s, name) && !CoolsDown(s, name, env.bootstrap, now) && Load(s.active, env.bootstrap) < 2
  }

  lemma RequestMeans(s: Sched, env: Env, known: seq<Addr>, name: string, now: Time, p: Addr)
    requires Lists(known, s.peers)
    ensures var q := RequestFor(s, env, known, name, now);
      && (MayBeAsked(q, p) <==> Askable(s, env, name, p, now))
      && (LastResort(q) <==> BootstrapLeft(s, env, name, now))
      && q.parents == env.parents && q.bootstrap == env.bootstrap && q.answer(p) == env.answer(name)(p)
  {
    var q := RequestFor(s, env, known, name, now);
    assert forall a :: a in q.cooling <==> CoolsDown(s, name, a, now);
    assert forall a :: q.inflight(a) == Load(s.active, a);
    hide Load, CoolsDown;
    if k :| k in s.peers && env.reach(k) == p {
      var i :| 0 <= i < |known| && known[i] == k;
      assert q.reach(q.known[i]) == p;
    }
    if i :| 0 <= i < |q.known| && q.reach(q.known[i]) == p {
      assert known[i] in known && env.reach(known[i]) == p;
    }
  }

  /** A pull is only ever started from an askable source or, as the last resort, from the bootstrap. */
  lemma SourceIsAskable(s: Sched, env: Env, known: seq<Addr>, id: u16, peer: Addr, now: Time)
    requires CanStart(s, env, known, id, peer, now)
    ensures Askable(s, env, s.queue[0], peer, now) || (peer == env.bootstrap && BootstrapLeft(s, env, s.queue[0], now))
    ensures id != 0 && id !in s.pulls && id !in env.busy && |env.busy| + |s.pulls| < 32 && |s.active| < 4
  {
    hide Tier, MayBeAsked, Askable, LastResort, BootstrapLeft, RequestFor;
    TiersExactly(RequestFor(s, env, known, s.queue[0], now), peer);
    RequestMeans(s, env, known, s.queue[0], now, peer);
    RequestMeans(s, env, known, s.queue[0], now, env.bootstrap);
  }

  /** While an askable parent, other than the bootstrap, advertises the segment, the source is such a parent. */
  lemma ParentsAreAskedFirst(s: Sched, env: Env, known: seq<Addr>, id: u16, peer: Addr, now: Time, parent: Addr)
    requires CanStart(s, env, known, id, peer, now)
    requires Askable(s, env, s.queue[0], parent, now) && parent in env.parents && parent != env.bootstrap
    requires env.answer(s.queue[0])(parent) == Some(true)
    ensures peer in env.parents && peer != env.bootstrap && env.answer(s.queue[0])(peer) == Some(true)
  {
    hide Tier, MayBeAsked, Askable, RequestFor;
    var q := RequestFor(s, env, known, s.queue[0], now);
    TiersExactly(q, peer);
    RequestMeans(s, env, known, s.queue[0], now, peer);
    RequestMeans(s, env, known, s.queue[0], now, parent);
    assert HasIt(q, parent);
  }

  /** Nobody may be asked: neither the bootstrap as a last resort, nor anyone whom the origin does not surpass. */
  ghost predicate NoSource(s: Sched, env: Env, name: string, now: Time) {
    && !BootstrapLeft(s, env, name, now)
    && (forall p :: Askable(s, env, name, p, now) ==>
         env.answer(name)(env.bootstrap) == Some(true) && p != env.bootstrap && env.answer(name)(p) != Some(true))
  }

  /** The tier of a segment is empty exactly if it has no source. */
  lemma HeadHasNoSource(s: Sched, env: Env, known: seq<Addr>, name: string, now: Time)
    requires Lists(known, s.peers)
    ensures Tier(RequestFor(s, env, known, name, now)) == [] <==> NoSource(s, env, name, now)
  {
    hide Tier, MayBeAsked, Askable, RequestFor, LastResort, BootstrapLeft;
    var q := RequestFor(s, env, known, name, now);
    NobodyChosen(q);
    forall p
      ensures MayBeAsked(q, p) <==> Askable(s, env, name, p, now)
      ensures q.answer(p) == env.answer(name)(p)
    {
      RequestMeans(s, env, known, name, now, p);
    }
    RequestMeans(s, env, known, name, now, env.bootstrap);
    RuledOutMeans(q);
  }

  lemma {:induction false} SomeListing(peers: set<Addr>) returns (known: seq<Addr>)
    ensures Lists(known, peers)
    decreases |peers|
  {
    if peers == {} {
      known := [];
    } else {
      var p :| p in peers;
      var rest := SomeListing(peers - {p});
      known := rest + [p];
    }
  }

  /**
   A round leaves a slot unused only for one of three reasons: nothing is queued, 32 transfers are
   active, or nobody may be asked for the segment at the head of the queue.
   */
  lemma RoundEndsFor(s: Sched, env: Env, now: Time)
    ensures Filled(s, env, now) <==>
      |s.active| >= 4 || s.queue == [] || |env.busy| + |s.pulls| >= 32 || NoSource(s, env, s.queue[0], now)
  {
    hide Tier, RequestFor, Askable, BootstrapLeft, Load;
    if s.queue != [] {
      forall known | Lists(known, s.peers)
        ensures Tier(RequestFor(s, env, known, s.queue[0], now)) == [] <==> NoSource(s, env, s.queue[0], now)
      {
        HeadHasNoSource(s, env, known, s.queue[0], now);
      }
      var listing := SomeListing(s.peers);
    }
  }

  /** The conditions of `NobodyChosen` by address instead of by known peer. */
  lemma RuledOutMeans(q: Request)
    ensures (forall i :: 0 <= i < |q.known| ==>
        var p := q.reach(q.known[i]);
        || p == q.local || (p != q.bootstrap && q.answer(p) == Some(false))
        || p in q.tried || p in q.cooling || q.inflight(p) >= 2
        || (q.answer(q.bootstrap) == Some(true) && p != q.bootstrap && q.answer(p) != Some(true))) <==>
      (forall p :: MayBeAsked(q, p) ==> q.answer(q.bootstrap) == Some(true) && p != q.bootstrap && q.answer(p) != Some(true))
  {
    if forall p :: MayBeAsked(q, p) ==> q.answer(q.bootstrap) == Some(true) && p != q.bootstrap && q.answer(p) != Some(true) {
      forall i | 0 <= i < |q.known|
        ensures var p := q.reach(q.known[i]);
          || p == q.local || (p != q.bootstrap && q.answer(p) == Some(false))
          || p in q.tried || p in q.cooling || q.inflight(p) >= 2
          || (q.answer(q.bootstrap) == Some(true) && p != q.bootstrap && q.answer(p) != Some(true))
      {
        var p := q.reach(q.known[i]);
        assert MayBeAsked(q, p) <==>
          && p != q.local && (p == q.bootstrap || q.answer(p) != Some(false))
          && p !in q.tried && p !in q.cooling && q.inflight(p) < 2;
      }
    }
  }
}
