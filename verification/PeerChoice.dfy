/** `pick_peer`: the source for the next pull of one segment, chosen in tiers. */
module PeerChoice {
  import opened Prelude
  import Codec

  type Addr = Codec.SocketAddr

  const MAX_INFLIGHT_PER_PEER := 2

  /**
   Everything the choice depends on, for one segment: the known peers in map order, the address
   each is reached at, the inventory answers, the addresses tried or cooling down, and the loads.
   */
  datatype Request = Request(
    known: seq<Addr>,
    reach: Addr -> Addr,
    answer: Addr -> Option<bool>,
    parents: set<Addr>,
    local: Addr,
    bootstrap: Addr,
    tried: set<Addr>,
    cooling: set<Addr>,
    inflight: Addr -> nat,
    score: Addr -> nat,
    freshPath: Addr -> bool)

  function Reached(q: Request): seq<Addr> {
    seq(|q.known|, i requires 0 <= i < |q.known| => q.reach(q.known[i]))
  }

  /** Untried, not cooling down, with room for another pull. */
  predicate Usable(q: Request, p: Addr) {
    p !in q.tried && p !in q.cooling && q.inflight(p) < MAX_INFLIGHT_PER_PEER
  }

  predicate Eligible(q: Request, p: Addr) {
    && p != q.local
    && (p == q.bootstrap || q.answer(p) != Some(false))
    && Usable(q, p)
  }

  /** The conditions of the successive filters. */
  datatype Test = CanServe | AssignedAndAdvertises | OtherAndAdvertises | IsOrigin

  predicate Passes(q: Request, test: Test, p: Addr) {
    match test
    case CanServe => Eligible(q, p)
    case AssignedAndAdvertises => p in q.parents && q.answer(p) == Some(true)
    case OtherAndAdvertises => p != q.bootstrap && q.answer(p) == Some(true)
    case IsOrigin => p == q.bootstrap
  }

  function Select(q: Request, test: Test, s: seq<Addr>): (r: seq<Addr>)
    ensures forall x :: x in r <==> x in s && Passes(q, test, x)
  {
    if s == [] then []
    else
      var rest, last := Select(q, test, s[..|s| - 1]), s[|s| - 1];
      assert forall x :: x in s <==> x in s[..|s| - 1] || x == last;
      if Passes(q, test, last) then rest + [last] else rest
  }

  function Candidates(q: Request): seq<Addr> {
    Select(q, CanServe, Reached(q))
  }

  function AssignedFirst(q: Request): seq<Addr> {
    var sources := Select(q, AssignedAndAdvertises, Candidates(q));
    if sources != [] then sources else Candidates(q)
  }

  function PreferAdvertisedPeers(q: Request, candidates: seq<Addr>): seq<Addr> {
    var sources := Select(q, OtherAndAdvertises, candidates);
    if sources != [] then sources
    else if q.answer(q.bootstrap) == Some(true) then Select(q, IsOrigin, candidates)
    else candidates
  }

  predicate IsBootstrapRecoveryCandidate(q: Request) {
    q.bootstrap in q.known && Usable(q, q.bootstrap)
  }

  /** The addresses among which the weighted roll decides. */
  function Tier(q: Request): seq<Addr> {
    var preferred := PreferAdvertisedPeers(q, AssignedFirst(q));
    if preferred != [] then preferred
    else if IsBootstrapRecoveryCandidate(q) then [q.bootstrap]
    else []
  }

  // ----- The weighted roll

  function Weight(q: Request, p: Addr): (w: real)
    ensures w > 0.0
  {
    var path := if q.freshPath(p) then 1.25 else 0.7;
    var availability := match q.answer(p) case Some(true) => 3.0 case Some(false) => 0.0 case None => 0.35;
    var w := (q.score(p) as real + 1.0) / (q.inflight(p) as real + 1.0) * path * availability;
    var w := if p == q.bootstrap then w * 0.9 else w;
    if w > 0.001 then w else 0.001
  }

  function TotalWeight(q: Request, peers: seq<Addr>): (t: real)
    ensures t >= 0.0
  {
    if peers == [] then 0.0 else TotalWeight(q, peers[..|peers| - 1]) + Weight(q, peers[|peers| - 1])
  }

  /** `target` lies in the interval of candidate `i` on the line of running totals. */
  predicate FallsTo(q: Request, candidates: seq<Addr>, target: real, i: int) {
    && 0 <= i < |candidates|
    && target <= TotalWeight(q, candidates[..i + 1])
    && (i > 0 ==> TotalWeight(q, candidates[..i]) < target)
  }

  lemma OneMoreWeight(q: Request, candidates: seq<Addr>, i: nat)
    requires i < |candidates|
    ensures TotalWeight(q, candidates[..i + 1]) == TotalWeight(q, candidates[..i]) + Weight(q, candidates[i])
  {
    assert candidates[..i + 1][..i] == candidates[..i];
  }

  method SumOfWeights(q: Request, candidates: seq<Addr>) returns (total: real)
    ensures total == TotalWeight(q, candidates)
  {
    total := 0.0;
    for i := 0 to |candidates|
      invariant total == TotalWeight(q, candidates[..i])
    {
      OneMoreWeight(q, candidates, i);
      total := total + Weight(q, candidates[i]);
    }
    assert candidates[..|candidates|] == candidates;
  }

  lemma FractionOfTotal(fraction: real, total: real)
    requires 0.0 <= fraction <= 1.0 && total >= 0.0
    ensures fraction * total <= total
  {
  }

  /** The roll falls to the first candidate whose running total reaches it; with exact reals there always is one. */
  method WeightedPick(q: Request, candidates: seq<Addr>, target: real) returns (r: Option<Addr>)
    requires candidates != [] && target <= TotalWeight(q, candidates)
    ensures r.Some?
    ensures exists i :: FallsTo(q, candidates, target, i) && r.value == candidates[i]
  {
    hide Weight;
    assert candidates[..|candidates|] == candidates;
    var roll := target;
    r := None;
    for i := 0 to |candidates|
      invariant roll == target - TotalWeight(q, candidates[..i])
      invariant i > 0 ==> roll > 0.0
    {
      OneMoreWeight(q, candidates, i);
      roll := roll - Weight(q, candidates[i]);
      if roll <= 0.0 {
        assert FallsTo(q, candidates, target, i);
        return Some(candidates[i]);
      }
    }
    assert false;
  }

  /** Whom the roll `fraction` of the total weight picks; the last resort is picked without a roll. */
  ghost predicate Picked(q: Request, fraction: real, p: Addr) {
    var candidates := PreferAdvertisedPeers(q, AssignedFirst(q));
    if candidates == [] then IsBootstrapRecoveryCandidate(q) && p == q.bootstrap
    else exists i :: FallsTo(q, candidates, fraction * TotalWeight(q, candidates), i) && p == candidates[i]
  }

  /** A source is found if and only if the tier is not empty, and it is the one of the tier to which the roll falls. */
  method PickPeer(q: Request, fraction: real) returns (r: Option<Addr>)
    requires 0.0 <= fraction <= 1.0
    ensures r.Some? <==> Tier(q) != []
    ensures r.Some? ==> r.value in Tier(q) && Picked(q, fraction, r.value)
  {
    hide Select, Reached, Usable, Weight, TotalWeight, PreferAdvertisedPeers, AssignedFirst;
    var candidates := PreferAdvertisedPeers(q, AssignedFirst(q));
    if candidates == [] {
      if IsBootstrapRecoveryCandidate(q) {
        return Some(q.bootstrap);
      }
      return None;
    }
    var total := SumOfWeights(q, candidates);
    FractionOfTotal(fraction, total);
    r := WeightedPick(q, candidates, fraction * total);
  }

  // ----- What the tiers promise

  predicate IsCandidate(q: Request, p: Addr) {
    p in Reached(q) && Eligible(q, p)
  }

  predicate Advertises(q: Request, p: Addr) {
    q.answer(p) == Some(true)
  }

  /** An assigned parent, other than the bootstrap, that advertises the segment. */
  predicate AdvertisingParent(q: Request, p: Addr) {
    IsCandidate(q, p) && p in q.parents && Advertises(q, p) && p != q.bootstrap
  }

  predicate AdvertisingPeer(q: Request, p: Addr) {
    IsCandidate(q, p) && Advertises(q, p) && p != q.bootstrap
  }

  /** Whoever is chosen is untried, not cooling down and has fewer than two pulls in flight. */
  lemma ChosenIsUsable(q: Request, p: Addr)
    requires p in Tier(q)
    ensures Usable(q, p)
    ensures IsCandidate(q, p) || (p == q.bootstrap && p in q.known)
  {
  }

  lemma Witness(s: seq<Addr>)
    requires s != []
    ensures s[0] in s
  {
  }

  /** While some assigned parent advertises the segment, such a parent is chosen. */
  lemma ParentsComeFirst(q: Request, parent: Addr, p: Addr)
    requires AdvertisingParent(q, parent) && p in Tier(q)
    ensures AdvertisingParent(q, p)
  {
    hide Select;
    var sources := Select(q, AssignedAndAdvertises, Candidates(q));
    assert parent in sources;
    assert parent in Select(q, OtherAndAdvertises, sources);
  }

  /**
   While some peer other than the bootstrap advertises the segment, such a peer is chosen, unless
   the bootstrap is itself an advertising parent and no other parent advertises: then the bootstrap is.
   */
  lemma PeersComeBeforeBootstrap(q: Request, peer: Addr, p: Addr)
    requires AdvertisingPeer(q, peer) && p in Tier(q)
    ensures AdvertisingPeer(q, p) <==> !BootstrapIsParent(q) || exists other :: AdvertisingParent(q, other)
    ensures AdvertisingPeer(q, p) || p == q.bootstrap
  {
    if exists other :: AdvertisingParent(q, other) {
      var other :| AdvertisingParent(q, other);
      ParentsComeFirst(q, other, p);
    } else if BootstrapIsParent(q) {
      OnlyBootstrapIsParent(q, p);
    } else {
      NoParentAdvertises(q, peer, p);
    }
  }

  predicate BootstrapIsParent(q: Request) {
    IsCandidate(q, q.bootstrap) && q.bootstrap in q.parents && Advertises(q, q.bootstrap)
  }

  lemma OnlyBootstrapIsParent(q: Request, p: Addr)
    requires BootstrapIsParent(q) && (forall other :: !AdvertisingParent(q, other)) && p in Tier(q)
    ensures p == q.bootstrap
  {
    hide Select, Reached, Usable;
    var sources := Select(q, AssignedAndAdvertises, Candidates(q));
    assert q.bootstrap in sources;
    forall s | s in sources
      ensures s == q.bootstrap
    {
      assert IsCandidate(q, s);
      assert !AdvertisingParent(q, s);
    }
    assert p in sources || p == q.bootstrap;
  }

  lemma NoParentAdvertises(q: Request, peer: Addr, p: Addr)
    requires AdvertisingPeer(q, peer) && p in Tier(q)
    requires !BootstrapIsParent(q) && forall other :: !AdvertisingParent(q, other)
    ensures AdvertisingPeer(q, p)
  {
    hide Select, Reached, Usable;
    AssignedSourceIsParent(q);
    assert peer in Select(q, OtherAndAdvertises, Candidates(q));
  }

  lemma AssignedSourceIsParent(q: Request)
    ensures Select(q, AssignedAndAdvertises, Candidates(q)) != [] ==>
              BootstrapIsParent(q) || exists other :: AdvertisingParent(q, other)
  {
    hide Select, Reached, Usable;
    var sources := Select(q, AssignedAndAdvertises, Candidates(q));
    if sources != [] {
      Witness(sources);
      assert IsCandidate(q, sources[0]);
      if sources[0] != q.bootstrap {
        assert AdvertisingParent(q, sources[0]);
      }
    }
  }

  /** Tiering never removes the recovery path: with a usable bootstrap somebody is always chosen. */
  lemma BootstrapKeepsPullAlive(q: Request)
    requires q.bootstrap in q.known && Usable(q, q.bootstrap)
    ensures Tier(q) != []
  {
  }

  // ----- The bootstrap as the only advertising parent

  const ORIGIN: Addr := Codec.V4(10, 0, 0, 1, 4000)
  const NEIGHBOUR: Addr := Codec.V4(10, 0, 0, 2, 4000)

  /** The bootstrap and a peer both advertise the segment; only the bootstrap is an assigned parent. */
  function OriginIsParent(): Request {
    Request([ORIGIN, NEIGHBOUR], a => a, a => Some(true), {ORIGIN}, Codec.V4(10, 0, 0, 3, 4000), ORIGIN, {}, {},
            a => 0, a => 50, a => true)
  }

  /** A peer advertises the segment, and yet the bootstrap is always chosen. */
  lemma OriginBeatsPeer()
    ensures AdvertisingPeer(OriginIsParent(), NEIGHBOUR)
    ensures Tier(OriginIsParent()) != [] && forall p <- Tier(OriginIsParent()) :: p == ORIGIN
  {
    hide Tier;
    var q := OriginIsParent();
    assert Reached(q) == [ORIGIN, NEIGHBOUR];
    assert ORIGIN != NEIGHBOUR;
    BootstrapKeepsPullAlive(q);
    forall p <- Tier(q)
      ensures p == ORIGIN
    {
      OnlyBootstrapIsParent(q, p);
    }
  }

  // ----- The tiers spelled out

  /** May be asked at all: a known peer's address, neither this node nor known to lack the segment, and usable. */
  ghost predicate MayBeAsked(q: Request, p: Addr) {
    && (exists i :: 0 <= i < |q.known| && q.reach(q.known[i]) == p)
    && p != q.local
    && (p == q.bootstrap || q.answer(p) != Some(false))
    && p !in q.tried && p !in q.cooling && q.inflight(p) < 2
  }

  /** May be asked and is known to have the segment, and is not the bootstrap. */
  ghost predicate HasIt(q: Request, p: Addr) {
    MayBeAsked(q, p) && q.answer(p) == Some(true) && p != q.bootstrap
  }

  ghost predicate ParentHasIt(q: Request) {
    exists p :: HasIt(q, p) && p in q.parents
  }

  ghost predicate PeerHasIt(q: Request) {
    exists p :: HasIt(q, p)
  }

  /** The bootstrap as the last resort: known, untried, not cooling down and with room, wherever it is reached. */
  predicate LastResort(q: Request) {
    q.bootstrap in q.known && q.bootstrap !in q.tried && q.bootstrap !in q.cooling && q.inflight(q.bootstrap) < 2
  }

  /** Whether `p` may be picked: the tiers one after another, without the filters that produce them. */
  ghost predicate MayBePicked(q: Request, p: Addr) {
    var origin, originHasIt := MayBeAsked(q, q.bootstrap), q.answer(q.bootstrap) == Some(true);
    if ParentHasIt(q) then HasIt(q, p) && p in q.parents
    else if origin && originHasIt && q.bootstrap in q.parents then p == q.bootstrap
    else if PeerHasIt(q) then HasIt(q, p)
    else if originHasIt then p == q.bootstrap && (origin || LastResort(q))
    else if exists other :: MayBeAsked(q, other) then MayBeAsked(q, p)
    else p == q.bootstrap && LastResort(q)
  }

  lemma CandidateMeans(q: Request, p: Addr)
    ensures p in Candidates(q) <==> MayBeAsked(q, p)
  {
    hide Select;
    if p in Reached(q) {
      var i :| 0 <= i < |Reached(q)| && Reached(q)[i] == p;
      assert q.reach(q.known[i]) == p;
    }
    if i :| 0 <= i < |q.known| && q.reach(q.known[i]) == p {
      assert Reached(q)[i] == p;
    }
  }

  lemma AssignedMeans(q: Request, p: Addr)
    ensures p in Select(q, AssignedAndAdvertises, Candidates(q)) <==>
      MayBeAsked(q, p) && p in q.parents && q.answer(p) == Some(true)
  {
    hide Select, MayBeAsked, Candidates;
    CandidateMeans(q, p);
  }

  lemma AssignedFirstMeans(q: Request)
    ensures var some := ParentHasIt(q) || (MayBeAsked(q, q.bootstrap) && q.answer(q.bootstrap) == Some(true) && q.bootstrap in q.parents);
      forall p :: p in AssignedFirst(q) <==>
        MayBeAsked(q, p) && (some ==> p in q.parents && q.answer(p) == Some(true))
  {
    hide Select, MayBeAsked, Candidates;
    var sources := Select(q, AssignedAndAdvertises, Candidates(q));
    forall p
      ensures p in sources <==> MayBeAsked(q, p) && p in q.parents && q.answer(p) == Some(true)
      ensures p in Candidates(q) <==> MayBeAsked(q, p)
    {
      AssignedMeans(q, p);
      CandidateMeans(q, p);
    }
    if sources != [] {
      Witness(sources);
    }
  }

  lemma PreferredMeans(q: Request, candidates: seq<Addr>)
    ensures var others := exists p <- candidates :: p != q.bootstrap && q.answer(p) == Some(true);
      forall p :: p in PreferAdvertisedPeers(q, candidates) <==>
        && p in candidates
        && (others ==> p != q.bootstrap && q.answer(p) == Some(true))
        && (!others && q.answer(q.bootstrap) == Some(true) ==> p == q.bootstrap)
  {
    var sources := Select(q, OtherAndAdvertises, candidates);
    hide Select;
    if sources != [] {
      Witness(sources);
    }
  }

  /** Some candidate of the assigned-first stage is known to have the segment and is not the bootstrap. */
  lemma SomeoneHasIt(q: Request)
    ensures (exists p <- AssignedFirst(q) :: p != q.bootstrap && q.answer(p) == Some(true)) <==>
      ParentHasIt(q)
      || (PeerHasIt(q) && !(MayBeAsked(q, q.bootstrap) && q.answer(q.bootstrap) == Some(true) && q.bootstrap in q.parents))
  {
    hide MayBeAsked, AssignedFirst;
    AssignedFirstMeans(q);
    if p :| p in AssignedFirst(q) && p != q.bootstrap && q.answer(p) == Some(true) {
      assert HasIt(q, p);
    }
    if ParentHasIt(q) {
      var p :| HasIt(q, p) && p in q.parents;
      assert p in AssignedFirst(q);
    } else if PeerHasIt(q) {
      var p :| HasIt(q, p);
      assert p in AssignedFirst(q) <==>
        !(MayBeAsked(q, q.bootstrap) && q.answer(q.bootstrap) == Some(true) && q.bootstrap in q.parents);
    }
  }

  /** Who is left after the preferences. */
  ghost predicate Preferred(q: Request, p: Addr) {
    if ParentHasIt(q) then HasIt(q, p) && p in q.parents
    else if MayBeAsked(q, q.bootstrap) && q.answer(q.bootstrap) == Some(true) && q.bootstrap in q.parents then p == q.bootstrap
    else if PeerHasIt(q) then HasIt(q, p)
    else MayBeAsked(q, p) && (q.answer(q.bootstrap) == Some(true) ==> p == q.bootstrap)
  }

  lemma PreferredExactly(q: Request, p: Addr)
    ensures p in PreferAdvertisedPeers(q, AssignedFirst(q)) <==> Preferred(q, p)
  {
    hide MayBeAsked, AssignedFirst, PreferAdvertisedPeers;
    AssignedFirstMeans(q);
    PreferredMeans(q, AssignedFirst(q));
    SomeoneHasIt(q);
    hide ParentHasIt, PeerHasIt;
  }

  lemma SomebodyIsPreferred(q: Request)
    ensures (exists p :: Preferred(q, p)) <==>
      || PeerHasIt(q)
      || (MayBeAsked(q, q.bootstrap) && q.answer(q.bootstrap) == Some(true))
      || (q.answer(q.bootstrap) != Some(true) && exists p :: MayBeAsked(q, p))
  {
    hide MayBeAsked;
    if ParentHasIt(q) {
      var p :| HasIt(q, p) && p in q.parents;
      assert Preferred(q, p);
    } else if MayBeAsked(q, q.bootstrap) && q.answer(q.bootstrap) == Some(true) {
      if PeerHasIt(q) && q.bootstrap !in q.parents {
        var p :| HasIt(q, p);
        assert Preferred(q, p);
      } else {
        assert Preferred(q, q.bootstrap);
      }
    } else if PeerHasIt(q) {
      var p :| HasIt(q, p);
      assert Preferred(q, p);
    } else if p :| MayBeAsked(q, p) {
      assert q.answer(q.bootstrap) != Some(true) ==> Preferred(q, p);
    }
  }

  /** Either the preferences leave somebody, or only the last resort is left. */
  lemma PickedIsPreferred(q: Request, p: Addr)
    ensures MayBePicked(q, p) <==>
      if exists other :: Preferred(q, other) then Preferred(q, p) else p == q.bootstrap && LastResort(q)
  {
    hide MayBeAsked;
    SomebodyIsPreferred(q);
  }

  /** The filters compute exactly these tiers. */
  lemma TiersExactly(q: Request, p: Addr)
    ensures p in Tier(q) <==> MayBePicked(q, p)
  {
    hide Preferred, MayBePicked, AssignedFirst, PreferAdvertisedPeers;
    PickedIsPreferred(q, p);
    PreferredExactly(q, p);
    var preferred := PreferAdvertisedPeers(q, AssignedFirst(q));
    if preferred != [] {
      Witness(preferred);
      PreferredExactly(q, preferred[0]);
    } else {
      forall other
        ensures !Preferred(q, other)
      {
        PreferredExactly(q, other);
      }
    }
  }

  /** Whoever is picked is the bootstrap or not known to lack the segment, and never this node unless as last resort. */
  lemma PickedIsSensible(q: Request, p: Addr)
    requires p in Tier(q)
    ensures p == q.bootstrap || q.answer(p) != Some(false)
    ensures p != q.local || (p == q.bootstrap && LastResort(q))
    ensures p !in q.tried && p !in q.cooling && q.inflight(p) < 2
  {
    hide Tier;
    TiersExactly(q, p);
  }

  /** Nobody is picked exactly if the last resort fails and every known peer is ruled out or surpassed by the origin. */
  lemma NobodyChosen(q: Request)
    ensures Tier(q) == [] <==>
      && !LastResort(q)
      && forall i :: 0 <= i < |q.known| ==>
        var p := q.reach(q.known[i]);
        || p == q.local || (p != q.bootstrap && q.answer(p) == Some(false))
        || p in q.tried || p in q.cooling || q.inflight(p) >= 2
        || (q.answer(q.bootstrap) == Some(true) && p != q.bootstrap && q.answer(p) != Some(true))
  {
    hide Tier;
    if Tier(q) != [] {
      Witness(Tier(q));
      var p := Tier(q)[0];
      TiersExactly(q, p);
      PickedMayBeAsked(q, p);
    } else {
      forall p
        ensures !MayBePicked(q, p)
      {
        TiersExactly(q, p);
      }
      NonePickable(q);
    }
  }

  lemma PickedMayBeAsked(q: Request, p: Addr)
    requires MayBePicked(q, p)
    ensures LastResort(q) || (MayBeAsked(q, p) && (q.answer(q.bootstrap) == Some(true) ==> p == q.bootstrap || q.answer(p) == Some(true)))
  {
    hide MayBeAsked;
  }

  lemma NonePickable(q: Request)
    requires forall p :: !MayBePicked(q, p)
    ensures !LastResort(q)
    ensures forall p :: MayBeAsked(q, p) ==> q.answer(q.bootstrap) == Some(true) && p != q.bootstrap && q.answer(p) != Some(true)
  {
    hide MayBeAsked;
    assert !MayBePicked(q, q.bootstrap);
    HolderIsPicked(q);
    forall p | MayBeAsked(q, p)
      ensures q.answer(q.bootstrap) == Some(true) && p != q.bootstrap && q.answer(p) != Some(true)
    {
      assert !MayBePicked(q, p);
      assert q.answer(p) == Some(true) && p != q.bootstrap ==> HasIt(q, p);
    }
  }

  lemma HolderIsPicked(q: Request)
    ensures PeerHasIt(q) ==> exists p :: MayBePicked(q, p)
  {
    hide MayBeAsked;
    if ParentHasIt(q) {
      var p :| HasIt(q, p) && p in q.parents;
      assert MayBePicked(q, p);
    } else if MayBeAsked(q, q.bootstrap) && q.answer(q.bootstrap) == Some(true) && q.bootstrap in q.parents {
      assert MayBePicked(q, q.bootstrap);
    } else if PeerHasIt(q) {
      var p :| HasIt(q, p);
      assert MayBePicked(q, p);
    }
  }

  lemma Grows(a: real, b: real, c: real)
    requires a <= b && c >= 0.0
    ensures a * c <= b * c && c * a <= c * b
  {
  }

  lemma Shared(score: nat, score': nat, load: nat, load': nat)
    requires score >= score' && load <= load'
    ensures (score as real + 1.0) / (load as real + 1.0) >= (score' as real + 1.0) / (load' as real + 1.0) >= 0.0
  {
    var s, s', l, l' := score as real + 1.0, score' as real + 1.0, load as real + 1.0, load' as real + 1.0;
    Grows(s', s, 1.0 / l);
    InverseShrinks(l, l');
    Grows(1.0 / l', 1.0 / l, s');
    assert s / l == s * (1.0 / l) && s' / l' == s' * (1.0 / l') && s' / l == s' * (1.0 / l);
  }

  lemma InverseShrinks(a: real, b: real)
    requires 0.0 < a <= b
    ensures 0.0 < 1.0 / b <= 1.0 / a
  {
  }

  /**
   A better score, a fresh path, fewer pulls in flight and a positive answer never count against a
   peer, and it is a disadvantage to be the bootstrap.
   */
  lemma WeightsRank(q: Request, p: Addr, p': Addr)
    requires q.score(p) >= q.score(p') && q.inflight(p) <= q.inflight(p') && (q.freshPath(p') ==> q.freshPath(p))
    requires q.answer(p) == q.answer(p') || q.answer(p) == Some(true) || q.answer(p') == Some(false)
    requires p == q.bootstrap ==> p' == q.bootstrap
    ensures Weight(q, p) >= Weight(q, p')
  {
    Shared(q.score(p), q.score(p'), q.inflight(p), q.inflight(p'));
    var share, share' := (q.score(p) as real + 1.0) / (q.inflight(p) as real + 1.0), (q.score(p') as real + 1.0) / (q.inflight(p') as real + 1.0);
    var path, path' := if q.freshPath(p) then 1.25 else 0.7, if q.freshPath(p') then 1.25 else 0.7;
    Grows(share', share, path');
    Grows(path', path, share);
    assert share' * path' <= share * path;
  }

  /** The weight of a candidate by its answer, its role and its path; the lower bound of 0.001 is never reached. */
  lemma WeightTable(q: Request, p: Addr)
    requires q.inflight(p) < 2 && q.answer(p) != Some(false)
    ensures var share := (q.score(p) as real + 1.0) / (q.inflight(p) as real + 1.0);
      Weight(q, p) == share *
        if Advertises(q, p)
        then if p == q.bootstrap then (if q.freshPath(p) then 3.375 else 1.89) else (if q.freshPath(p) then 3.75 else 2.1)
        else if p == q.bootstrap then (if q.freshPath(p) then 0.39375 else 0.2205) else (if q.freshPath(p) then 0.4375 else 0.245)
  {
    assert q.inflight(p) == 0 || q.inflight(p) == 1;
    assert (q.score(p) as real + 1.0) / (q.inflight(p) as real + 1.0) >= 0.5;
  }

  // ----- The roll is fair

  lemma {:induction false} TotalsGrow(q: Request, candidates: seq<Addr>, i: nat, j: nat)
    requires i <= j <= |candidates|
    ensures TotalWeight(q, candidates[..i]) <= TotalWeight(q, candidates[..j])
    decreases j
  {
    hide Weight;
    if i < j {
      TotalsGrow(q, candidates, i, j - 1);
      OneMoreWeight(q, candidates, j - 1);
    }
  }

  /** Each candidate has the interval of the roll that is as long as its weight; no roll falls to two places. */
  lemma RollIsShared(q: Request, candidates: seq<Addr>, target: real, i: nat, j: nat)
    requires i < |candidates| && j < |candidates| && target > 0.0
    ensures var before := TotalWeight(q, candidates[..i]);
      FallsTo(q, candidates, target, i) <==> before < target <= before + Weight(q, candidates[i])
    ensures FallsTo(q, candidates, target, i) && FallsTo(q, candidates, target, j) ==> i == j
  {
    hide Weight, TotalWeight;
    OneMoreWeight(q, candidates, i);
    assert i == 0 ==> TotalWeight(q, candidates[..i]) == 0.0 by { NoWeight(q, candidates[..i]); }
    if i < j {
      TotalsGrow(q, candidates, i + 1, j);
    } else if j < i {
      TotalsGrow(q, candidates, j + 1, i);
    }
  }

  lemma NoWeight(q: Request, candidates: seq<Addr>)
    ensures candidates == [] ==> TotalWeight(q, candidates) == 0.0
  {
  }

  lemma FractionFor(target: real, total: real)
    requires 0.0 < target <= total
    ensures 0.0 < target / total <= 1.0 && target / total * total == target
  {
  }

  /** Nobody in the tier is shut out: for each of them there is a roll that picks it. */
  lemma EveryoneCanBePicked(q: Request, p: Addr)
    requires p in Tier(q)
    ensures exists fraction :: 0.0 <= fraction <= 1.0 && Picked(q, fraction, p)
  {
    hide Select, Reached, Usable, Weight, TotalWeight, PreferAdvertisedPeers, AssignedFirst;
    var candidates := PreferAdvertisedPeers(q, AssignedFirst(q));
    if candidates == [] {
      assert Picked(q, 0.0, p);
    } else {
      var i :| 0 <= i < |candidates| && candidates[i] == p;
      var total, target := TotalWeight(q, candidates), TotalWeight(q, candidates[..i + 1]);
      OneMoreWeight(q, candidates, i);
      TotalsGrow(q, candidates, i + 1, |candidates|);
      assert candidates[..|candidates|] == candidates;
      FractionFor(target, total);
      RollIsShared(q, candidates, target, i, i);
      assert FallsTo(q, candidates, target / total * total, i);
      assert Picked(q, target / total, p);
    }
  }
}
