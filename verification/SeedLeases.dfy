/**
 Origin seed leases: the master hands each segment to a bounded number of peers of a
 reachability class and sends the others to those peers, unless none of them can serve.
 */
module SeedLeases {
  import opened Prelude
  import opened Codec

  type Addr = SocketAddr

  /** Globally reachable: not loopback, not private or link-local. */
  predicate RemotePublic(addr: Addr) {
    match addr
    case V4(a, b, c, d, _) =>
      && a != 127
      && a != 10 && !(a == 172 && 16 <= b <= 31) && !(a == 192 && b == 168)
    case V6(octets, _) =>
      && octets != seq(15, _ => 0) + [1]
      && !(|octets| >= 2 && octets[0] == 0xFE && 0x80 <= octets[1] <= 0xBF)
  }

  /** What the node knows when a request comes in: its peers, the fresh paths, and who has or lacks the segment. */
  datatype View = View(known: set<Addr>, freshPaths: set<Addr>, positive: set<Addr>, negative: set<Addr>)

  datatype Leases = Leases(seeders: map<string, set<Addr>>, assignments: nat, denials: nat)

  datatype Verdict = Verdict(leases: Leases, allowed: bool)

  function Of(s: Leases, filename: string): set<Addr> {
    if filename in s.seeders then s.seeders[filename] else {}
  }

  predicate Viable(v: View, p: Addr) {
    p in v.known && p in v.freshPaths && p !in v.negative
  }

  function Kept(s: Leases, filename: string, v: View): set<Addr> {
    set p | p in Of(s, filename) && Viable(v, p)
  }

  function InClass(peers: set<Addr>, remote: bool): set<Addr> {
    set p | p in peers && RemotePublic(p) == remote
  }

  function SeedLeaseAllowed(seeders: set<Addr>, peer: Addr, limit: nat): bool {
    peer in seeders || |seeders| < limit
  }

  /** Another peer of the requester's class that can serve the segment now. */
  predicate IsSource(v: View, peer: Addr, candidate: Addr) {
    && candidate in v.known && candidate != peer
    && RemotePublic(candidate) == RemotePublic(peer)
    && candidate in v.freshPaths && candidate in v.positive
  }

  predicate SourceExists(v: View, peer: Addr) {
    exists candidate :: candidate in v.known && IsSource(v, peer, candidate)
  }

  function OriginSeedAllowed(s: Leases, master: bool, held: bool, filename: string, peer: Addr, limit: nat, v: View): Verdict {
    if !master || !held then Verdict(s, true)
    else
      var kept := Kept(s, filename, v);
      var s := s.(seeders := s.seeders[filename := kept]);
      if SeedLeaseAllowed(InClass(kept, RemotePublic(peer)), peer, limit) then
        if peer in kept then Verdict(s, true)
        else Verdict(s.(seeders := s.seeders[filename := kept + {peer}], assignments := s.assignments + 1), true)
      else if !SourceExists(v, peer) then
        Verdict(s.(seeders := s.seeders[filename := kept + {peer}], assignments := s.assignments + 1), true)
      else Verdict(s.(denials := s.denials + 1), false)
  }

  function Prune(s: Leases, known: set<Addr>): Leases {
    s.(seeders := map f | f in s.seeders && s.seeders[f] * known != {} :: s.seeders[f] * known)
  }

  // ----- The class

  class OriginSeeders {
    var seeders: map<string, set<Addr>>
    var assignments: nat
    var denials: nat

    ghost function State(): Leases
      reads this
    {
      Leases(seeders, assignments, denials)
    }

    constructor ()
      ensures State() == Leases(map[], 0, 0)
    {
      seeders, assignments, denials := map[], 0, 0;
    }

    method Decide(master: bool, held: bool, filename: string, peer: Addr, limit: nat, v: View) returns (allowed: bool)
      modifies this
      ensures Verdict(State(), allowed) == OriginSeedAllowed(old(State()), master, held, filename, peer, limit, v)
    {
      if !master || !held {
        return true;
      }
      var before := if filename in seeders then seeders[filename] else {};
      var kept := set p | p in before && Viable(v, p);
      seeders := seeders[filename := kept];
      var reachable := InClass(kept, RemotePublic(peer));
      if SeedLeaseAllowed(reachable, peer, limit) {
        if peer !in kept {
          seeders := seeders[filename := kept + {peer}];
          assignments := assignments + 1;
        }
        return true;
      }
      if !SourceExists(v, peer) {
        seeders := seeders[filename := kept + {peer}];
        assignments := assignments + 1;
        return true;
      }
      denials := denials + 1;
      allowed := false;
    }

    method PruneUnknown(known: set<Addr>)
      modifies this
      ensures State() == Prune(old(State()), known)
    {
      seeders := map f | f in seeders && seeders[f] * known != {} :: seeders[f] * known;
    }
  }

  // ----- One decision

  /** The class budget is spent and the requester has no lease. */
  predicate Full(s: Leases, filename: string, peer: Addr, limit: nat, v: View) {
    var reachable := InClass(Kept(s, filename, v), RemotePublic(peer));
    peer !in reachable && |reachable| >= limit
  }

  /**
   For a held segment on the master: a request is allowed exactly if the requester holds a lease
   afterwards, and denied exactly if the budget is spent and another peer of its class can serve.
   The counters say by how much the lease set has grown and how often it was refused.
   */
  lemma DecisionLaw(s: Leases, filename: string, peer: Addr, limit: nat, v: View)
    ensures var r := OriginSeedAllowed(s, true, true, filename, peer, limit, v);
      var kept := Kept(s, filename, v);
      && (r.allowed <==> peer in Of(r.leases, filename))
      && (!r.allowed <==> Full(s, filename, peer, limit, v) && exists c :: IsSource(v, peer, c))
      && Of(r.leases, filename) == (if r.allowed then kept + {peer} else kept)
      && r.leases.assignments - s.assignments == |Of(r.leases, filename)| - |kept|
      && r.leases.denials - s.denials == (if r.allowed then 0 else 1)
      && (forall f :: f != filename ==> Of(r.leases, f) == Of(s, f))
  {
    var r := OriginSeedAllowed(s, true, true, filename, peer, limit, v);
    var kept := Kept(s, filename, v);
    assert peer in kept ==> kept + {peer} == kept;
    if SourceExists(v, peer) {
      var c :| c in v.known && IsSource(v, peer, c);
    }
    if exists c :: IsSource(v, peer, c) {
      var c :| IsSource(v, peer, c);
      assert c in v.known;
    }
  }

  /** The only recovery path is never denied. */
  lemma LastSourceIsServed(s: Leases, master: bool, held: bool, filename: string, peer: Addr, limit: nat, v: View)
    requires forall c :: !IsSource(v, peer, c)
    ensures OriginSeedAllowed(s, master, held, filename, peer, limit, v).allowed
  {
    if master && held {
      DecisionLaw(s, filename, peer, limit, v);
    }
  }

  // ----- Runs

  datatype Step =
    | Ask(master: bool, held: bool, filename: string, peer: Addr, view: View)
    | Sweep(known: set<Addr>)

  /** Admitted although the budget was spent. */
  predicate IsRecovery(s: Leases, step: Step, limit: nat) {
    && step.Ask? && step.master && step.held
    && Full(s, step.filename, step.peer, limit, step.view)
    && OriginSeedAllowed(s, true, true, step.filename, step.peer, limit, step.view).allowed
  }

  function Run(steps: seq<Step>, limit: nat): Leases {
    if steps == [] then Leases(map[], 0, 0)
    else
      var s := Run(steps[..|steps| - 1], limit);
      match steps[|steps| - 1]
      case Ask(master, held, filename, peer, view) =>
        OriginSeedAllowed(s, master, held, filename, peer, limit, view).leases
      case Sweep(known) => Prune(s, known)
  }

  /** Recovery admissions for a segment and a class during a run. */
  function Recoveries(steps: seq<Step>, limit: nat, filename: string, remote: bool): nat {
    if steps == [] then 0
    else
      var front, last := steps[..|steps| - 1], steps[|steps| - 1];
      Recoveries(front, limit, filename, remote)
        + if IsRecovery(Run(front, limit), last, limit) && last.filename == filename
             && RemotePublic(last.peer) == remote then 1 else 0
  }

  /** Leases of a class after a decision: at most those kept, and one more for an admitted requester of the class. */
  lemma ClassAfterDecision(s: Leases, filename: string, peer: Addr, limit: nat, v: View, remote: bool)
    ensures var r := OriginSeedAllowed(s, true, true, filename, peer, limit, v);
      var before := |InClass(Of(s, filename), remote)|;
      var after := |InClass(Of(r.leases, filename), remote)|;
      && (after <= before || after <= limit
          || (after <= before + 1 && r.allowed && Full(s, filename, peer, limit, v) && RemotePublic(peer) == remote))
  {
    hide OriginSeedAllowed, Kept, Of, InClass, RemotePublic, IsSource;
    DecisionLaw(s, filename, peer, limit, v);
    KeptInClass(s, filename, v, remote);
    OneMoreInClass(Kept(s, filename, v), peer, remote);
  }

  lemma KeptInClass(s: Leases, filename: string, v: View, remote: bool)
    ensures |InClass(Kept(s, filename, v), remote)| <= |InClass(Of(s, filename), remote)|
  {
    SubsetCount(InClass(Kept(s, filename, v), remote), InClass(Of(s, filename), remote));
  }

  lemma OneMoreInClass(kept: set<Addr>, peer: Addr, remote: bool)
    ensures |InClass(kept + {peer}, remote)|
      == |InClass(kept, remote)| + if RemotePublic(peer) == remote && peer !in InClass(kept, remote) then 1 else 0
  {
    hide RemotePublic;
    if RemotePublic(peer) == remote {
      assert InClass(kept + {peer}, remote) == InClass(kept, remote) + {peer};
      if peer in InClass(kept, remote) {
        assert InClass(kept, remote) + {peer} == InClass(kept, remote);
      }
    } else {
      assert InClass(kept + {peer}, remote) == InClass(kept, remote);
    }
  }

  /**
   Over any run the leases of a segment in one reachability class never exceed the limit plus the
   recovery admissions of that class.
   */
  lemma {:induction false} LeasesAreBounded(steps: seq<Step>, limit: nat, filename: string, remote: bool)
    ensures |InClass(Of(Run(steps, limit), filename), remote)| <= limit + Recoveries(steps, limit, filename, remote)
  {
    if steps == [] {
      assert InClass({}, remote) == {};
    } else {
      var front, last := steps[..|steps| - 1], steps[|steps| - 1];
      LeasesAreBounded(front, limit, filename, remote);
      var s := Run(front, limit);
      match last
      case Ask(master, held, f, peer, view) =>
        if master && held {
          if f == filename {
            ClassAfterDecision(s, filename, peer, limit, view, remote);
          } else {
            DecisionLaw(s, f, peer, limit, view);
          }
        }
      case Sweep(known) =>
        assert Of(Prune(s, known), filename) == Of(s, filename) * known;
        SubsetCount(InClass(Of(s, filename) * known, remote), InClass(Of(s, filename), remote));
    }
  }

  /** After a sweep every lease belongs to a known peer and no segment has an empty lease set. */
  lemma SweepForgetsUnknown(s: Leases, known: set<Addr>)
    ensures forall f :: Of(Prune(s, known), f) == Of(s, f) * known
    ensures forall f :: f in Prune(s, known).seeders ==> Of(Prune(s, known), f) != {}
    ensures Prune(s, known).assignments == s.assignments && Prune(s, known).denials == s.denials
  {
  }

  // ----- The decision spelled out

  /** Public addresses by their octets: not 127.0.0.0/8, 10.0.0.0/8, 172.16.0.0/12, 192.168.0.0/16, ::1 or fe80::/10. */
  lemma PublicExactly(addr: Addr)
    ensures addr.V4? ==>
      (RemotePublic(addr) <==>
        !(addr.a == 127 || addr.a == 10 || (addr.a == 172 && addr.b / 16 == 1) || (addr.a == 192 && addr.b == 168)))
    ensures addr.V6? && |addr.octets| == 16 ==>
      (RemotePublic(addr) <==>
        !((addr.octets[15] == 1 && forall i :: 0 <= i < 15 ==> addr.octets[i] == 0)
          || (addr.octets[0] == 254 && addr.octets[1] / 64 == 2)))
  {
    if addr.V6? && |addr.octets| == 16 && addr.octets[15] == 1 && forall i :: 0 <= i < 15 ==> addr.octets[i] == 0 {
      assert addr.octets == seq(15, _ => 0) + [1];
    }
  }

  /** The lease holders that still count: known, with a fresh path, and not known to lack the segment. */
  function Holders(s: Leases, filename: string, v: View): set<Addr> {
    set p | p in Of(s, filename) && p in v.known && p in v.freshPaths && p !in v.negative
  }

  function SameClass(peers: set<Addr>, peer: Addr): set<Addr> {
    set p | p in peers && RemotePublic(p) == RemotePublic(peer)
  }

  /** Someone else of the requester's class who is known, has a fresh path and advertises the segment. */
  predicate SomeoneElseServes(v: View, peer: Addr) {
    exists c <- v.known :: c != peer && RemotePublic(c) == RemotePublic(peer) && c in v.freshPaths && c in v.positive
  }

  /**
   On the master, for a segment it holds, a request is denied exactly if the requester holds no
   lease, as many of its class hold one as the limit allows, and someone else of its class serves the
   segment. Everybody else is allowed, and holds a lease from then on.
   */
  lemma DecisionExactly(s: Leases, filename: string, peer: Addr, limit: nat, v: View)
    ensures var r, holders := OriginSeedAllowed(s, true, true, filename, peer, limit, v), Holders(s, filename, v);
      var denied := peer !in holders && |SameClass(holders, peer)| >= limit && SomeoneElseServes(v, peer);
      && r.allowed == !denied
      && Of(r.leases, filename) == (if denied then holders else holders + {peer})
      && (forall other :: other != filename ==> Of(r.leases, other) == Of(s, other))
      && r.leases.assignments == s.assignments + (if denied || peer in holders then 0 else 1)
      && r.leases.denials == s.denials + (if denied then 1 else 0)
  {
    hide RemotePublic;
    var holders := Holders(s, filename, v);
    assert Kept(s, filename, v) == holders;
    assert InClass(holders, RemotePublic(peer)) == SameClass(holders, peer);
    assert SourceExists(v, peer) == SomeoneElseServes(v, peer);
    assert peer in SameClass(holders, peer) <==> peer in holders;
    assert peer in holders ==> holders + {peer} == holders;
  }

  /** Elsewhere, and for segments the master does not hold, there is no lease and no refusal. */
  lemma OnlyTheMasterLeases(s: Leases, master: bool, held: bool, filename: string, peer: Addr, limit: nat, v: View)
    requires !master || !held
    ensures OriginSeedAllowed(s, master, held, filename, peer, limit, v) == Verdict(s, true)
  {
  }
}
