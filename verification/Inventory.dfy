/**
 The 16-bit inventory a node announces, and the cache of such announcements and of exact
 negative answers that a node keeps about its peers.
 */
module Inventory {
  import opened Prelude
  import opened Text
  import Codec

  type Availability = Codec.Availability
  type Addr = Codec.SocketAddr
  type Time = nat

  const MASK_BITS := 16
  const TTL := 15000  // milliseconds, of inventories and of negative answers

  // ----- Bits

  /** `mask & (1 << d) != 0` */
  predicate Bit(mask: nat, d: nat) {
    if d == 0 then mask % 2 == 1 else Bit(mask / 2, d - 1)
  }

  /** `mask | 1 << d` */
  function SetBit(mask: nat, d: nat): nat {
    if d == 0 then (if mask % 2 == 1 then mask else mask + 1)
    else 2 * SetBit(mask / 2, d - 1) + mask % 2
  }

  lemma {:induction false} SetBitBits(mask: nat, d: nat, e: nat)
    ensures Bit(SetBit(mask, d), e) <==> e == d || Bit(mask, e)
  {
    if d == 0 {
      assert SetBit(mask, 0) / 2 == mask / 2;
    } else if e > 0 {
      assert SetBit(mask, d) / 2 == SetBit(mask / 2, d - 1);
      SetBitBits(mask / 2, d - 1, e - 1);
    }
  }

  function Pow2(n: nat): nat {
    if n == 0 then 1 else 2 * Pow2(n - 1)
  }

  lemma {:induction false} SetBitBound(mask: nat, d: nat, width: nat)
    requires mask < Pow2(width) && d < width
    ensures SetBit(mask, d) < Pow2(width)
  {
    if d > 0 {
      SetBitBound(mask / 2, d - 1, width - 1);
    }
  }

  lemma {:induction false} NoBits(d: nat)
    ensures !Bit(0, d)
  {
    if d > 0 {
      NoBits(d - 1);
    }
  }

  /** A mask is determined by its bits. */
  lemma {:induction false} BitsDetermineMask(a: nat, b: nat, width: nat)
    requires a < Pow2(width) && b < Pow2(width)
    requires forall d :: 0 <= d < width ==> Bit(a, d) == Bit(b, d)
    ensures a == b
  {
    if width > 0 {
      forall d | 0 <= d < width - 1
        ensures Bit(a / 2, d) == Bit(b / 2, d)
      {
        assert Bit(a, d + 1) == Bit(b, d + 1);
      }
      BitsDetermineMask(a / 2, b / 2, width - 1);
      assert Bit(a, 0) == Bit(b, 0);
    }
  }

  // ----- The announced inventory

  function Contains(a: Availability, segment: u64): Option<bool> {
    if segment > a.newest then None
    else if a.newest - segment >= MASK_BITS then None
    else Some(Bit(a.mask, a.newest - segment))
  }

  /** `newest` and the mask of the segments within 16 of it. */
  ghost predicate Summarises(a: Availability, numbers: set<u64>) {
    && a.newest in numbers && (forall n :: n in numbers ==> n <= a.newest)
    && (forall d :: 0 <= d < MASK_BITS ==> (Bit(a.mask, d) <==> d <= a.newest && a.newest - d in numbers))
  }

  /** The numbers of the stored segments, in directory order, to an inventory. */
  method SegmentAvailability(numbers: seq<u64>) returns (r: Option<Availability>)
    ensures numbers == [] ==> r == None
    ensures numbers != [] ==> r.Some? && Summarises(r.value, set n | n in numbers)
  {
    if numbers == [] {
      return None;
    }
    var newest := numbers[0];
    for i := 1 to |numbers|
      invariant newest in numbers && forall j :: 0 <= j < i ==> numbers[j] <= newest
    {
      if numbers[i] > newest {
        newest := numbers[i];
      }
    }
    var mask: u16 := 0;
    assert forall d :: 0 <= d < MASK_BITS ==> !Bit(mask, d) by {
      forall d | 0 <= d < MASK_BITS ensures !Bit(0, d) { NoBits(d); }
    }
    for i := 0 to |numbers|
      invariant forall d :: 0 <= d < MASK_BITS ==> (Bit(mask, d) <==> newest - d in numbers[..i])
    {
      var distance := newest - numbers[i];
      if distance < MASK_BITS {
        ghost var before := mask;
        WordIsPow2();
        SetBitBound(mask, distance, MASK_BITS);
        mask := SetBit(mask, distance);
        forall d | 0 <= d < MASK_BITS
          ensures Bit(mask, d) <==> newest - d in numbers[..i + 1]
        {
          SetBitBits(before, distance, d);
          assert numbers[..i + 1] == numbers[..i] + [numbers[i]];
        }
      } else {
        assert numbers[..i + 1] == numbers[..i] + [numbers[i]];
      }
    }
    assert numbers[..|numbers|] == numbers;
    r := Some(Codec.Availability(newest, mask));
  }

  lemma WordIsPow2()
    ensures Pow2(MASK_BITS) == 0x1_0000
  {
    assert Pow2(4) == 16;
    assert Pow2(8) == 256;
    assert Pow2(12) == 4096;
  }

  /** Exactness: within 16 of the newest the inventory answers membership, elsewhere nothing. */
  lemma MaskIsExact(a: Availability, numbers: set<u64>, n: u64)
    requires Summarises(a, numbers)
    ensures Contains(a, n) == if a.newest - MASK_BITS < n <= a.newest then Some(n in numbers) else None
  {
    if a.newest - MASK_BITS < n <= a.newest {
      assert a.newest - (a.newest - n) == n;
    }
  }

  /** The inventory depends on the set of segments only, whatever the directory order. */
  lemma InventoryIsUnique(a: Availability, b: Availability, numbers: set<u64>)
    requires Summarises(a, numbers) && Summarises(b, numbers)
    ensures a == b
  {
    WordIsPow2();
    BitsDetermineMask(a.mask, b.mask, MASK_BITS);
  }

  /** A store's inventory, sent in a PONG or a NOT_FOUND, answers membership at the other end. */
  lemma InventorySurvivesTheWire(a: Availability, numbers: set<u64>, id: u16, retryable: bool, n: u64)
    requires Summarises(a, numbers)
    ensures Codec.Decode(Codec.Encode(Codec.Pong(Some(a)))) == Ok(Codec.Pong(Some(a)))
    ensures Codec.Decode(Codec.Encode(Codec.SegmentNotFound(id, Some(a), retryable)))
      == Ok(Codec.SegmentNotFound(id, Some(a), retryable))
    ensures Contains(a, n) == if a.newest - MASK_BITS < n <= a.newest then Some(n in numbers) else None
  {
    hide Codec.Decode, Codec.Encode;
    Codec.ExactRoundTrip(Codec.Pong(Some(a)));
    Codec.ExactRoundTrip(Codec.SegmentNotFound(id, Some(a), retryable));
    MaskIsExact(a, numbers, n);
  }

  // ----- The cache

  datatype Key = Key(peer: Addr, segment: u64)

  datatype Seen = Seen(inventory: Availability, at: Time)

  datatype Cache = Cache(availability: map<Addr, Seen>, missing: map<Key, Time>)

  function SaturatingSub(a: u64, b: nat): u64 {
    if b <= a then a - b else 0
  }

  /** The negative answers that an inventory of `peer` sets aside. */
  function Revoked(peer: Addr, a: Availability, bits: nat): set<Key> {
    set d | 0 <= d < bits && Bit(a.mask, d) :: Key(peer, SaturatingSub(a.newest, d))
  }

  function RecordAvailability(c: Cache, peer: Addr, a: Availability, now: Time): Cache {
    Cache(c.availability[peer := Seen(a, now)], c.missing - Revoked(peer, a, MASK_BITS))
  }

  function RecordMissing(c: Cache, peer: Addr, filename: string, now: Time): Cache {
    match SegmentNumber(filename)
    case None => c
    case Some(n) => c.(missing := c.missing[Key(peer, n) := now + TTL])
  }

  function PeerAvailability(c: Cache, peer: Addr, filename: string, now: Time): Option<bool> {
    match SegmentNumber(filename)
    case None => None
    case Some(n) => AnswerFor(c, peer, n, now)
  }

  function AnswerFor(c: Cache, peer: Addr, n: u64, now: Time): Option<bool> {
    if Key(peer, n) in c.missing && now < c.missing[Key(peer, n)] then Some(false)
    else if peer !in c.availability then None
    else if now - c.availability[peer].at > TTL then None
    else Contains(c.availability[peer].inventory, n)
  }

  class InventoryCache {
    var availability: map<Addr, Seen>
    var missing: map<Key, Time>

    ghost function State(): Cache
      reads this
    {
      Cache(availability, missing)
    }

    constructor ()
      ensures State() == Cache(map[], map[])
    {
      availability, missing := map[], map[];
    }

    method NoteAvailability(peer: Addr, a: Availability, now: Time)
      modifies this
      ensures State() == RecordAvailability(old(State()), peer, a, now)
    {
      for number := 0 to MASK_BITS
        invariant availability == old(availability)
        invariant missing == old(missing) - Revoked(peer, a, number)
      {
        if Bit(a.mask, number) {
          missing := missing - {Key(peer, SaturatingSub(a.newest, number))};
          assert Revoked(peer, a, number + 1) == Revoked(peer, a, number) + {Key(peer, SaturatingSub(a.newest, number))};
        } else {
          assert Revoked(peer, a, number + 1) == Revoked(peer, a, number);
        }
      }
      availability := availability[peer := Seen(a, now)];
    }

    method NoteMissing(peer: Addr, filename: string, now: Time)
      modifies this
      ensures State() == RecordMissing(old(State()), peer, filename, now)
    {
      var number := SegmentNumber(filename);
      if number.Some? {
        missing := missing[Key(peer, number.value) := now + TTL];
      }
    }

    method Query(peer: Addr, filename: string, now: Time) returns (answer: Option<bool>)
      ensures answer == PeerAvailability(State(), peer, filename, now)
    {
      var number := SegmentNumber(filename);
      if number.None? {
        return None;
      }
      var key := Key(peer, number.value);
      if key in missing && now < missing[key] {
        return Some(false);
      }
      if peer !in availability {
        return None;
      }
      var seen := availability[peer];
      if now - seen.at > TTL {
        return None;
      }
      answer := Contains(seen.inventory, number.value);
    }
  }

  // ----- The event log

  datatype Event =
    | Announced(peer: Addr, inventory: Availability, at: Time)
    | Denied(peer: Addr, filename: string, at: Time)

  predicate Sorted(log: seq<Event>) {
    forall i, j :: 0 <= i < j < |log| ==> log[i].at <= log[j].at
  }

  predicate Affirms(e: Event, peer: Addr, n: u64) {
    e.Announced? && e.peer == peer && Contains(e.inventory, n) == Some(true)
  }

  /** A negative answer for segment `n`, under whatever name it was asked for. */
  predicate Denies(e: Event, peer: Addr, n: u64) {
    e.Denied? && e.peer == peer && SegmentNumber(e.filename) == Some(n)
  }

  /** An unexpired negative answer that no later inventory has contradicted. */
  ghost predicate StandsDenied(log: seq<Event>, peer: Addr, n: u64, now: Time) {
    exists i :: 0 <= i < |log| && Denies(log[i], peer, n)
      && now < log[i].at + 15000
      && forall j :: i < j < |log| ==> !Affirms(log[j], peer, n)
  }

  function NewestInventory(log: seq<Event>, peer: Addr): Option<Seen> {
    if log == [] then None
    else
      var last := log[|log| - 1];
      if last.Announced? && last.peer == peer then Some(Seen(last.inventory, last.at))
      else NewestInventory(log[..|log| - 1], peer)
  }

  /** The answer that the whole history gives. */
  ghost function HistoryAnswer(log: seq<Event>, peer: Addr, n: u64, now: Time): Option<bool> {
    if StandsDenied(log, peer, n, now) then Some(false)
    else
      match NewestInventory(log, peer)
      case None => None
      case Some(seen) => if now - seen.at > 15000 then None else Contains(seen.inventory, n)
  }

  function Replay(log: seq<Event>): Cache {
    if log == [] then Cache(map[], map[])
    else
      var c := Replay(log[..|log| - 1]);
      match log[|log| - 1]
      case Announced(peer, a, at) => RecordAvailability(c, peer, a, at)
      case Denied(peer, filename, at) => RecordMissing(c, peer, filename, at)
  }

  /** No bit of the mask stands for a segment below 0, unless the bit of segment 0 is set as well. */
  predicate Harmless(a: Availability) {
    forall d :: 0 <= d < MASK_BITS && Bit(a.mask, d) && d > a.newest ==> Bit(a.mask, a.newest)
  }

  /** The inventory of a store is harmless: the saturating subtraction never bites. */
  lemma StoreInventoryIsHarmless(a: Availability, numbers: set<u64>)
    requires Summarises(a, numbers)
    ensures forall d :: 0 <= d < MASK_BITS && Bit(a.mask, d) ==> d <= a.newest
    ensures Harmless(a)
  {
  }

  /** A harmless inventory revokes the negative answers it contradicts, and no others. */
  lemma RevokesContradicted(peer: Addr, a: Availability, n: u64)
    requires Harmless(a)
    ensures Key(peer, n) in Revoked(peer, a, MASK_BITS) <==> Contains(a, n) == Some(true)
  {
    if Contains(a, n) == Some(true) {
      var d := a.newest - n;
      assert SaturatingSub(a.newest, d) == n;
    }
  }

  /** The last negative answer about segment `n` that still stands, ignoring its age. */
  function LastDenial(log: seq<Event>, peer: Addr, n: u64): Option<Time> {
    if log == [] then None
    else
      var last := log[|log| - 1];
      if Denies(last, peer, n) then Some(last.at)
      else if Affirms(last, peer, n) then None
      else LastDenial(log[..|log| - 1], peer, n)
  }

  predicate AllHarmless(log: seq<Event>) {
    forall i :: 0 <= i < |log| && log[i].Announced? ==> Harmless(log[i].inventory)
  }

  lemma {:induction false} CacheHolds(log: seq<Event>, peer: Addr, n: u64)
    requires AllHarmless(log)
    ensures var c := Replay(log);
      && (peer in c.availability <==> NewestInventory(log, peer).Some?)
      && (peer in c.availability ==> NewestInventory(log, peer) == Some(c.availability[peer]))
      && (Key(peer, n) in c.missing <==> LastDenial(log, peer, n).Some?)
      && (Key(peer, n) in c.missing ==> c.missing[Key(peer, n)] == LastDenial(log, peer, n).value + TTL)
  {
    if log != [] {
      var front, last := log[..|log| - 1], log[|log| - 1];
      CacheHolds(front, peer, n);
      if last.Announced? {
        RevokesContradicted(last.peer, last.inventory, n);
        assert last.peer != peer ==> Key(peer, n) !in Revoked(last.peer, last.inventory, MASK_BITS);
      }
    }
  }

  lemma {:induction false} DenialStands(log: seq<Event>, peer: Addr, n: u64, now: Time)
    requires Sorted(log)
    ensures StandsDenied(log, peer, n, now) <==>
      LastDenial(log, peer, n).Some? && now < LastDenial(log, peer, n).value + TTL
    ensures LastDenial(log, peer, n).Some? ==> log != [] && LastDenial(log, peer, n).value <= log[|log| - 1].at
  {
    if log != [] {
      var front, last := log[..|log| - 1], log[|log| - 1];
      DenialStands(front, peer, n, now);
      if Denies(last, peer, n) {
        LatestDenialDecides(log, peer, n, now);
      } else {
        OtherEventsKeepDenial(log, peer, n, now);
      }
    }
  }

  lemma LatestDenialDecides(log: seq<Event>, peer: Addr, n: u64, now: Time)
    requires Sorted(log) && log != []
    requires var last := log[|log| - 1]; Denies(last, peer, n)
    ensures StandsDenied(log, peer, n, now) <==> now < log[|log| - 1].at + TTL
  {
    if StandsDenied(log, peer, n, now) {
      var i :| 0 <= i < |log| && Denies(log[i], peer, n) && now < log[i].at + TTL;
      assert log[i].at <= log[|log| - 1].at;
    }
  }

  lemma OtherEventsKeepDenial(log: seq<Event>, peer: Addr, n: u64, now: Time)
    requires log != []
    requires var last := log[|log| - 1]; !Denies(last, peer, n)
    ensures StandsDenied(log, peer, n, now) <==>
      !Affirms(log[|log| - 1], peer, n) && StandsDenied(log[..|log| - 1], peer, n, now)
  {
    hide Affirms, Denies;
    var front := log[..|log| - 1];
    if StandsDenied(log, peer, n, now) {
      var i :| 0 <= i < |log| && Denies(log[i], peer, n)
        && now < log[i].at + TTL && forall j :: i < j < |log| ==> !Affirms(log[j], peer, n);
      assert i < |front| && front[i] == log[i];
      assert forall j :: i < j < |front| ==> front[j] == log[j];
    }
    if !Affirms(log[|log| - 1], peer, n) && StandsDenied(front, peer, n, now) {
      var i :| 0 <= i < |front| && Denies(front[i], peer, n)
        && now < front[i].at + TTL && forall j :: i < j < |front| ==> !Affirms(front[j], peer, n);
      assert log[i] == front[i];
      forall j | i < j < |log|
        ensures !Affirms(log[j], peer, n)
      {
        if j < |front| {
          assert front[j] == log[j];
        }
      }
    }
  }

  /** The cache refines the event log: its answer is the one computed from the full history. */
  lemma CacheRefinesHistory(log: seq<Event>, peer: Addr, filename: string, now: Time)
    requires Sorted(log) && AllHarmless(log)
    ensures PeerAvailability(Replay(log), peer, filename, now) ==
      match SegmentNumber(filename)
      case None => None
      case Some(n) => HistoryAnswer(log, peer, n, now)
  {
    if SegmentNumber(filename).Some? {
      var n := SegmentNumber(filename).value;
      CacheHolds(log, peer, n);
      DenialStands(log, peer, n, now);
    }
  }

  /** A negative answer for segment 0, the inventory `a`, and one that says nothing of segment 0. */
  function Probe(peer: Addr, a: Availability): seq<Event> {
    [Denied(peer, "seg_0.ts", 0), Announced(peer, a, 0), Announced(peer, Codec.Availability(100, 0), 0)]
  }

  lemma SegmentZero()
    ensures SegmentNumber("seg_0.ts") == Some(0)
  {
    assert SegmentName(0) == "seg_0.ts";
    SegmentNameRoundTrip(0);
  }

  /** Off the wire any inventory may come. The cache keeps to the history exactly for the harmless ones. */
  lemma OnlyHarmlessInventoriesAgree(peer: Addr, a: Availability)
    ensures AnswerFor(Replay(Probe(peer, a)), peer, 0, 0) == HistoryAnswer(Probe(peer, a), peer, 0, 0)
      <==> Harmless(a)
  {
    SegmentZero();
    hide SegmentNumber;
    var log := Probe(peer, a);
    var b := Codec.Availability(100, 0);
    forall d | 0 <= d < MASK_BITS ensures !Bit(0, d) { NoBits(d); }
    if Harmless(a) {
      assert Harmless(b);
      CacheHolds(log, peer, 0);
      DenialStands(log, peer, 0, 0);
    } else {
      var d :| 0 <= d < MASK_BITS && Bit(a.mask, d) && d > a.newest && !Bit(a.mask, a.newest);
      assert log[..2] == [Denied(peer, "seg_0.ts", 0), Announced(peer, a, 0)];
      assert log[..2][..1] == [Denied(peer, "seg_0.ts", 0)];
      assert Key(peer, 0) in Revoked(peer, a, MASK_BITS);
      assert Key(peer, 0) !in Replay(log).missing;
      assert !Affirms(log[1], peer, 0) && !Affirms(log[2], peer, 0);
      assert StandsDenied(log, peer, 0, 0) by {
        assert Denies(log[0], peer, 0);
      }
    }
  }

  /** Newest segment 0 and a bit below it: the refusal for segment 0 is revoked although nothing contradicts it. */
  lemma BelowZeroIsHarmful(peer: Addr)
    ensures var a := Codec.Availability(0, 2);
      && !Harmless(a) && Contains(a, 0) == Some(false)
      && AnswerFor(Replay(Probe(peer, a)), peer, 0, 0) != HistoryAnswer(Probe(peer, a), peer, 0, 0)
  {
    var a := Codec.Availability(0, 2);
    assert Bit(a.mask, 1) && !Bit(a.mask, 0);
    assert !Harmless(a);
    hide Harmless;
    OnlyHarmlessInventoriesAgree(peer, a);
  }
}
