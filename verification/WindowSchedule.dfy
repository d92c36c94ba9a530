/**
 The window schedule of a transfer. The receiver names every window; the code
 computes each from the one before. Here window `k` is given directly, so that
 both machines can be compared with one sequence fixed by the packet count alone.
 */
module WindowSchedule {
  import opened Prelude

  const INITIAL_WINDOW := 5
  const MAX_WINDOW := 64

  /** A requested packet range: `count` packets from the 1-based `start`. */
  datatype Range = Range(start: u16, count: u16)

  /** Unclipped size of window `k`: 5, 10, 20, 40, 64, 64, ... */
  function Size(k: nat): nat {
    match k
    case 0 => 5
    case 1 => 10
    case 2 => 20
    case 3 => 40
    case _ => 64
  }

  /** First packet of window `k`: 1, 6, 16, 36, 76, 140, ... */
  function Start(k: nat): (s: nat)
    ensures s >= 1
  {
    match k
    case 0 => 1
    case 1 => 6
    case 2 => 16
    case 3 => 36
    case _ => 76 + 64 * (k - 4)
  }

  /** Last packet of window `k` of a transfer of `n` packets. */
  function End(k: nat, n: int): int {
    Min(Start(k) + Size(k) - 1, n)
  }

  /** `r` is window `k` of a transfer of `n` packets. */
  predicate IsWindow(r: Range, k: nat, n: int) {
    Start(k) <= n && r.start == Start(k) && r.count == End(k, n) - Start(k) + 1
  }

  /** Number of windows of a transfer of `n` packets. */
  function WindowCount(n: nat): nat {
    if n <= 5 then 1
    else if n <= 15 then 2
    else if n <= 35 then 3
    else if n <= 75 then 4
    else 4 + (n - 75 + 63) / 64
  }

  lemma StartMonotone(j: nat, k: nat)
    requires j <= k
    ensures j < k ==> Start(j) + Size(j) <= Start(k)
    ensures Start(j) <= Start(k) && Size(j) <= Size(k)
  {
  }

  /** The windows tile 1..n: there are exactly `WindowCount(n)` of them, and the last one ends at `n`. */
  lemma WindowsTile(k: nat, n: nat)
    requires n >= 1
    ensures Start(k) <= n <==> k < WindowCount(n)
    ensures k + 1 < WindowCount(n) ==> End(k, n) + 1 == Start(k + 1)
    ensures k + 1 == WindowCount(n) ==> End(k, n) == n
  {
    if n > 75 {
      var m := n - 75 + 63;
      assert m == 64 * (m / 64) + m % 64;
    }
  }

  /** The receiver's arithmetic for the next window: doubled, capped, clipped. */
  function NextCount(count: int, remaining: int): int {
    Min(Min(count * 2, MAX_WINDOW), remaining)
  }

  /** Doubling a window that does not reach the last packet gives the next window of the schedule. */
  lemma NextWindow(k: nat, n: u16, r: Range)
    requires IsWindow(r, k, n)
    requires r.start + r.count <= n
    ensures Start(k + 1) == r.start + r.count <= n
    ensures NextCount(r.count, n - (r.start + r.count) + 1) == End(k + 1, n) - Start(k + 1) + 1
  {
  }

  /** The first request `(1, min(5, n))` is window 0. */
  lemma FirstWindow(n: u16)
    requires n >= 1
    ensures IsWindow(Range(1, Min(INITIAL_WINDOW, n)), 0, n)
  {
  }
}
