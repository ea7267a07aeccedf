/**
 The bounded retry loop `appendWithRetry`, backend/internal/ingestion/pipeline.go:198-227.
 Backend answers, cancellation and random jitter are parameters; durations are
 64-bit nanosecond counts, as `time.Duration` is.
 */
module Retry {

  const TWO62 := 0x4000_0000_0000_0000
  const TWO63 := 0x8000_0000_0000_0000
  const TWO64 := 0x1_0000_0000_0000_0000

  datatype Policy = Policy(maxAttempts: int, initial: int, max: int) {
    /** What config.go requires of a policy, with 64-bit durations. */
    predicate Valid() {
      maxAttempts > 0 && 0 < initial <= max < TWO63
    }
  }

  /** Indexed by attempt, from 1: whether Append fails, whether the context is done when it
      returns, whether the wait after it is cut short, and the random draw for that wait. */
  datatype World = World(fails: nat -> bool, done: nat -> bool, cut: nat -> bool, draw: nat -> nat)

  datatype Outcome = Stored | Dropped

  function Wrap(x: int): int {
    (x + TWO63) % TWO64 - TWO63
  }

  function Min(a: int, b: int): int { if a < b then a else b }

  function Max(a: int, b: int): int { if a > b then a else b }

  /** Go's division by two truncates towards zero. */
  function Half(x: int): int { if x >= 0 then x / 2 else -((-x) / 2) }

  function Pow2(k: nat): nat { if k == 0 then 1 else 2 * Pow2(k - 1) }

  /** The backoff after `k` waits that ran to the end, as the loop computes it. */
  function Backoff(p: Policy, k: nat): int {
    if k == 0 then p.initial else Min(Wrap(Backoff(p, k - 1) * 2), p.max)
  }

  /** The backoff the policy describes: doubling up to the maximum. */
  function Ideal(p: Policy, k: nat): int {
    Min(p.initial * Pow2(k), p.max)
  }

  /** Waits that ran to the end among the first `n`. */
  function FullWaits(world: World, n: nat): nat {
    if n == 0 then 0 else FullWaits(world, n - 1) + if world.cut(n) then 0 else 1
  }

  /** `rand.Int64N`: some value from 0 to n - 1, whatever was drawn. */
  method Int64N(draw: nat, n: int) returns (r: int)
    requires n > 0
    ensures 0 <= r < n
  {
    r := draw % n;
  }

  /** The random part of a wait: less than half of the backoff, and 0 if that half is not positive. */
  predicate IsJitter(base: int, jitter: int) { 0 <= jitter < Max(1, Half(base)) }

  /** A wait: the backoff plus a jitter, as a 64-bit sum. */
  ghost predicate WaitFits(base: int, wait: int) {
    exists jitter :: IsJitter(base, jitter) && wait == Wrap(base + jitter)
  }

  /** What becomes of a batch from attempt `a` on, and in which attempt. */
  function Outcomes(p: Policy, world: World, a: nat): (Outcome, nat)
    decreases p.maxAttempts - a
  {
    if !world.fails(a) then (Stored, a)
    else if a >= p.maxAttempts || world.done(a) then (Dropped, a)
    else Outcomes(p, world, a + 1)
  }

  /** Every attempt before the one that decides failed with the context alive. */
  lemma {:induction false} OutcomeIsFirst(p: Policy, world: World, a: nat)
    requires a <= p.maxAttempts
    ensures var (outcome, last) := Outcomes(p, world, a);
            && a <= last <= p.maxAttempts && (forall b :: a <= b < last ==> world.fails(b) && !world.done(b))
            && (outcome == Stored <==> !world.fails(last))
            && (outcome == Dropped ==> last == p.maxAttempts || world.done(last))
    decreases p.maxAttempts - a
  {
    if world.fails(a) && a < p.maxAttempts && !world.done(a) { OutcomeIsFirst(p, world, a + 1); }
  }

  /** Every wait fits the backoff that the full waits before it led to. */
  ghost predicate WaitsFit(p: Policy, world: World, waits: seq<int>) {
    waits == [] ||
    (var n := |waits| - 1;
     WaitsFit(p, world, waits[..n]) && WaitFits(Backoff(p, FullWaits(world, n)), waits[n]))
  }

  lemma WaitsGrow(p: Policy, world: World, waits: seq<int>, wait: int)
    requires WaitsFit(p, world, waits) && WaitFits(Backoff(p, FullWaits(world, |waits|)), wait)
    ensures WaitsFit(p, world, waits + [wait])
  {
    assert (waits + [wait])[..|waits|] == waits;
  }

  /** One wait of the loop. */
  method NextWait(backoff: int, draw: nat) returns (wait: int)
    ensures WaitFits(backoff, wait)
  {
    var jitter := Int64N(draw, Max(1, Half(backoff)));
    assert IsJitter(backoff, jitter);
    wait := Wrap(backoff + jitter);
  }

  method NextBackoff(p: Policy, backoff: int, ghost k: nat) returns (next: int)
    requires backoff == Backoff(p, k)
    ensures next == Backoff(p, k + 1)
  {
    next := Min(Wrap(backoff * 2), p.max);
  }

  /** The batch has exactly one outcome, after as few calls as possible: earlier calls all
      failed with the context alive, and the last one decides. */
  method AppendWithRetry(p: Policy, world: World)
    returns (outcome: Outcome, calls: nat, retries: nat, waits: seq<int>)
    requires p.Valid()
    ensures 1 <= calls <= p.maxAttempts && retries == calls - 1 == |waits|
    ensures forall a :: 1 <= a < calls ==> world.fails(a) && !world.done(a)
    ensures outcome == Stored <==> !world.fails(calls)
    ensures outcome == Dropped ==> calls == p.maxAttempts || world.done(calls)
    ensures (outcome, calls) == Outcomes(p, world, 1)
    ensures WaitsFit(p, world, waits)
  {
    OutcomeIsFirst(p, world, 1);
    var backoff := p.initial;
    var attempt := 1;
    calls, retries, waits := 0, 0, [];
    while attempt <= p.maxAttempts
      invariant 1 <= attempt <= p.maxAttempts
      invariant calls == retries == attempt - 1 == |waits|
      invariant Outcomes(p, world, attempt) == Outcomes(p, world, 1)
      invariant backoff == Backoff(p, FullWaits(world, attempt - 1))
      invariant WaitsFit(p, world, waits)
      decreases p.maxAttempts - attempt
    {
      calls := calls + 1;
      if !world.fails(attempt) {
        return Stored, calls, retries, waits;
      }
      if attempt == p.maxAttempts || world.done(attempt) {
        return Dropped, calls, retries, waits;
      }
      retries := retries + 1;
      var wait := NextWait(backoff, world.draw(attempt));
      WaitsGrow(p, world, waits, wait);
      waits := waits + [wait];
      if !world.cut(attempt) {
        backoff := NextBackoff(p, backoff, FullWaits(world, attempt - 1));
      }
      attempt := attempt + 1;
    }
    assert false;
  }

  /** A context that is done stays done, so at most the last wait is cut short. */
  lemma CutWaitIsTheLast(world: World, calls: nat, a: nat)
    requires forall b: nat :: world.cut(b) ==> world.done(b + 1)
    requires forall b :: 1 <= b < calls ==> !world.done(b)
    requires 1 <= a < calls && world.cut(a)
    ensures a == calls - 1
  {
    assert world.done(a + 1);
  }

  lemma {:induction false} Pow2Grows(p: Policy, k: nat)
    requires p.initial > 0
    ensures p.initial * Pow2(k) >= p.initial
    ensures p.initial * Pow2(k + 1) == 2 * (p.initial * Pow2(k))
  {
    assert p.initial * (2 * Pow2(k)) == 2 * (p.initial * Pow2(k));
    if k > 0 {
      Pow2Grows(p, k - 1);
    }
  }

  lemma {:induction false} IdealGrows(p: Policy, j: nat, k: nat)
    requires p.Valid() && j <= k
    ensures 0 < Ideal(p, j) <= Ideal(p, k) <= p.max
    decreases k - j
  {
    Pow2Grows(p, j);
    if j < k {
      IdealGrows(p, j + 1, k);
    }
  }

  lemma WrapDoubles(x: int)
    requires 0 < x < TWO63
    ensures Wrap(x * 2) == if x < TWO62 then 2 * x else 2 * x - TWO64
  {
  }

  lemma IdealDoubles(p: Policy, k: nat)
    requires p.Valid() && Ideal(p, k) < TWO62
    ensures Min(Wrap(Ideal(p, k) * 2), p.max) == Ideal(p, k + 1)
  {
    IdealGrows(p, k, k);
    Pow2Grows(p, k);
    WrapDoubles(Ideal(p, k));
  }

  /** The loop follows the described schedule up to wait `k` exactly when the backoff before
      it is below 2^62 ns: from there on doubling overflows to a negative wait. */
  lemma {:induction false} BackoffIsIdealIff(p: Policy, k: nat)
    requires p.Valid()
    ensures (forall j :: 0 <= j <= k ==> Backoff(p, j) == Ideal(p, j)) <==> (k == 0 || Ideal(p, k - 1) < TWO62)
  {
    if k > 0 {
      BackoffIsIdealIff(p, k - 1);
      IdealGrows(p, k - 1, k);
      if k > 1 { IdealGrows(p, k - 2, k - 1); }
      if Ideal(p, k - 1) < TWO62 {
        IdealDoubles(p, k - 1);
      } else if Backoff(p, k - 1) == Ideal(p, k - 1) {
        WrapDoubles(Ideal(p, k - 1));
        assert Backoff(p, k) < 0 < Ideal(p, k);
      }
    } else {
      assert Pow2(0) == 1;
    }
  }

  /** The longest wait after a backoff still is a 64-bit number. */
  predicate RoomForJitter(base: int) { base + Max(1, Half(base)) - 1 < TWO63 }

  lemma WrapKeeps(x: int)
    ensures -TWO63 <= x < TWO63 ==> Wrap(x) == x
    ensures TWO63 <= x < TWO64 ==> Wrap(x) < 0
  {
  }

  /** No jitter makes the wait overflow exactly when there is room for the longest one. */
  lemma WaitIsExactIff(base: int)
    requires 0 < base < TWO63
    ensures (forall jitter :: IsJitter(base, jitter) ==> Wrap(base + jitter) == base + jitter) <==> RoomForJitter(base)
  {
    if RoomForJitter(base) {
      forall jitter | IsJitter(base, jitter) ensures Wrap(base + jitter) == base + jitter {
        WrapKeeps(base + jitter);
      }
    } else {
      var longest := Max(1, Half(base)) - 1;
      assert IsJitter(base, longest);
      WrapKeeps(base + longest);
    }
  }

  lemma RoomShrinks(a: int, b: int)
    requires 0 < a <= b && RoomForJitter(b)
    ensures RoomForJitter(a)
  {
  }

  /** The waits after up to `k` full waits are the described backoff plus the jitter, and
      nothing overflows on the way. */
  ghost predicate WaitsExact(p: Policy, k: nat) {
    forall j, jitter :: 0 <= j <= k && IsJitter(Backoff(p, j), jitter) ==>
      Wrap(Backoff(p, j) + jitter) == Ideal(p, j) + jitter
  }

  /** This holds exactly when the last doubling starts below 2^62 ns and the last backoff
      leaves room for its jitter. */
  predicate Safe(p: Policy, k: nat) {
    (k == 0 || Ideal(p, k - 1) < TWO62) && RoomForJitter(Ideal(p, k))
  }

  lemma BackoffIs64Bit(p: Policy, k: nat)
    requires p.Valid()
    ensures -TWO63 <= Backoff(p, k) < TWO63
  {
  }

  /** Without jitter a wait is the backoff, so exact waits mean the described backoff. */
  lemma ExactMeansIdeal(p: Policy, k: nat, j: nat)
    requires p.Valid() && WaitsExact(p, k) && j <= k
    ensures Backoff(p, j) == Ideal(p, j)
  {
    BackoffIs64Bit(p, j);
    assert IsJitter(Backoff(p, j), 0);
    WrapKeeps(Backoff(p, j));
  }

  lemma {:induction false} WaitsExactIff(p: Policy, k: nat)
    requires p.Valid()
    ensures WaitsExact(p, k) <==> Safe(p, k)
  {
    BackoffIsIdealIff(p, k);
    if Safe(p, k) {
      forall j, jitter | 0 <= j <= k && IsJitter(Backoff(p, j), jitter)
        ensures Wrap(Backoff(p, j) + jitter) == Ideal(p, j) + jitter
      {
        IdealGrows(p, j, k);
        RoomShrinks(Ideal(p, j), Ideal(p, k));
        WaitIsExactIff(Ideal(p, j));
      }
    }
    if WaitsExact(p, k) {
      forall j | 0 <= j <= k ensures Backoff(p, j) == Ideal(p, j) {
        ExactMeansIdeal(p, k, j);
      }
      IdealGrows(p, k, k);
      WaitIsExactIff(Ideal(p, k));
    }
  }

  /** A policy whose maximum is below 2^62 ns is safe for any number of attempts. */
  lemma SmallMaximumIsSafe(p: Policy, k: nat)
    requires p.Valid() && p.max < TWO62
    ensures Safe(p, k)
  {
    IdealGrows(p, k, k);
    if k > 0 { IdealGrows(p, k - 1, k); }
  }

  lemma {:induction false} FullWaitsBounded(world: World, n: nat)
    ensures FullWaits(world, n) <= n
  {
    if n > 0 { FullWaitsBounded(world, n - 1); }
  }

  lemma SafeBefore(p: Policy, j: nat, k: nat)
    requires p.Valid() && j <= k && Safe(p, k)
    ensures Safe(p, j)
  {
    IdealGrows(p, j, k);
    RoomShrinks(Ideal(p, j), Ideal(p, k));
    if 0 < j { IdealGrows(p, j - 1, k - 1); }
  }

  lemma WaitIsBounded(base: int, wait: int)
    requires 0 < base && RoomForJitter(base) && WaitFits(base, wait)
    ensures base <= wait < TWO63 && 2 * wait <= 3 * base
  {
    var jitter :| IsJitter(base, jitter) && wait == Wrap(base + jitter);
    WrapKeeps(base + jitter);
  }

  /** Under a safe policy every wait is at least the described backoff and at most half of it
      longer. */
  lemma {:induction false} WaitsAreBounded(p: Policy, world: World, waits: seq<int>, k: nat)
    requires p.Valid() && WaitsFit(p, world, waits) && k < |waits| && Safe(p, k)
    ensures var base := Ideal(p, FullWaits(world, k));
            base <= waits[k] && 2 * waits[k] <= 3 * base && waits[k] < TWO63
  {
    if k < |waits| - 1 {
      WaitsAreBounded(p, world, waits[..|waits| - 1], k);
    } else {
      FullWaitsBounded(world, k);
      SafeBefore(p, FullWaits(world, k), k);
      BackoffIsIdealIff(p, FullWaits(world, k));
      IdealGrows(p, FullWaits(world, k), k);
      WaitIsBounded(Ideal(p, FullWaits(world, k)), waits[k]);
    }
  }

  /** The configuration check lets such a policy through: with the largest backoff a wait
      can overflow to a negative one, before the first doubling. */
  lemma LargestBackoffIsUnsafe(attempts: nat)
    requires attempts > 0
    ensures var p := Policy(attempts, TWO63 - 1, TWO63 - 1);
            p.Valid() && !Safe(p, 0) && exists wait :: WaitFits(Backoff(p, 0), wait) && wait < 0
  {
    var p := Policy(attempts, TWO63 - 1, TWO63 - 1);
    assert Pow2(0) == 1;
    var jitter := 0x2000_0000_0000_0000;
    WrapKeeps(p.initial + jitter);
    assert IsJitter(Backoff(p, 0), jitter);
    assert WaitFits(Backoff(p, 0), Wrap(p.initial + jitter));
  }
}
