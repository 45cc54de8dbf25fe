// SamplingInterval: one atomic counter shared by every caller of sample and by a background task
// that loads it and, in a separate step, stores zero.
module Sampling {
  const U64_MAX: nat := 0xFFFF_FFFF_FFFF_FFFF
  const WRAP: nat := 0x1_0000_0000_0000_0000

  // The shared memory, the background task's position between its load and its store, and what has
  // happened so far.
  datatype Sampler = Sampler(
    timed: bool,            // whether the duration is nonzero
    afterNumOps: nat,
    counter: nat,
    storing: bool,          // the load found the counter above the threshold
    results: seq<bool>,     // what sample returned, in the order of the atomic increments
    resets: nat,            // stores of zero
    wraps: nat)             // increments of the largest counter value

  // Each is one atomic access; any thread may take the next one.
  datatype Access = Call | Load | Store

  // Without a duration the source adds one to the threshold, which must not overflow.
  predicate Allowed(timed: bool, afterNumOps: nat) {
    afterNumOps <= U64_MAX && (timed || afterNumOps < U64_MAX)
  }

  predicate WellFormed(s: Sampler) {
    s.counter <= U64_MAX && Allowed(s.timed, s.afterNumOps)
  }

  function FetchAdd(counter: nat): nat {
    (counter + 1) % WRAP
  }

  function Sampled(timed: bool, afterNumOps: nat, counter: nat): bool {
    if timed then counter == 0 else counter % (afterNumOps + 1) == 0
  }

  predicate Enabled(s: Sampler, a: Access) {
    match a
    case Call => true
    case Load => s.timed && !s.storing
    case Store => s.timed && s.storing
  }

  function Next(s: Sampler, a: Access): Sampler {
    match a
    case Call =>
      s.(counter := FetchAdd(s.counter),
         results := s.results + [Sampled(s.timed, s.afterNumOps, s.counter)],
         wraps := s.wraps + if s.counter == U64_MAX then 1 else 0)
    case Load => s.(storing := s.counter > s.afterNumOps)
    case Store => s.(counter := 0, storing := false, resets := s.resets + 1)
  }

  function Start(timed: bool, afterNumOps: nat): Sampler {
    Sampler(timed, afterNumOps, 1, false, [], 0, 0)
  }

  // The object itself.
  class SamplingInterval {
    const timed: bool
    const afterNumOps: nat
    var counter: nat
    var storing: bool
    ghost var results: seq<bool>
    ghost var resets: nat
    ghost var wraps: nat

    ghost function State(): Sampler
      reads this
    {
      Sampler(timed, afterNumOps, counter, storing, results, resets, wraps)
    }

    constructor (timed: bool, afterNumOps: nat)
      requires Allowed(timed, afterNumOps)
      ensures State() == Start(timed, afterNumOps) && WellFormed(State())
    {
      this.timed := timed;
      this.afterNumOps := afterNumOps;
      counter := 1;
      storing := false;
      results, resets, wraps := [], 0, 0;
    }

    method Sample() returns (r: bool)
      requires WellFormed(State())
      modifies this
      ensures WellFormed(State()) && State() == Next(old(State()), Call)
      ensures results == old(results) + [r]
      ensures counter == if old(counter) == 18446744073709551615 then 0 else old(counter) + 1
      ensures timed ==> (r <==> old(counter) == 0)
      ensures !timed ==> (r <==> old(counter) % (afterNumOps + 1) == 0)
    {
      var previous := counter;
      counter := if counter == U64_MAX then 0 else counter + 1;
      if timed {
        r := previous == 0;
      } else {
        r := previous % (afterNumOps + 1) == 0;
      }
      results := results + [r];
      wraps := wraps + if previous == U64_MAX then 1 else 0;
    }

    // The background task's look at the counter.
    method BackgroundLoad()
      requires WellFormed(State()) && Enabled(State(), Load)
      modifies this
      ensures WellFormed(State()) && State() == Next(old(State()), Load)
      ensures counter == old(counter) && (Enabled(State(), Store) <==> counter > afterNumOps)
    {
      storing := counter > afterNumOps;
    }

    // Its reset, some time after the look.
    method BackgroundStore()
      requires WellFormed(State()) && Enabled(State(), Store)
      modifies this
      ensures WellFormed(State()) && State() == Next(old(State()), Store)
      ensures counter == 0 && Enabled(State(), Load)
    {
      counter := 0;
      storing := false;
      resets := resets + 1;
    }
  }

  // ----- Runs -----

  // Any sequence of accesses that the threads can take.
  predicate IsRun(s: Sampler, run: seq<Access>)
    decreases |run|
  {
    run != [] ==> Enabled(s, run[0]) && IsRun(Next(s, run[0]), run[1..])
  }

  function After(s: Sampler, run: seq<Access>): Sampler
    decreases |run|
  {
    if run == [] then s else After(Next(s, run[0]), run[1..])
  }

  function Trues(r: seq<bool>): nat {
    if r == [] then 0 else Trues(r[..|r| - 1]) + if r[|r| - 1] then 1 else 0
  }

  // The calls since the last sampled one, or since the start.
  function Gap(r: seq<bool>): nat {
    if r == [] || r[|r| - 1] then 0 else Gap(r[..|r| - 1]) + 1
  }

  // Every sampled call has at least n unsampled ones right before it.
  predicate Spaced(r: seq<bool>, n: nat) {
    forall i :: 0 <= i < |r| && r[i] ==> i >= n && forall j :: i - n <= j < i ==> !r[j]
  }

  // ----- Timed mode -----

  // A store is stale when the counter has meanwhile wrapped and been sampled, and has not since
  // counted past the threshold again.
  predicate Stale(s: Sampler, a: Access) {
    a.Store? && 0 < s.counter <= s.afterNumOps
  }

  predicate NoStaleStore(s: Sampler, run: seq<Access>)
    decreases |run|
  {
    run != [] ==> !Stale(s, run[0]) && NoStaleStore(Next(s, run[0]), run[1..])
  }

  // What holds as long as no store has been stale. A counter that is at or below the threshold while
  // a store is due counts the calls since the last sampled one.
  predicate TimedInv(s: Sampler) {
    && s.timed && WellFormed(s)
    && Spaced(s.results, s.afterNumOps)
    && (s.counter > 0 ==> s.counter - 1 <= Gap(s.results))
    && (s.counter == 0 ==> s.afterNumOps <= Gap(s.results))
    && (s.storing && 0 < s.counter <= s.afterNumOps ==> Gap(s.results) == s.counter - 1 && Gap(s.results) < |s.results|)
  }

  lemma {:induction false} GapIsUnsampled(r: seq<bool>)
    ensures Gap(r) <= |r| && forall j :: |r| - Gap(r) <= j < |r| ==> !r[j]
    ensures Gap(r) < |r| ==> r[|r| - 1 - Gap(r)]
  {
    if r != [] && !r[|r| - 1] {
      GapIsUnsampled(r[..|r| - 1]);
    }
  }

  // One more call keeps the spacing exactly if it is unsampled or comes late enough.
  lemma SpacedGrows(r: seq<bool>, b: bool, n: nat)
    requires Spaced(r, n)
    ensures b && n <= Gap(r) ==> Spaced(r + [b], n)
    ensures !b ==> Spaced(r + [b], n)
    ensures b && Gap(r) < n && Gap(r) < |r| ==> !Spaced(r + [b], n)
  {
    GapIsUnsampled(r);
    var r' := r + [b];
    if b && Gap(r) < n && Gap(r) < |r| {
      assert r'[|r|] && r'[|r| - 1 - Gap(r)];
    }
  }

  lemma GapGrows(r: seq<bool>, b: bool)
    ensures Gap(r + [b]) == if b then 0 else Gap(r) + 1
  {
    assert (r + [b])[..|r|] == r;
  }

  lemma TimedCall(s: Sampler)
    requires TimedInv(s)
    ensures TimedInv(Next(s, Call))
  {
    hide Spaced, Gap;
    var b := s.counter == 0;
    GapIsUnsampled(s.results);
    SpacedGrows(s.results, b, s.afterNumOps);
    GapGrows(s.results, b);
    CountsOn(s.counter);
    assert Next(s, Call).results == s.results + [b];
  }

  lemma CountsOn(counter: nat)
    requires counter <= U64_MAX
    ensures FetchAdd(counter) == if counter == U64_MAX then 0 else counter + 1
  {
  }

  lemma TimedStep(s: Sampler, a: Access)
    requires TimedInv(s) && Enabled(s, a) && !Stale(s, a)
    ensures TimedInv(Next(s, a))
  {
    hide Spaced, Gap;
    if a.Call? {
      TimedCall(s);
    }
  }

  lemma {:induction false} TimedRun(s: Sampler, run: seq<Access>)
    requires TimedInv(s) && IsRun(s, run) && NoStaleStore(s, run)
    ensures TimedInv(After(s, run)) && After(s, run).afterNumOps == s.afterNumOps
    decreases |run|
  {
    hide TimedInv;
    if run != [] {
      TimedStep(s, run[0]);
      TimedRun(Next(s, run[0]), run[1..]);
    }
  }

  // The next call after a store is sampled. It comes too early exactly when the store was stale.
  lemma CallAfterStore(s: Sampler)
    requires TimedInv(s) && Enabled(s, Store)
    ensures Spaced(Next(Next(s, Store), Call).results, s.afterNumOps) <==> !Stale(s, Store)
  {
    hide Spaced, Gap;
    SpacedGrows(s.results, true, s.afterNumOps);
  }

  // Whether a call right after the store at position j would keep the spacing.
  predicate SpacedAfter(s: Sampler, run: seq<Access>, j: nat)
    requires j < |run|
  {
    Spaced(After(s, run[..j + 1] + [Call]).results, s.afterNumOps)
  }

  predicate SpacedAfterStores(s: Sampler, run: seq<Access>) {
    forall j :: 0 <= j < |run| && run[j].Store? ==> SpacedAfter(s, run, j)
  }

  lemma SpacedAfterHead(s: Sampler, run: seq<Access>)
    requires run != []
    ensures SpacedAfter(s, run, 0) <==> Spaced(Next(Next(s, run[0]), Call).results, s.afterNumOps)
  {
    var start := run[..1] + [Call];
    assert start[1..] == [Call] && start[1..][1..] == [];
    assert After(Next(s, run[0]), [Call]) == Next(Next(s, run[0]), Call);
  }

  lemma SpacedAfterTail(s: Sampler, run: seq<Access>, j: nat)
    requires 0 < j < |run|
    ensures SpacedAfter(s, run, j) <==> SpacedAfter(Next(s, run[0]), run[1..], j - 1)
  {
    assert (run[..j + 1] + [Call])[1..] == run[1..][..j] + [Call];
  }

  lemma {:induction false} StaleStoresDecide(s: Sampler, run: seq<Access>)
    requires TimedInv(s) && IsRun(s, run)
    ensures NoStaleStore(s, run) <==> SpacedAfterStores(s, run)
    decreases |run|
  {
    hide TimedInv, SpacedAfter, Stale;
    if run != [] {
      var s' := Next(s, run[0]);
      SpacedAfterHead(s, run);
      forall j | 0 < j < |run| ensures SpacedAfter(s, run, j) <==> SpacedAfter(s', run[1..], j - 1) {
        SpacedAfterTail(s, run, j);
      }
      if run[0].Store? {
        CallAfterStore(s);
      }
      if !Stale(s, run[0]) {
        OnlyStoresAreStale(s, run[0]);
        TimedStep(s, run[0]);
        StaleStoresDecide(s', run[1..]);
        if SpacedAfterStores(s, run) {
          forall j | 0 <= j < |run[1..]| && run[1..][j].Store? ensures SpacedAfter(s', run[1..], j) {
            assert run[j + 1].Store?;
          }
        }
      } else {
        OnlyStoresAreStale(s, run[0]);
      }
    }
  }

  lemma OnlyStoresAreStale(s: Sampler, a: Access)
    ensures Stale(s, a) ==> a.Store?
  {
  }

  lemma StartIsTimed(n: nat)
    requires n <= U64_MAX
    ensures TimedInv(Start(true, n))
  {
  }

  // In timed mode, for every interleaving: a call right after a store keeps the spacing, after every
  // store of the run, exactly when no store is stale.
  lemma TimedSpacingIsExact(n: nat, run: seq<Access>)
    requires n <= U64_MAX && IsRun(Start(true, n), run)
    ensures NoStaleStore(Start(true, n), run) <==> SpacedAfterStores(Start(true, n), run)
  {
    StartIsTimed(n);
    StaleStoresDecide(Start(true, n), run);
  }

  // A counter that never wraps while a store is due.
  predicate NoWrapWhileStoring(s: Sampler, run: seq<Access>)
    decreases |run|
  {
    run != [] ==> !(run[0].Call? && s.storing && s.counter == U64_MAX) && NoWrapWhileStoring(Next(s, run[0]), run[1..])
  }

  // Only a wrap between a load and its store can make the store stale.
  lemma {:induction false} StaleNeedsWrap(s: Sampler, run: seq<Access>)
    requires WellFormed(s) && s.timed && IsRun(s, run) && NoWrapWhileStoring(s, run)
    requires s.storing ==> s.counter > s.afterNumOps
    ensures NoStaleStore(s, run)
    decreases |run|
  {
    if run != [] {
      CountsOn(s.counter);
      StaleNeedsWrap(Next(s, run[0]), run[1..]);
    }
  }

  lemma {:induction false} SpacedIsSparse(r: seq<bool>, n: nat)
    requires Spaced(r, n)
    ensures Trues(r) * (n + 1) <= |r|
    decreases |r|
  {
    if r != [] {
      var i := |r| - 1;
      if r[i] {
        UnsampledTail(r[..i], n);
        SpacedIsSparse(r[..i - n], n);
        assert r[..i][..i - n] == r[..i - n];
        MulStep(Trues(r[..i - n]), n + 1);
      } else {
        SpacedIsSparse(r[..i], n);
      }
    }
  }

  lemma {:induction false} UnsampledTail(r: seq<bool>, n: nat)
    requires n <= |r| && forall j :: |r| - n <= j < |r| ==> !r[j]
    ensures Trues(r) == Trues(r[..|r| - n])
  {
    if n == 0 {
      assert r[..|r|] == r;
    } else {
      var shorter := r[..|r| - 1];
      UnsampledTail(shorter, n - 1);
      assert shorter[..|shorter| - (n - 1)] == r[..|r| - n];
    }
  }

  // Without a stale store, at least n unsampled calls precede every sampled one, and m calls give at
  // most m / (n + 1) samples.
  lemma TimedSamplingIsBounded(n: nat, run: seq<Access>)
    requires n <= U64_MAX && IsRun(Start(true, n), run)
    requires NoStaleStore(Start(true, n), run)
    ensures var r := After(Start(true, n), run).results;
            Spaced(r, n) && Trues(r) <= |r| / (n + 1)
  {
    hide Spaced, Gap;
    StartIsTimed(n);
    TimedRun(Start(true, n), run);
    var r := After(Start(true, n), run).results;
    SpacedIsSparse(r, n);
    QuotientBound(Trues(r), n + 1, |r|);
  }

  // The stores that find the counter at zero already.
  function IdleStores(s: Sampler, run: seq<Access>): nat
    decreases |run|
  {
    if run == [] then 0
    else (if run[0].Store? && s.counter == 0 then 1 else 0) + IdleStores(Next(s, run[0]), run[1..])
  }

  function Pending(s: Sampler): nat {
    if s.counter == 0 then 1 else 0
  }

  // In every run whatever, each zeroing of the counter pays for one sample: the one that has followed
  // it, or one that the next call will take, or none when the counter was zero already.
  lemma {:induction false} ZeroingsPayForSamples(s: Sampler, run: seq<Access>)
    requires s.timed && WellFormed(s) && IsRun(s, run)
    ensures var s' := After(s, run);
            Trues(s'.results) + Pending(s') + IdleStores(s, run) - (s'.resets + s'.wraps)
            == Trues(s.results) + Pending(s) - (s.resets + s.wraps)
    decreases |run|
  {
    if run != [] {
      var s' := Next(s, run[0]);
      CountsOn(s.counter);
      assert run[0].Call? ==> s'.results[..|s.results|] == s.results;
      ZeroingsPayForSamples(s', run[1..]);
    }
  }

  lemma SamplesFollowZeroings(n: nat, run: seq<Access>)
    requires n <= U64_MAX && IsRun(Start(true, n), run)
    ensures var s := After(Start(true, n), run);
            && Trues(s.results) + Pending(s) + IdleStores(Start(true, n), run) == s.resets + s.wraps
            && Trues(s.results) <= s.resets + s.wraps
  {
    ZeroingsPayForSamples(Start(true, n), run);
  }

  lemma MulStep(t: nat, d: nat)
    ensures (t + 1) * d == t * d + d
  {
  }

  lemma MulOrder(a: int, b: int, d: nat)
    ensures a <= b ==> a * d <= b * d
  {
  }

  lemma QuotientBound(t: nat, d: nat, m: nat)
    requires d > 0 && t * d <= m
    ensures t <= m / d
  {
    MulOrder(m / d + 1, t, d);
    MulStep(m / d, d);
  }

  lemma {:induction false} AfterConcat(s: Sampler, a: seq<Access>, b: seq<Access>)
    ensures After(s, a + b) == After(After(s, a), b)
    decreases |a|
  {
    if a == [] {
      assert a + b == b;
    } else {
      assert (a + b)[1..] == a[1..] + b;
      AfterConcat(Next(s, a[0]), a[1..], b);
    }
  }

  function Unsampled(count: nat): (r: seq<bool>)
    ensures |r| == count && forall i :: 0 <= i < count ==> !r[i]
  {
    seq(count, _ => false)
  }

  // Calls alone count up, and none of them is sampled while the counter is not zero.
  lemma {:induction false} CountUp(s: Sampler, count: nat)
    requires s.timed && 0 < s.counter && s.counter + count <= U64_MAX
    ensures var s' := After(s, Calls(count));
            && s' == s.(counter := s.counter + count, results := s.results + Unsampled(count))
    decreases count
  {
    if count > 0 {
      CallsFrom(count);
      CountUp(Next(s, Call), count - 1);
      assert s.results + Unsampled(count) == s.results + [false] + Unsampled(count - 1);
    }
  }

  // A load that finds the counter above the threshold leads to a store, and the call after it is
  // sampled. A load that does not leads to none.
  lemma ResetLeadsToSample(s: Sampler)
    requires s.timed && !s.storing && s.counter > s.afterNumOps
    ensures IsRun(s, [Load, Store, Call])
    ensures After(s, [Load, Store, Call]).results == s.results + [true]
  {
    assert [Load, Store, Call][1..] == [Store, Call];
    assert [Store, Call][1..] == [Call];
    assert [Call][1..] == [];
    var s3 := Next(Next(Next(s, Load), Store), Call);
    assert After(s, [Load, Store, Call]) == s3;
  }

  lemma {:induction false} RunsJoin(s: Sampler, a: seq<Access>, b: seq<Access>)
    requires IsRun(s, a) && IsRun(After(s, a), b)
    ensures IsRun(s, a + b)
    decreases |a|
  {
    if a == [] {
      assert a + b == b;
    } else {
      assert (a + b)[1..] == a[1..] + b;
      RunsJoin(Next(s, a[0]), a[1..], b);
    }
  }

  // At the end of every run, once no store is due and the counter is above the threshold, the
  // background task can have the next call sampled; at or below the threshold its load does nothing.
  lemma TimedSamplingGoesOn(n: nat, run: seq<Access>)
    requires n <= U64_MAX && IsRun(Start(true, n), run)
    ensures var s := After(Start(true, n), run);
            !s.storing ==>
              && (s.counter > n <==> IsRun(Start(true, n), run + [Load, Store, Call]))
              && (s.counter > n ==> After(Start(true, n), run + [Load, Store, Call]).results == s.results + [true])
              && (s.counter <= n ==> After(Start(true, n), run + [Load]) == s)
  {
    var start := Start(true, n);
    var s := After(start, run);
    ParametersStay(start, run);
    AfterConcat(start, run, [Load, Store, Call]);
    AfterConcat(start, run, [Load]);
    assert [Load][1..] == [] && [Load, Store, Call][1..] == [Store, Call];
    assert After(s, [Load]) == Next(s, Load);
    if !s.storing {
      if s.counter > n {
        ResetLeadsToSample(s);
        RunsJoin(start, run, [Load, Store, Call]);
      } else if IsRun(start, run + [Load, Store, Call]) {
        RunsSplit(start, run, [Load, Store, Call]);
      }
    }
  }

  lemma {:induction false} ParametersStay(s: Sampler, run: seq<Access>)
    ensures After(s, run).timed == s.timed && After(s, run).afterNumOps == s.afterNumOps
    decreases |run|
  {
    if run != [] {
      ParametersStay(Next(s, run[0]), run[1..]);
    }
  }

  lemma {:induction false} RunsSplit(s: Sampler, a: seq<Access>, b: seq<Access>)
    requires IsRun(s, a + b)
    ensures IsRun(After(s, a), b)
    decreases |a|
  {
    if a == [] {
      assert a + b == b;
    } else {
      assert (a + b)[1..] == a[1..] + b;
      RunsSplit(Next(s, a[0]), a[1..], b);
    }
  }

  // The bound is met: after the start or a sampled call, n further calls and a reset, the next call is
  // sampled again.
  lemma BoundIsMet(s: Sampler)
    requires s.timed && !s.storing && s.counter == 1 && s.afterNumOps < U64_MAX
    ensures var run := Calls(s.afterNumOps) + [Load, Store, Call];
            && IsRun(s, run) && NoStaleStore(s, run)
            && After(s, run) == s.(results := s.results + Unsampled(s.afterNumOps) + [true], resets := s.resets + 1)
  {
    var n := s.afterNumOps;
    CountUp(s, n);
    var s1 := After(s, Calls(n));
    CallsAreHarmless(s, n, [Load, Store, Call]);
    AfterConcat(s, Calls(n), [Load, Store, Call]);
    assert [Load, Store, Call][1..] == [Store, Call];
    assert [Store, Call][1..] == [Call];
    assert [Call][1..] == [];
    var s2 := Next(s1, Load);
    var s3 := Next(s2, Store);
    assert After(s1, [Load, Store, Call]) == Next(s3, Call);
  }

  // Calls can always be taken, and are never stale.
  lemma {:induction false} CallsAreHarmless(s: Sampler, count: nat, rest: seq<Access>)
    ensures IsRun(s, Calls(count) + rest) <==> IsRun(After(s, Calls(count)), rest)
    ensures NoStaleStore(s, Calls(count) + rest) <==> NoStaleStore(After(s, Calls(count)), rest)
    decreases count
  {
    if count == 0 {
      assert Calls(count) + rest == rest;
    } else {
      CallsFrom(count);
      assert (Calls(count) + rest)[1..] == Calls(count - 1) + rest;
      CallsAreHarmless(Next(s, Call), count - 1, rest);
    }
  }

  // A run from the start whose one store is stale: the counter wraps between the load and the store,
  // is zeroed twice, and two of three calls in a row are sampled.
  lemma WrapBeforeStoreSamplesTwice(n: nat)
    requires 0 < n < U64_MAX
    ensures var run := Calls(U64_MAX - 1) + [Load, Call, Call, Store, Call];
            var results := After(Start(true, n), run).results;
            && IsRun(Start(true, n), run) && !NoStaleStore(Start(true, n), run)
            && |results| >= 3 && results[|results| - 3..] == [false, true, true]
            && !Spaced(results, n)
  {
    var s := After(Start(true, n), Calls(U64_MAX - 1));
    CountUp(Start(true, n), U64_MAX - 1);
    AfterConcat(Start(true, n), Calls(U64_MAX - 1), [Load, Call, Call, Store, Call]);
    CallsAreHarmless(Start(true, n), U64_MAX - 1, [Load, Call, Call, Store, Call]);
    WrapWhileStoring(s);
    var results := s.results + [false, true, true];
    assert results[|results| - 1] && results[|results| - 2];
  }

  lemma WrapWhileStoring(s: Sampler)
    requires s.timed && WellFormed(s) && s.counter == U64_MAX
    requires 0 < s.afterNumOps < U64_MAX && !s.storing
    ensures var run := [Load, Call, Call, Store, Call];
            && IsRun(s, run) && !NoStaleStore(s, run)
            && After(s, run).results == s.results + [false, true, true]
  {
    assert [Load, Call, Call, Store, Call][1..] == [Call, Call, Store, Call];
    assert [Call, Call, Store, Call][1..] == [Call, Store, Call];
    assert [Call, Store, Call][1..] == [Store, Call];
    assert [Store, Call][1..] == [Call];
    assert [Call][1..] == [];
    var s1 := Next(s, Load);
    var s4 := Next(Next(Next(Next(s1, Call), Call), Store), Call);
    assert After(s, [Load, Call, Call, Store, Call]) == s4;
  }

  // ----- Zero duration -----

  // The schedule that the counter is meant to give: the i-th call is sampled.
  predicate Scheduled(n: nat, i: nat) {
    (i + 1) % (n + 1) == 0
  }

  // What the counter does give, with its wrap-around.
  predicate Counted(n: nat, i: nat) {
    ((i + 1) % WRAP) % (n + 1) == 0
  }

  function Calls(count: nat): seq<Access> {
    seq(count, _ => Call)
  }

  lemma CallsFrom(count: nat)
    requires count > 0
    ensures Calls(count)[0] == Call && Calls(count)[1..] == Calls(count - 1)
  {
  }

  // Without a duration there is no background task: a run is a number of calls from any threads.
  lemma {:induction false} OnlyCalls(s: Sampler, run: seq<Access>)
    requires !s.timed && IsRun(s, run)
    ensures run == Calls(|run|)
    decreases |run|
  {
    if run != [] {
      OnlyCalls(Next(s, run[0]), run[1..]);
      assert run == [run[0]] + run[1..];
    }
  }

  lemma WrapStep(i: nat)
    ensures FetchAdd((i + 1) % WRAP) == (i + 2) % WRAP
  {
  }

  lemma {:induction false} UntimedRun(s: Sampler, count: nat)
    requires !s.timed && WellFormed(s) && s.counter == (|s.results| + 1) % WRAP
    requires forall i :: 0 <= i < |s.results| ==> s.results[i] == Counted(s.afterNumOps, i)
    ensures var s' := After(s, Calls(count));
            && |s'.results| == |s.results| + count
            && forall i :: 0 <= i < |s'.results| ==> s'.results[i] == Counted(s.afterNumOps, i)
    decreases count
  {
    if count > 0 {
      CallsFrom(count);
      WrapStep(|s.results|);
      UntimedRun(Next(s, Call), count - 1);
    }
  }

  lemma NextQuotient(m: nat, d: nat)
    requires d > 0
    ensures (m + 1) / d == m / d + if (m + 1) % d == 0 then 1 else 0
  {
    var q, r := m / d, m % d;
    assert m == q * d + r;
    if r + 1 == d {
      assert m + 1 == (q + 1) * d;
      QuotientIs(m + 1, d, q + 1, 0);
    } else {
      QuotientIs(m + 1, d, q, r + 1);
    }
  }

  lemma QuotientIs(m: nat, d: nat, q: nat, r: nat)
    requires r < d && m == q * d + r
    ensures m / d == q && m % d == r
  {
    MulOrder(m / d + 1, q, d);
    MulOrder(q + 1, m / d, d);
    MulStep(m / d, d);
    MulStep(q, d);
  }

  lemma {:induction false} ScheduleCounts(r: seq<bool>, n: nat)
    requires forall i :: 0 <= i < |r| ==> r[i] == Scheduled(n, i)
    ensures Trues(r) == |r| / (n + 1)
  {
    if r == [] {
      QuotientIs(0, n + 1, 0, 0);
    } else {
      ScheduleCounts(r[..|r| - 1], n);
      NextQuotient(|r| - 1, n + 1);
    }
  }

  lemma {:induction false} TruesConcat(a: seq<bool>, b: seq<bool>)
    ensures Trues(a + b) == Trues(a) + Trues(b)
    decreases |b|
  {
    if b == [] {
      assert a + b == a;
    } else {
      assert (a + b)[..|a + b| - 1] == a + b[..|b| - 1];
      TruesConcat(a, b[..|b| - 1]);
    }
  }

  predicate FollowsSchedule(r: seq<bool>, n: nat) {
    forall i :: 0 <= i < |r| ==> r[i] == Scheduled(n, i)
  }

  lemma PrefixCounts(r: seq<bool>, n: nat, m: nat)
    requires FollowsSchedule(r, n) && m <= |r|
    ensures Trues(r[..m]) == m / (n + 1)
  {
    ScheduleCounts(r[..m], n);
  }

  lemma ScheduleIsExact(r: seq<bool>, n: nat, from: nat)
    requires FollowsSchedule(r, n)
    ensures Trues(r) == |r| / (n + 1)
    ensures from + n + 1 <= |r| ==> Trues(r[from..from + n + 1]) == 1
  {
    hide FollowsSchedule, Trues;
    PrefixCounts(r, n, |r|);
    assert r[..|r|] == r;
    if from + n + 1 <= |r| {
      WindowCounts(r, n, from);
      NextCycle(from, n + 1);
    }
  }

  lemma WindowCounts(r: seq<bool>, n: nat, from: nat)
    requires FollowsSchedule(r, n) && from + n + 1 <= |r|
    ensures Trues(r[from..from + n + 1]) == (from + (n + 1)) / (n + 1) - from / (n + 1)
  {
    hide FollowsSchedule, Trues;
    var to := from + n + 1;
    PrefixCounts(r, n, from);
    PrefixCounts(r, n, to);
    assert r[..to] == r[..from] + r[from..to];
    TruesConcat(r[..from], r[from..to]);
  }

  lemma NextCycle(m: nat, d: nat)
    requires d > 0
    ensures (m + d) / d == m / d + 1
  {
    MulStep(m / d, d);
    QuotientIs(m + d, d, m / d + 1, m % d);
  }

  lemma CountedIsScheduled(n: nat, i: nat)
    requires i < U64_MAX
    ensures Counted(n, i) == Scheduled(n, i)
  {
  }

  // With zero duration, m calls below the wrap-around are sampled exactly m / (n + 1) times, and
  // every n + 1 consecutive calls exactly once.
  lemma UntimedSamplingIsExact(n: nat, run: seq<Access>, from: nat)
    requires n < U64_MAX && |run| < WRAP && IsRun(Start(false, n), run)
    ensures var r := After(Start(false, n), run).results;
            && |r| == |run| && Trues(r) == |r| / (n + 1)
            && (from + n + 1 <= |r| ==> Trues(r[from..from + n + 1]) == 1)
  {
    OnlyCalls(Start(false, n), run);
    UntimedRun(Start(false, n), |run|);
    var r := After(Start(false, n), run).results;
    forall i | 0 <= i < |r| ensures r[i] == Scheduled(n, i) {
      CountedIsScheduled(n, i);
    }
    ScheduleIsExact(r, n, from);
  }

  // What any number of calls gives with zero duration, wrap-arounds included.
  lemma UntimedCounts(n: nat, count: nat)
    requires n < U64_MAX
    ensures var r := After(Start(false, n), Calls(count)).results;
            |r| == count && forall i :: 0 <= i < |r| ==> r[i] == Counted(n, i)
  {
    UntimedRun(Start(false, n), count);
  }

  ghost predicate CountsExactly(n: nat, count: nat) {
    Trues(After(Start(false, n), Calls(count)).results) == count / (n + 1)
  }

  lemma DivisorKeepsCount(n: nat, count: nat)
    requires n < U64_MAX && WRAP % (n + 1) == 0
    ensures CountsExactly(n, count)
  {
    UntimedCounts(n, count);
    var r := After(Start(false, n), Calls(count)).results;
    forall i | 0 <= i < |r| ensures r[i] == Scheduled(n, i) {
      Cycle(WRAP, n + 1, i + 1);
    }
    ScheduleCounts(r, n);
  }

  // The call at the wrap-around is sampled whether or not its turn has come.
  lemma WrapAddsSample(n: nat)
    requires n < U64_MAX && CountsExactly(n, WRAP - 1) && CountsExactly(n, WRAP)
    ensures WRAP % (n + 1) == 0
  {
    UntimedCounts(n, WRAP - 1);
    UntimedCounts(n, WRAP);
    var shorter, longer := After(Start(false, n), Calls(WRAP - 1)).results, After(Start(false, n), Calls(WRAP)).results;
    assert longer[..WRAP - 1] == shorter;
    assert longer[WRAP - 1] by {
      assert (WRAP - 1 + 1) % WRAP == 0;
      ZeroModulo(n + 1);
    }
    NextQuotient(WRAP - 1, n + 1);
  }

  lemma ZeroModulo(d: nat)
    requires d > 0
    ensures 0 % d == 0
  {
  }

  // With zero duration the count stays exact for ever if and only if n + 1 divides 2^64.
  lemma ScheduleSurvivesWrap(n: nat)
    requires n < U64_MAX
    ensures (forall count: nat :: CountsExactly(n, count)) <==> 18446744073709551616 % (n + 1) == 0
  {
    if WRAP % (n + 1) == 0 {
      forall count: nat ensures CountsExactly(n, count) {
        DivisorKeepsCount(n, count);
      }
    } else if forall count: nat :: CountsExactly(n, count) {
      assert CountsExactly(n, WRAP - 1) && CountsExactly(n, WRAP);
      WrapAddsSample(n);
    }
  }

  lemma Cycle(w: nat, d: nat, m: nat)
    requires d > 0 && w > 0 && w % d == 0
    ensures (m % w) % d == m % d
  {
    var q, r, k := m / w, m % w, w / d;
    Associate(q, k, d);
    MultiplesVanish(r, q * k, d);
    assert m == q * w + r && w == k * d;
  }

  lemma Associate(a: nat, b: nat, c: nat)
    ensures (a * b) * c == a * (b * c)
  {
  }

  lemma MultiplesVanish(r: nat, q: nat, d: nat)
    requires d > 0
    ensures (q * d + r) % d == r % d
  {
    var x, y := r / d, r % d;
    assert r == x * d + y;
    assert q * d + r == (q + x) * d + y;
    QuotientIs(q * d + r, d, q + x, y);
  }
}
