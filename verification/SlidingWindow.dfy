// The two-epoch window of one (metric, label) tracker, as a value, and what the lazily refreshed
// estimate may and may not do to the decisions taken from it.
module SlidingWindow {
  import opened Hashing

  // What a sketch answers after a sequence of inserts. Nothing is assumed of it: every result that
  // is not about `Distinct` holds for every deterministic estimator.
  type Estimator = seq<Hash> -> nat

  const ESTIMATE_INTERVAL: nat := 64
  const STALE_SWEEP_EPOCHS: nat := 2

  datatype Window = Window(
    current: seq<Hash>,
    previous: seq<Hash>,
    cachedCurr: nat,
    cachedPrev: nat,
    insertCount: nat,
    idleEpochs: nat)

  const EMPTY_WINDOW := Window([], [], 0, 0, 0, 0)

  predicate RefreshDue(insertCount: nat) {
    insertCount <= ESTIMATE_INTERVAL || insertCount % ESTIMATE_INTERVAL == 0
  }

  function Insert(est: Estimator, w: Window, h: Hash): Window {
    var current := w.current + [h];
    var n := w.insertCount + 1;
    w.(current := current,
       insertCount := n,
       cachedCurr := if RefreshDue(n) then est(current) else w.cachedCurr)
  }

  function Rotate(w: Window): Window {
    Window([], w.current, 0, w.cachedCurr, 0, if w.insertCount == 0 then w.idleEpochs + 1 else 0)
  }

  // The decision rule on the two cached counts: more than `limit` above the previous epoch.
  predicate Exceeds(curr: nat, prev: nat, limit: nat) {
    curr > prev + limit
  }

  // ---------------------------------------------------------------------------------------------
  // The cached estimate as a function of the epoch's inserts alone.

  // How many of the first `n` inserts of an epoch the cached estimate has seen.
  function RefreshPoint(n: nat): (m: nat)
    ensures m <= n < m + ESTIMATE_INTERVAL
  {
    if n <= ESTIMATE_INTERVAL then n else n - n % ESTIMATE_INTERVAL
  }

  function LazyEstimate(est: Estimator, inserts: seq<Hash>): nat {
    if inserts == [] then 0 else est(inserts[..RefreshPoint(|inserts|)])
  }

  // The decision taken by the insert that makes `curr` the inserts of this epoch, when `prev` are
  // those of the epoch before.
  predicate Drops(est: Estimator, curr: seq<Hash>, prev: seq<Hash>, limit: nat) {
    Exceeds(LazyEstimate(est, curr), LazyEstimate(est, prev), limit)
  }

  // The estimate is up to date after each of the first 64 inserts of an epoch, and after every 64th.
  lemma FreshEstimate(est: Estimator, inserts: seq<Hash>)
    requires 0 < |inserts| <= 64 || (|inserts| > 0 && |inserts| % 64 == 0)
    ensures LazyEstimate(est, inserts) == est(inserts)
  {
    assert inserts[..|inserts|] == inserts;
  }

  // `w` is exactly the window with these inserts in this epoch and in the one before.
  ghost predicate Holds(est: Estimator, w: Window, curr: seq<Hash>, prev: seq<Hash>) {
    && w.current == curr
    && w.previous == prev
    && w.insertCount == |curr|
    && w.cachedCurr == LazyEstimate(est, curr)
    && w.cachedPrev == LazyEstimate(est, prev)
  }

  lemma InsertHolds(est: Estimator, w: Window, curr: seq<Hash>, prev: seq<Hash>, h: Hash)
    requires Holds(est, w, curr, prev)
    ensures Holds(est, Insert(est, w, h), curr + [h], prev)
  {
    var s := curr + [h];
    if RefreshDue(|s|) {
      assert s[..|s|] == s;
    } else {
      assert RefreshPoint(|s|) == RefreshPoint(|curr|);
      assert s[..RefreshPoint(|s|)] == curr[..RefreshPoint(|curr|)];
    }
  }

  lemma RotateHolds(est: Estimator, w: Window, curr: seq<Hash>, prev: seq<Hash>)
    requires Holds(est, w, curr, prev)
    ensures Holds(est, Rotate(w), [], curr)
  {
  }

  // ---------------------------------------------------------------------------------------------
  // The ideal sketch, which counts distinct hashes exactly.

  function Elements(s: seq<Hash>): set<Hash> {
    set h | h in s
  }

  function Distinct(s: seq<Hash>): nat {
    |Elements(s)|
  }

  lemma SubsetSize<T>(a: set<T>, b: set<T>)
    requires a <= b
    ensures |a| <= |b|
  {
    assert |b| == |a| + |b - a| by { assert b == a + (b - a); }
  }

  lemma {:induction false} PrefixGrowth(s: seq<Hash>, m: nat)
    requires m <= |s|
    ensures Elements(s[..m]) <= Elements(s)
    ensures Distinct(s[..m]) <= Distinct(s) <= Distinct(s[..m]) + |s| - m
    decreases |s| - m
  {
    SubsetSize(Elements(s[..m]), Elements(s));
    if m == |s| {
      assert s[..m] == s;
    } else {
      PrefixGrowth(s, m + 1);
      assert s[..m + 1] == s[..m] + [s[m]];
      assert Elements(s[..m + 1]) == Elements(s[..m]) + {s[m]};
    }
  }

  // The cached count never overstates the true one and lags it by at most 63.
  lemma LagBound(s: seq<Hash>)
    ensures LazyEstimate(Distinct, s) <= Distinct(s) <= LazyEstimate(Distinct, s) + ESTIMATE_INTERVAL - 1
  {
    if s == [] {
      assert Elements(s) == {};
    } else {
      PrefixGrowth(s, RefreshPoint(|s|));
    }
  }

  // 63 is reached: the 127th of 127 different values still reads the count of the 64th.
  lemma LagIsReached()
    ensures exists s :: Distinct(s) == LazyEstimate(Distinct, s) + ESTIMATE_INTERVAL - 1
  {
    AscendingDistinct(127);
    AscendingDistinct(64);
    AscendingPrefix(64, 127);
    assert Distinct(Ascending(127)) == LazyEstimate(Distinct, Ascending(127)) + ESTIMATE_INTERVAL - 1;
  }

  // What a drop proves about the true counts, and which true counts force one.
  lemma DropBounds(curr: seq<Hash>, prev: seq<Hash>, limit: nat)
    ensures Drops(Distinct, curr, prev, limit) ==> Distinct(curr) - Distinct(prev) > limit - 63
    ensures Distinct(curr) - Distinct(prev) > limit + 63 ==> Drops(Distinct, curr, prev, limit)
  {
    LagBound(curr);
    LagBound(prev);
  }

  // A drop needs more than limit - 63 values that the previous epoch did not have.
  lemma DropNeedsNewValues(curr: seq<Hash>, prev: seq<Hash>, limit: nat)
    requires Drops(Distinct, curr, prev, limit)
    ensures |Elements(curr) - Elements(prev)| > limit - 63
  {
    DropBounds(curr, prev, limit);
    var a, b := Elements(curr), Elements(prev);
    assert |a| == |a - b| + |a * b| by { assert a == (a - b) + (a * b); }
    SubsetSize(a * b, b);
  }

  // All of this in one: what an answer says about the inserts of the epoch and of the one before.
  ghost predicate InBounds(curr: seq<Hash>, prev: seq<Hash>, limit: nat, dropped: bool) {
    && (dropped ==>
          && Distinct(curr) - Distinct(prev) > limit - 63
          && |Elements(curr) - Elements(prev)| > limit - 63
          && |curr| >= LazyEstimate(Distinct, prev) + limit + 1)
    && (Distinct(curr) - Distinct(prev) > limit + 63 ==> dropped)
  }

  lemma DropsInBounds(curr: seq<Hash>, prev: seq<Hash>, limit: nat)
    ensures InBounds(curr, prev, limit, Drops(Distinct, curr, prev, limit))
  {
    hide Drops, Distinct, Elements, LazyEstimate;
    DropBounds(curr, prev, limit);
    if Drops(Distinct, curr, prev, limit) {
      DropNeedsNewValues(curr, prev, limit);
      EarliestDrop(curr, prev, limit);
    }
  }

  // 127 distinct hashes: the 127th insert still reads the estimate of the 64th.
  function Ascending(n: nat): (s: seq<Hash>)
    requires n <= 128
    ensures |s| == n
    ensures forall i :: 0 <= i < n ==> s[i] as int == i
  {
    if n == 0 then [] else Ascending(n - 1) + [(n - 1) as Hash]
  }

  lemma OneMoreDistinct(s: seq<Hash>, h: Hash)
    requires h !in s
    ensures Distinct(s + [h]) == Distinct(s) + 1
  {
    assert Elements(s + [h]) == Elements(s) + {h};
  }

  lemma {:induction false} AscendingDistinct(n: nat)
    requires n <= 128
    ensures Distinct(Ascending(n)) == n
  {
    if n == 0 {
      assert Elements(Ascending(0)) == {};
    } else {
      hide Distinct;
      AscendingDistinct(n - 1);
      var s, last := Ascending(n - 1), (n - 1) as Hash;
      assert last as int == n - 1;
      assert last !in s;
      OneMoreDistinct(s, last);
    }
  }

  ghost predicate NoStablePenalty(limit: nat) {
    forall curr: seq<Hash>, prev: seq<Hash> ::
      Elements(curr) <= Elements(prev) ==> !Drops(Distinct, curr, prev, limit)
  }

  // A value set that does not grow is never penalised exactly when the limit is at least 63. Below
  // that, 127 values cached as 64 and then repeated with one more insert look like growth of 63.
  lemma StableNeverPenalised(limit: nat)
    ensures NoStablePenalty(limit) <==> limit >= 63
  {
    if limit >= 63 {
      forall curr: seq<Hash>, prev: seq<Hash> | Elements(curr) <= Elements(prev)
        ensures !Drops(Distinct, curr, prev, limit)
      {
        LagBound(curr);
        LagBound(prev);
        SubsetSize(Elements(curr), Elements(prev));
      }
    } else {
      StablePenalty(limit);
    }
  }

  lemma StablePenalty(limit: nat)
    requires limit < 63
    ensures
      var prev := Ascending(127);
      Elements(prev + [prev[0]]) == Elements(prev) && Drops(Distinct, prev + [prev[0]], prev, limit)
  {
    var prev := Ascending(127);
    var curr := prev + [prev[0]];
    assert Elements(curr) == Elements(prev);
    AscendingDistinct(127);
    AscendingDistinct(64);
    AscendingPrefix(64, 127);
    assert curr[..128] == curr;
    assert LazyEstimate(Distinct, curr) == 127;
    assert LazyEstimate(Distinct, prev) == 64;
  }

  lemma {:induction false} AscendingPrefix(m: nat, n: nat)
    requires m <= n <= 128
    ensures Ascending(n)[..m] == Ascending(m)
    decreases n
  {
    if m < n {
      AscendingPrefix(m, n - 1);
      assert Ascending(n)[..m] == Ascending(n - 1)[..m];
    } else {
      assert Ascending(n)[..m] == Ascending(n);
    }
  }

  // Only counts are compared: an epoch with no more values than the one before is never penalised
  // (limit >= 63), even when every one of its values is new.
  lemma TurnoverIsInvisible(curr: seq<Hash>, prev: seq<Hash>, limit: nat)
    requires Distinct(curr) <= Distinct(prev) && limit >= 63
    ensures !Drops(Distinct, curr, prev, limit)
  {
    LagBound(curr);
    LagBound(prev);
  }

  lemma RefreshPointGrows(m: nat, n: nat)
    requires m <= n
    ensures RefreshPoint(m) <= RefreshPoint(n)
  {
    assert m / 64 <= n / 64;
    assert m == 64 * (m / 64) + m % 64 && n == 64 * (n / 64) + n % 64;
  }

  // Within an epoch the decision never goes back from drop to keep.
  lemma DropPersists(curr: seq<Hash>, more: seq<Hash>, prev: seq<Hash>, limit: nat)
    requires Drops(Distinct, curr, prev, limit)
    ensures Drops(Distinct, curr + more, prev, limit)
  {
    var s := curr + more;
    RefreshPointGrows(|curr|, |s|);
    var m, n := RefreshPoint(|curr|), RefreshPoint(|s|);
    hide RefreshPoint, Distinct;
    assert s[..n][..m] == curr[..m];
    PrefixGrowth(s[..n], m);
  }

  // No drop before insert number cachedPrev + limit + 1 of the epoch.
  lemma EarliestDrop(curr: seq<Hash>, prev: seq<Hash>, limit: nat)
    requires Drops(Distinct, curr, prev, limit)
    ensures |curr| >= LazyEstimate(Distinct, prev) + limit + 1
  {
    LagBound(curr);
    PrefixGrowth(curr, 0);
    assert Elements(curr[..0]) == {};
  }
}
