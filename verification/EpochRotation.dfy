// One epoch rotation, shard by shard, and the growth it reports.
module EpochRotation {
  import opened Offenders
  import opened Registry
  import opened Settings
  import opened SlidingWindow

  // The registry when the first `n` shards have been rotated and swept.
  ghost function RotateBuckets(env: Env, live: Live, n: nat): Live {
    map k | k in live && (Bucket(env, k.metric) < n ==> Survives(live[k]))
      :: if Bucket(env, k.metric) < n then Rotate(live[k]) else live[k]
  }

  lemma AllBuckets(env: Env, live: Live)
    ensures RotateBuckets(env, live, 0) == live
    ensures RotateBuckets(env, live, NUM_SHARDS) == RotateAll(live)
  {
  }

  // The registry when the windows of some pairs have been rotated, before any eviction.
  ghost function RotateKeys(live: Live, ks: set<Key>): Live {
    map k | k in live :: if k in ks then Rotate(live[k]) else live[k]
  }

  ghost function Stale(live: Live, ks: set<Key>): set<Key> {
    set k | k in ks && k in live && !Survives(live[k])
  }

  // Rotating the pairs of the next shard and evicting the stale ones moves on by one shard.
  lemma NextBucket(env: Env, live: Live, b: nat)
    ensures
      var now := RotateBuckets(env, live, b);
      var ks := KeysIn(env, now, b);
      RotateKeys(now, ks) - Stale(now, ks) == RotateBuckets(env, live, b + 1)
  {
  }

  // ---------------------------------------------------------------------------------------------
  // Growth: the pairs whose cached count has risen above that of the previous epoch.

  predicate Growing(w: Window) {
    w.cachedCurr > w.cachedPrev
  }

  function Offence(k: Key, w: Window): OffenderEntry
    requires Growing(w)
  {
    OffenderEntry(k.metric, k.attr, w.cachedCurr - w.cachedPrev)
  }

  // The positive deltas of all pairs.
  ghost function AllGrowth(live: Live): set<OffenderEntry> {
    set k | k in live && Growing(live[k]) :: Offence(k, live[k])
  }

  // In every run: by how much the estimate of a pair exceeds that of the epoch before, where it does.
  lemma GrowthInRuns(est: Estimator, cfg: Config, events: seq<Event>, e: OffenderEntry)
    ensures
      var k, accepted := Key(e.metric, e.attr), Accepted(cfg, events);
      e in AllGrowth(Run(est, cfg, events)) <==>
        && Recent(accepted, k) && e.delta > 0
        && LazyEstimate(est, Epoch(accepted, k, 0)) == LazyEstimate(est, Epoch(accepted, k, 1)) + e.delta
  {
    var k, live := Key(e.metric, e.attr), Run(est, cfg, events);
    RunIsExact(est, cfg, events);
    hide Run, Accepted, Epoch, Recent, LazyEstimate;
    if k in live && Growing(live[k]) && e == Offence(k, live[k]) {
      assert e in AllGrowth(live);
    }
    if e in AllGrowth(live) {
      var k' :| k' in live && Growing(live[k']) && e == Offence(k', live[k']);
      assert k' == k;
    }
  }

  // The positive deltas of the pairs in `ks`.
  ghost function Growth(live: Live, ks: set<Key>): set<OffenderEntry> {
    set k | k in ks && k in live && Growing(live[k]) :: Offence(k, live[k])
  }

  ghost predicate Grows(live: Live, e: OffenderEntry) {
    var k := Key(e.metric, e.attr);
    k in live && Growing(live[k]) && e == Offence(k, live[k])
  }

  lemma InGrowth(live: Live, ks: set<Key>, e: OffenderEntry)
    ensures e in Growth(live, ks) <==> Key(e.metric, e.attr) in ks && Grows(live, e)
  {
    if e in Growth(live, ks) {
      var k :| k in ks && k in live && Growing(live[k]) && e == Offence(k, live[k]);
      assert k == Key(e.metric, e.attr);
    }
  }

  lemma GrowthOfUnion(live: Live, a: set<Key>, b: set<Key>)
    requires a !! b
    ensures multiset(Growth(live, a + b)) == multiset(Growth(live, a)) + multiset(Growth(live, b))
  {
    forall e: OffenderEntry
      ensures multiset(Growth(live, a + b))[e] == multiset(Growth(live, a))[e] + multiset(Growth(live, b))[e]
    {
      InGrowth(live, a, e);
      InGrowth(live, b, e);
      InGrowth(live, a + b, e);
    }
  }

  // The positive deltas of a list of pairs, in order.
  ghost function GrowthOf(live: Live, ks: seq<Key>): seq<OffenderEntry> {
    if ks == [] then [] else
    var k := ks[|ks| - 1];
    GrowthOf(live, ks[..|ks| - 1]) + if k in live && Growing(live[k]) then [Offence(k, live[k])] else []
  }

  ghost predicate NoDuplicates<T>(s: seq<T>) {
    forall i, j :: 0 <= i < j < |s| ==> s[i] != s[j]
  }

  ghost function KeySet(ks: seq<Key>): set<Key> {
    set k | k in ks
  }

  lemma KeySetSnoc(ks: seq<Key>, k: Key)
    ensures KeySet(ks + [k]) == KeySet(ks) + {k}
  {
  }

  lemma GrowthOfSnoc(live: Live, ks: seq<Key>, i: nat, all: multiset<OffenderEntry>)
    requires i < |ks| && ks[i] in live
    ensures
      var w := live[ks[i]];
      all + multiset(GrowthOf(live, ks[..i + 1]))
        == all + multiset(GrowthOf(live, ks[..i])) + if Growing(w) then multiset{Offence(ks[i], w)} else multiset{}
  {
    assert ks[..i + 1][..i] == ks[..i];
    assert GrowthOf(live, ks[..i]) + [] == GrowthOf(live, ks[..i]);
  }

  lemma NothingRotated(live: Live)
    ensures RotateKeys(live, {}) == live && Stale(live, {}) == {}
  {
  }

  // Rotating one more of the listed pairs.
  lemma RotateOneMore(live: Live, ks: seq<Key>, i: nat)
    requires i < |ks| && ks[i] in live && NoDuplicates(ks)
    ensures
      var done, k := KeySet(ks[..i]), ks[i];
      && KeySet(ks[..i + 1]) == done + {k}
      && RotateKeys(live, done)[k] == live[k]
      && RotateKeys(live, done)[k := Rotate(live[k])] == RotateKeys(live, KeySet(ks[..i + 1]))
      && Stale(live, KeySet(ks[..i + 1])) == Stale(live, done) + (if Survives(live[k]) then {} else {k})
      && k !in Stale(live, done)
  {
    hide Rotate;
    assert ks[..i + 1] == ks[..i] + [ks[i]];
    KeySetSnoc(ks[..i], ks[i]);
    assert ks[i] !in KeySet(ks[..i]);
  }

  lemma DeleteNone<T>(m: map<Key, T>, ks: seq<Key>)
    ensures m - KeySet(ks[..0]) == m
  {
  }

  // Deleting one more of the listed pairs from a map.
  lemma DeleteOneMore<T>(m: map<Key, T>, ks: seq<Key>, i: nat)
    requires i < |ks| && ks[i] in m && NoDuplicates(ks)
    ensures ks[i] in m - KeySet(ks[..i])
    ensures m - KeySet(ks[..i]) - {ks[i]} == m - KeySet(ks[..i + 1])
  {
    assert ks[..i + 1] == ks[..i] + [ks[i]];
    KeySetSnoc(ks[..i], ks[i]);
    assert ks[i] !in KeySet(ks[..i]);
  }

  // Whatever order the pairs are listed in, they add up to the same growth.
  lemma {:induction false} GrowthOfList(live: Live, ks: seq<Key>)
    requires NoDuplicates(ks)
    ensures multiset(GrowthOf(live, ks)) == multiset(Growth(live, KeySet(ks)))
  {
    if ks != [] {
      hide Growth;
      var rest, k := ks[..|ks| - 1], ks[|ks| - 1];
      GrowthOfList(live, rest);
      assert ks == rest + [k];
      assert KeySet(ks) == KeySet(rest) + {k};
      GrowthOfUnion(live, KeySet(rest), {k});
      GrowthOfOne(live, k);
    }
  }

  lemma GrowthOfOne(live: Live, k: Key)
    ensures Growth(live, {k}) == if k in live && Growing(live[k]) then {Offence(k, live[k])} else {}
  {
    forall e ensures e in Growth(live, {k}) <==> Key(e.metric, e.attr) == k && Grows(live, e) {
      InGrowth(live, {k}, e);
    }
  }

  // The pairs of the first `n` shards, and those of one shard.
  ghost function KeysBelow(env: Env, live: Live, n: nat): set<Key> {
    set k | k in live && Bucket(env, k.metric) < n
  }

  ghost function KeysIn(env: Env, live: Live, b: nat): set<Key> {
    set k | k in live && Bucket(env, k.metric) == b
  }

  // One more shard adds its own growth, read off the registry as it is when its turn comes.
  lemma GrowthOfNextBucket(env: Env, live: Live, b: nat, now: Live)
    requires now == RotateBuckets(env, live, b)
    ensures KeysIn(env, now, b) == KeysIn(env, live, b)
    ensures multiset(Growth(live, KeysBelow(env, live, b + 1)))
         == multiset(Growth(live, KeysBelow(env, live, b))) + multiset(Growth(now, KeysIn(env, now, b)))
  {
    assert KeysIn(env, now, b) == KeysIn(env, live, b);
    assert KeysBelow(env, live, b + 1) == KeysBelow(env, live, b) + KeysIn(env, live, b);
    GrowthOfUnion(live, KeysBelow(env, live, b), KeysIn(env, live, b));
    assert forall k :: k in KeysIn(env, live, b) ==> now[k] == live[k];
    assert Growth(now, KeysIn(env, now, b)) == Growth(live, KeysIn(env, live, b));
  }

  lemma StaleInBucket(env: Env, live: Live, b: nat, staleKeys: seq<Key>)
    requires KeySet(staleKeys) == Stale(live, KeysIn(env, live, b))
    ensures forall k :: k in staleKeys ==> k in RotateKeys(live, KeysIn(env, live, b)) && Bucket(env, k.metric) == b
  {
    forall k | k in staleKeys
      ensures k in RotateKeys(live, KeysIn(env, live, b)) && Bucket(env, k.metric) == b
    {
      assert k in KeySet(staleKeys);
    }
  }

  lemma RotationStarts(env: Env, live: Live, n: nat)
    ensures RotateBuckets(env, live, 0) == live
    ensures IsTop([], multiset(Growth(live, KeysBelow(env, live, 0))), n)
  {
    assert KeysBelow(env, live, 0) == {};
    assert Growth(live, {}) == {};
  }

  // After the last shard the registry is rotated and the list is a top-N of all positive deltas.
  lemma RotationEnds(env: Env, live: Live, n: nat, top: seq<OffenderEntry>)
    requires n > 0 ==> IsTop(top, multiset(Growth(live, KeysBelow(env, live, NUM_SHARDS))), n)
    requires n == 0 ==> top == []
    ensures RotateBuckets(env, live, NUM_SHARDS) == RotateAll(live)
    ensures n > 0 ==> IsTop(top, multiset(AllGrowth(live)), n)
    ensures top != [] <==> n > 0 && AllGrowth(live) != {}
    ensures forall s :: multiset(s) == multiset(top) && n > 0 ==> IsTop(s, multiset(AllGrowth(live)), n)
  {
    AllBuckets(env, live);
    assert KeysBelow(env, live, NUM_SHARDS) == live.Keys;
    assert Growth(live, live.Keys) == AllGrowth(live);
    forall s | multiset(s) == multiset(top) && n > 0 ensures IsTop(s, multiset(AllGrowth(live)), n) {
      assert |multiset(s)| == |s| && |multiset(top)| == |top|;
      forall y | y in s ensures y in top {
        assert y in multiset(s);
      }
    }
  }
}
