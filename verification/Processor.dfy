// The processor object: 256 shards of trackers and the counters, driven sequentially.
module Processor {
  import opened Attributes
  import opened DataPoints
  import opened Enforcement
  import opened EpochRotation
  import opened Hashing
  import opened Offenders
  import opened Pipeline
  import opened PointSlices
  import Reaggregation
  import opened Registry
  import opened Settings
  import opened Trackers
  import SlidingWindow

  class TrackerShard {
    ghost const index: nat
    var trackers: map<Key, Tracker>

    constructor (ghost index: nat)
      ensures this.index == index && trackers == map[]
    {
      this.index := index;
      trackers := map[];
    }
  }

  // A metric of any type. For types other than gauges and sums only the attributes of the points
  // matter here.
  datatype Metric = Metric(name: string, metricType: MetricType, isDelta: bool, dps: NumberDataPointSlice)

  // The part of a tracker table that lives in one shard.
  ghost function Part(env: Env, table: map<Key, Tracker>, b: nat): map<Key, Tracker> {
    map k | k in table && Bucket(env, k.metric) == b :: table[k]
  }

  lemma PartAdd(env: Env, table: map<Key, Tracker>, k: Key, t: Tracker, b: nat)
    ensures Part(env, table[k := t], b)
         == if Bucket(env, k.metric) == b then Part(env, table, b)[k := t] else Part(env, table, b)
  {
  }

  lemma PartRemove(env: Env, table: map<Key, Tracker>, k: Key, b: nat)
    requires k in table
    ensures Part(env, table - {k}, b)
         == if Bucket(env, k.metric) == b then Part(env, table, b) - {k} else Part(env, table, b)
    ensures |table - {k}| == |table| - 1
  {
    assert |table| == |table.Keys|;
    assert |table - {k}| == |(table - {k}).Keys| && (table - {k}).Keys == table.Keys - {k};
  }

  class CardinalityProcessor {
    const env: Env
    const cfg: Config
    const shards: seq<TrackerShard>
    var trackerCount: int
    var trackersRejected: nat
    var rejectionWarned: bool
    var labelsStripped: nat
    var dropsThisEpoch: nat
    var dropLogCount: nat
    var topOffenders: seq<OffenderEntry>

    ghost var table: map<Key, Tracker>      // all trackers, over all shards
    ghost var live: Live                    // the window each of them holds
    ghost var rejectionWarnings: nat        // warning lines emitted this epoch
    ghost var dropWarnings: nat
    ghost var owned: set<object>            // the trackers and their sketches
    ghost var Repr: set<object>

    // Each shard holds exactly the trackers whose metric routes to it.
    ghost predicate Sharded()
      reads `table, `trackerCount, shards
    {
      && |shards| == NUM_SHARDS
      && (forall b :: 0 <= b < NUM_SHARDS ==> shards[b].index == b)
      && (forall b :: 0 <= b < NUM_SHARDS ==> shards[b].trackers == Part(env, table, b))
      && trackerCount == |table|
    }

    // Every tracker is in its own place, with sketches of its own, and holds the window of its pair.
    ghost predicate Owned()
      reads `table, `live, `owned, owned
    {
      && live.Keys == table.Keys
      && forall k :: k in table ==>
           && table[k] in owned && table[k].current in owned && table[k].previous in owned
           && table[k].key == k && table[k].Holds(live[k])
    }

    ghost predicate Valid()
      reads this, Repr
      ensures Valid() ==> this in Repr
    {
      && this in Repr && this !in owned && owned <= Repr
      && |shards| == NUM_SHARDS && (forall s :: s in shards ==> s in Repr && s !in owned)
      && Sharded() && Owned()
    }

    lemma SameKeys()
      requires Valid()
      ensures live.Keys == table.Keys
    {
    }

    lemma LiveCount()
      requires Valid()
      ensures |live| == trackerCount
    {
      hide Part, Tracker.Holds;
      assert |live| == |live.Keys| && |table| == |table.Keys|;
    }

    ghost function View(): State
      reads this
    {
      State(live, trackersRejected, rejectionWarned, rejectionWarnings,
            labelsStripped, dropsThisEpoch, dropLogCount, dropWarnings)
    }

    constructor (env: Env, cfg: Config)
      ensures Valid() && fresh(Repr)
      ensures this.env == env && this.cfg == cfg
      ensures View() == INITIAL && topOffenders == []
    {
      this.env, this.cfg := env, cfg;
      var ss: seq<TrackerShard> := [];
      while |ss| < NUM_SHARDS
        invariant |ss| <= NUM_SHARDS
        invariant forall b :: 0 <= b < |ss| ==> fresh(ss[b]) && ss[b].index == b && ss[b].trackers == map[]
      {
        var s := new TrackerShard(|ss|);
        ss := ss + [s];
      }
      shards := ss;
      trackerCount, trackersRejected, rejectionWarned := 0, 0, false;
      labelsStripped, dropsThisEpoch, dropLogCount := 0, 0, 0;
      topOffenders := [];
      table, live, rejectionWarnings, dropWarnings := map[], map[], 0, 0;
      new;
      owned := {};
      Repr := {this} + set s: object | s in shards;
    }

    function GetShard(metric: string): TrackerShard
      requires |shards| == NUM_SHARDS
    {
      shards[Bucket(env, metric)]
    }

    // Enter a new tracker into its shard.
    method Place(k: Key, t: Tracker)
      requires Sharded() && k !in table
      modifies `trackerCount, `table, shards
      ensures Sharded() && table == old(table)[k := t]
    {
      forall b { PartAdd(env, table, k, t, b); }
      assert |table[k := t]| == |table| + 1;
      hide Part, Bucket;
      var shard := GetShard(k.metric);
      shard.trackers := shard.trackers[k := t];
      trackerCount := trackerCount + 1;
      table := table[k := t];
    }

    // Enter it into the registry.
    method Adopt(k: Key, t: Tracker)
      requires Sharded() && Owned() && k !in table
      requires t.key == k && t.Holds(SlidingWindow.EMPTY_WINDOW)
      requires this !in owned && forall s :: s in shards ==> s !in owned
      modifies `trackerCount, `table, `live, `owned, shards
      ensures Sharded() && Owned() && table == old(table)[k := t]
      ensures live == old(live)[k := SlidingWindow.EMPTY_WINDOW]
      ensures owned == old(owned) + {t, t.current, t.previous}
    {
      hide Tracker.Holds, Sharded;
      Place(k, t);
      live := live[k := SlidingWindow.EMPTY_WINDOW];
      owned := owned + {t, t.current, t.previous};
    }

    // Create the tracker of a pair that has none.
    method Register(k: Key) returns (t: Tracker)
      requires Valid() && k !in table
      modifies this, shards
      ensures Valid() && fresh(Repr - old(Repr))
      ensures table == old(table)[k := t]
      ensures View() == old(View()).(live := old(live)[k := SlidingWindow.EMPTY_WINDOW])
    {
      hide Tracker.Holds, Sharded, Owned;
      t := new Tracker(k);
      Adopt(k, t);
      Repr := Repr + {t, t.current, t.previous};
    }

    // Find the tracker of a pair, or create it unless the cap is reached.
    method TrackerFor(k: Key) returns (t: Tracker?)
      requires Valid()
      modifies this, shards
      ensures Valid() && fresh(Repr - old(Repr))
      ensures t != null <==> Admits(cfg, old(live), k)
      ensures t != null ==> k in table && table[k] == t && t in Repr && t.current in Repr
      ensures View() == old(View()).(live := if t == null then old(live) else old(live)[k := WindowFor(old(live), k)])
    {
      LiveCount();
      var shard := GetShard(k.metric);
      if k in shard.trackers {
        t := shard.trackers[k];
        assert live[k := live[k]] == live;
      } else if cfg.maxTrackers > 0 && trackerCount >= cfg.maxTrackers {
        t := null;
      } else {
        t := Register(k);
      }
    }

    // Insert into the tracker of a pair, under its own lock in the source.
    method InsertInto(k: Key, t: Tracker, h: Hash) returns (curr: nat, prev: nat)
      requires Valid() && k in table && table[k] == t
      modifies `live, t, t.current
      ensures Valid() && live == old(live)[k := SlidingWindow.Insert(env.est, old(live)[k], h)]
      ensures curr == live[k].cachedCurr && prev == live[k].cachedPrev
    {
      hide Sharded;
      curr, prev := t.Insert(env.est, h, live[k]);
      live := live[k := SlidingWindow.Insert(env.est, live[k], h)];
    }

    // The cardinality decision on one attribute value.
    method ShouldDrop(metric: string, a: Attribute) returns (drop: bool)
      requires Valid()
      modifies Repr
      ensures Valid() && fresh(Repr - old(Repr))
      ensures (View(), drop) == Enforcement.ShouldDrop(env, cfg, old(View()), metric, a)
    {
      hide Sharded, Owned;
      var k := Key(metric, a.key);
      var hashVal := env.xx(AsString(a.value));
      var t := TrackerFor(k);
      if t == null {
        trackersRejected := trackersRejected + 1;
        if !rejectionWarned {
          rejectionWarned, rejectionWarnings := true, rejectionWarnings + 1;
        }
        return false;
      }
      ghost var before := live;
      var currCount, prevCount := InsertInto(k, t, hashVal);
      assert before[k := live[k]] == old(live)[k := live[k]];
      if currCount <= prevCount {
        return false;
      }
      return currCount - prevCount > Limit(cfg, metric);
    }

    predicate IsProtected(key: string) {
      key in cfg.protected
    }

    // Count one more flagged attribute; in strip mode log it, up to the cap.
    method CountFlagged(mode: Mode)
      modifies `labelsStripped, `dropsThisEpoch, `dropLogCount, `dropWarnings
      ensures View() == Record(cfg, old(View()), mode)
    {
      labelsStripped := labelsStripped + 1;
      if mode == StripAndReaggregate {
        dropsThisEpoch := dropsThisEpoch + 1;
        var warn := cfg.dropLogMax == 0;
        if !warn {
          dropLogCount := dropLogCount + 1;
          warn := dropLogCount <= cfg.dropLogMax;
        }
        if warn {
          dropWarnings := dropWarnings + 1;
        }
      }
    }

    // One turn of the RemoveIf callback: is the attribute flagged?
    method Flag(metric: string, a: Attribute, mode: Mode) returns (flagged: bool)
      requires Valid()
      modifies Repr
      ensures Valid() && fresh(Repr - old(Repr))
      ensures
        var (st, drop) := Examine(env, cfg, old(View()), metric, a);
        flagged == drop && View() == if drop then Record(cfg, st, mode) else st
    {
      hide Sharded, Owned, Record;
      if IsProtected(a.key) {
        return false;
      }
      flagged := ShouldDrop(metric, a);
      if flagged {
        CountFlagged(mode);
      }
    }

    method HandleAttributesWithMode(metric: string, dp: NumberDataPoint, mode: Mode)
      requires Valid() && dp !in Repr
      modifies Repr, dp`attrs
      ensures Valid() && fresh(Repr - old(Repr))
      ensures (View(), dp.attrs) == Enforce(env, cfg, old(View()), metric, old(dp.attrs), mode)
    {
      hide Sharded, Owned, Valid, View, Record, Examine;
      ghost var st := View();
      var attrs := dp.attrs;
      var kept: Attrs, shouldTag, overflowKeys := [], false, [];
      for i := 0 to |attrs|
        invariant Valid() && fresh(Repr - old(Repr)) && dp !in Repr && dp.attrs == attrs
        invariant Scan(View(), kept, shouldTag, overflowKeys) == ScanAll(env, cfg, st, metric, attrs[..i], mode)
      {
        assert attrs[..i + 1][..i] == attrs[..i];
        var a := attrs[i];
        var flagged := Flag(metric, a, mode);
        if !flagged {
          kept := kept + [a];
        } else {
          match mode
          case TagOnly =>
            shouldTag, kept := true, kept + [a];
          case OverflowAttribute =>
            overflowKeys, kept := overflowKeys + [a.key], kept + [a];
          case StripAndReaggregate =>
        }
      }
      assert attrs[..|attrs|] == attrs;
      dp.ApplyDeferred(kept, shouldTag, overflowKeys);
    }

    method ProcessPoint(metric: string, dps: NumberDataPointSlice, i: nat, mode: Mode)
      requires Valid() && dps.Valid() && Apart(dps) && i < |dps.items|
      modifies Repr, dps.items[i]
      ensures Valid() && fresh(Repr - old(Repr)) && Apart(dps) && dps.items == old(dps.items)
      ensures
        var (st, attrs) := Enforce(env, cfg, old(View()), metric, old(dps.View()[i]).attrs, mode);
        View() == st && dps.View() == old(dps.View())[i := old(dps.View()[i]).(attrs := attrs)]
    {
      hide Sharded, Owned, Valid, View, Enforce;
      HandleAttributesWithMode(metric, dps.items[i], mode);
    }

    // The data points are no part of the processor.
    ghost predicate Apart(dps: NumberDataPointSlice)
      reads `Repr, dps
    {
      dps !in Repr && forall dp :: dp in dps.items ==> dp !in Repr
    }

    method ProcessDataPointsWithMode(metric: string, dps: NumberDataPointSlice, mode: Mode)
      requires Valid() && dps.Valid() && Apart(dps)
      modifies Repr, dps.items
      ensures Valid() && fresh(Repr - old(Repr)) && Apart(dps) && dps.items == old(dps.items)
      ensures (View(), dps.View()) == EnforceAll(env, cfg, old(View()), metric, old(dps.View()), mode)
    {
      hide Sharded, Owned, Valid, View, Apart, Enforce, EnforceAll;
      ghost var st, ps := View(), dps.View();
      EnforceNone(env, cfg, st, metric, ps, mode);
      for i := 0 to |dps.items|
        invariant Valid() && fresh(Repr - old(Repr)) && Apart(dps) && dps.items == old(dps.items)
        invariant EnforcedTo(env, cfg, st, metric, ps, mode, i, View(), dps.View())
      {
        ghost var now := (View(), dps.View());
        ProcessPoint(metric, dps, i, mode);
        EnforceOneMore(env, cfg, st, metric, ps, mode, i, now.0, now.1);
      }
      assert ps[..|ps|] == ps && dps.View()[..|ps|] == dps.View();
    }

    // ---------------------------------------------------------------------------------------------
    // Rotation.

    // The entries are trackers of the table, no pair twice.
    ghost predicate Listed(entries: seq<TrackerEntry>)
      reads `table, `live, `owned
    {
      && (forall j :: 0 <= j < |entries| ==>
            entries[j].key in table && table[entries[j].key] == entries[j].t && entries[j].t in owned && entries[j].key in live)
      && NoDuplicates(KeysOf(entries))
    }

    // Copy the entries of a shard, in whatever order the map yields them.
    method Snapshot(b: nat) returns (entries: seq<TrackerEntry>)
      requires Valid() && b < NUM_SHARDS
      ensures Listed(entries) && KeySet(KeysOf(entries)) == KeysIn(env, live, b)
    {
      hide Tracker.Holds;
      var trackers := shards[b].trackers;
      assert trackers == Part(env, table, b);
      assert trackers.Keys == KeysIn(env, live, b);
      var rest := trackers.Keys;
      entries := [];
      while rest != {}
        invariant rest <= trackers.Keys
        invariant Listed(entries) && KeySet(KeysOf(entries)) == trackers.Keys - rest
      {
        var k :| k in rest;
        ghost var before := entries;
        entries := entries + [TrackerEntry(k, trackers[k])];
        assert KeysOf(entries) == KeysOf(before) + [k];
        KeySetSnoc(KeysOf(before), k);
        assert k !in KeySet(KeysOf(before));
        rest := rest - {k};
      }
    }

    // One turn of the scan: read the cached counts under the tracker's lock, offer a positive delta.
    method OfferTracker(e: TrackerEntry, topBuf: seq<OffenderEntry>, topN: nat,
                        ghost w: SlidingWindow.Window, ghost all: multiset<OffenderEntry>)
      returns (buf: seq<OffenderEntry>)
      requires e.t.Holds(w) && topN > 0 && IsTop(topBuf, all, topN)
      ensures IsTop(buf, all + (if Growing(w) then multiset{Offence(e.key, w)} else multiset{}), topN)
    {
      hide IsTop;
      var curr, prev := e.t.cachedCurr, e.t.cachedPrev;
      if curr <= prev {
        assert all + multiset{} == all;
        return topBuf;
      }
      buf := Offer(topBuf, topN, OffenderEntry(e.key.metric, e.key.attr, curr - prev), all);
    }

    // Fold the positive deltas of the entries into the bounded list of top offenders.
    method CollectShardDeltas(entries: seq<TrackerEntry>, topBuf: seq<OffenderEntry>, topN: nat,
                              ghost all: multiset<OffenderEntry>)
      returns (buf: seq<OffenderEntry>)
      requires Owned() && Listed(entries)
      requires topN > 0 ==> IsTop(topBuf, all, topN)
      ensures if topN > 0 then IsTop(buf, all + multiset(GrowthOf(live, KeysOf(entries))), topN) else buf == topBuf
    {
      hide IsTop, Tracker.Holds;
      buf := topBuf;
      if topN == 0 {
        return;
      }
      ghost var ks := KeysOf(entries);
      assert all + multiset(GrowthOf(live, ks[..0])) == all;
      hide GrowthOf;
      for i := 0 to |entries|
        invariant IsTop(buf, all + multiset(GrowthOf(live, ks[..i])), topN)
      {
        GrowthOfSnoc(live, ks, i, all);
        buf := OfferTracker(entries[i], buf, topN, live[ks[i]], all + multiset(GrowthOf(live, ks[..i])));
      }
      assert ks[..|ks|] == ks;
    }

    // Rotate one tracker under its own lock; `next` comes from the pool.
    method RotateTracker(k: Key, t: Tracker, next: Sketch) returns (stale: bool)
      requires Owned() && k in table && table[k] == t
      requires next !in owned && next.inserted == [] && next.owner == null
      modifies `live, `owned, t, next
      ensures Owned() && owned == old(owned) + {next}
      ensures live == old(live)[k := SlidingWindow.Rotate(old(live)[k])]
      ensures stale <==> live[k].idleEpochs >= SlidingWindow.STALE_SWEEP_EPOCHS
    {
      hide Tracker.Holds;
      var idle := t.Rotate(next, live[k]);
      owned := owned + {next};
      live := live[k := SlidingWindow.Rotate(live[k])];
      return idle && t.idleEpochs >= SlidingWindow.STALE_SWEEP_EPOCHS;
    }

    // Rotate the listed trackers and collect those that are due for eviction.
    method RotateTrackers(entries: seq<TrackerEntry>) returns (staleKeys: seq<Key>)
      requires Valid() && Listed(entries)
      modifies `live, `owned, `Repr, owned
      ensures Valid() && fresh(Repr - old(Repr)) && fresh(owned - old(owned))
      ensures live == RotateKeys(old(live), KeySet(KeysOf(entries)))
      ensures NoDuplicates(staleKeys)
      ensures KeySet(staleKeys) == Stale(old(live), KeySet(KeysOf(entries)))
    {
      hide Sharded, Owned, Stale;
      ghost var ks := KeysOf(entries);
      staleKeys := [];
      assert KeySet(ks[..0]) == {};
      assert RotateKeys(live, {}) == live && Stale(live, {}) == {} by {
        NothingRotated(live);
      }
      hide RotateKeys;
      for i := 0 to |entries|
        invariant Valid() && fresh(Repr - old(Repr)) && fresh(owned - old(owned))
        invariant live == RotateKeys(old(live), KeySet(ks[..i]))
        invariant NoDuplicates(staleKeys)
        invariant KeySet(staleKeys) == Stale(old(live), KeySet(ks[..i]))
      {
        var k := entries[i].key;
        var next := new Sketch();
        var stale := RotateTracker(k, entries[i].t, next);
        Repr := Repr + {next};
        RotateOneMore(old(live), ks, i);
        if stale {
          KeySetSnoc(staleKeys, k);
          assert k !in KeySet(staleKeys);
          staleKeys := staleKeys + [k];
        }
      }
      assert ks[..|ks|] == ks;
    }

    // Take a tracker out of its shard ...
    method Remove(shard: TrackerShard, k: Key)
      requires Sharded() && k in table && shard == shards[Bucket(env, k.metric)]
      modifies `trackerCount, `table, shard
      ensures Sharded() && table == old(table) - {k}
    {
      forall b { PartRemove(env, table, k, b); }
      hide Part, Bucket;
      shard.trackers := shard.trackers - {k};
      trackerCount := trackerCount - 1;
      table := table - {k};
    }

    // ... and out of the registry.
    method EvictOne(shard: TrackerShard, k: Key)
      requires Sharded() && Owned() && k in table
      requires shard == shards[Bucket(env, k.metric)] && shard !in owned && this !in owned
      modifies `trackerCount, `table, `live, shard
      ensures Sharded() && Owned()
      ensures table == old(table) - {k} && live == old(live) - {k}
    {
      hide Sharded, Bucket, Tracker.Holds;
      Remove(shard, k);
      live := live - {k};
    }

    // Delete stale trackers under the write lock of their shard.
    method Evict(b: nat, staleKeys: seq<Key>)
      requires Valid() && b < NUM_SHARDS && NoDuplicates(staleKeys)
      requires forall k :: k in staleKeys ==> k in live && Bucket(env, k.metric) == b
      modifies `trackerCount, `table, `live, shards[b]
      ensures Valid() && live == old(live) - KeySet(staleKeys)
    {
      hide Owned, Sharded, Bucket, KeySet, NoDuplicates;
      var shard := shards[b];
      SameKeys();
      DeleteNone(live, staleKeys);
      DeleteNone(table, staleKeys);
      for i := 0 to |staleKeys|
        invariant Valid()
        invariant live == old(live) - KeySet(staleKeys[..i]) && table == old(table) - KeySet(staleKeys[..i])
      {
        DeleteOneMore(old(live), staleKeys, i);
        DeleteOneMore(old(table), staleKeys, i);
        EvictOne(shard, staleKeys[i]);
      }
      assert staleKeys[..|staleKeys|] == staleKeys;
    }

    // First half of a shard's rotation: snapshot its trackers and collect their deltas. The shards
    // before it have been rotated already, starting from the registry `was`.
    method CollectShard(b: nat, topBuf: seq<OffenderEntry>, ghost was: Live)
      returns (entries: seq<TrackerEntry>, buf: seq<OffenderEntry>)
      requires Valid() && b < NUM_SHARDS && live == RotateBuckets(env, was, b)
      requires cfg.topOffenders > 0 ==> IsTop(topBuf, multiset(Growth(was, KeysBelow(env, was, b))), cfg.topOffenders)
      ensures Listed(entries) && KeySet(KeysOf(entries)) == KeysIn(env, live, b)
      ensures if cfg.topOffenders > 0
        then IsTop(buf, multiset(Growth(was, KeysBelow(env, was, b + 1))), cfg.topOffenders)
        else buf == topBuf
    {
      hide Sharded, RotateBuckets, Growth, GrowthOf, KeysBelow, IsTop, Bucket;
      entries := Snapshot(b);
      buf := CollectShardDeltas(entries, topBuf, cfg.topOffenders, multiset(Growth(was, KeysBelow(env, was, b))));
      GrowthOfList(live, KeysOf(entries));
      GrowthOfNextBucket(env, was, b, live);
    }

    // Second half: rotate each tracker and sweep the stale ones.
    method SweepShard(b: nat, entries: seq<TrackerEntry>, ghost was: Live)
      requires Valid() && b < NUM_SHARDS && live == RotateBuckets(env, was, b)
      requires Listed(entries) && KeySet(KeysOf(entries)) == KeysIn(env, live, b)
      modifies `live, `owned, `Repr, `table, `trackerCount, owned, shards[b]
      ensures Valid() && fresh(Repr - old(Repr)) && fresh(owned - old(owned))
      ensures live == RotateBuckets(env, was, b + 1)
    {
      hide Sharded, Owned, RotateBuckets, RotateKeys, Stale, KeysIn, Bucket;
      var staleKeys := RotateTrackers(entries);
      NextBucket(env, was, b);
      StaleInBucket(env, old(live), b, staleKeys);
      if |staleKeys| > 0 {
        Evict(b, staleKeys);
      } else {
        assert live - KeySet(staleKeys) == live;
      }
    }

    method RotateShard(b: nat, topBuf: seq<OffenderEntry>, ghost was: Live) returns (buf: seq<OffenderEntry>)
      requires Valid() && b < NUM_SHARDS && live == RotateBuckets(env, was, b)
      requires cfg.topOffenders > 0 ==> IsTop(topBuf, multiset(Growth(was, KeysBelow(env, was, b))), cfg.topOffenders)
      modifies `live, `owned, `Repr, `table, `trackerCount, owned, shards[b]
      ensures Valid() && fresh(Repr - old(Repr)) && fresh(owned - old(owned))
      ensures live == RotateBuckets(env, was, b + 1)
      ensures if cfg.topOffenders > 0
        then IsTop(buf, multiset(Growth(was, KeysBelow(env, was, b + 1))), cfg.topOffenders)
        else buf == topBuf
    {
      hide Sharded, Owned, RotateBuckets, Growth, KeysBelow, KeysIn, IsTop, Listed;
      var entries;
      entries, buf := CollectShard(b, topBuf, was);
      SweepShard(b, entries, was);
    }

    // Sort the list and publish it; an empty one leaves the last snapshot in place.
    method PublishTopOffenders(topBuf: seq<OffenderEntry>)
      modifies `topOffenders
      ensures topBuf == [] ==> topOffenders == old(topOffenders)
      ensures topBuf != [] ==> Descending(topOffenders) && multiset(topOffenders) == multiset(topBuf)
    {
      if |topBuf| == 0 {
        return;
      }
      var buf := new OffenderEntry[|topBuf|](i requires 0 <= i < |topBuf| => topBuf[i]);
      assert buf[..] == topBuf;
      SortOffenders(buf);
      topOffenders := buf[..];
    }

    // The walk over the shards.
    method RotateShards() returns (topBuf: seq<OffenderEntry>)
      requires Valid()
      modifies `live, `owned, `Repr, `table, `trackerCount, owned, shards
      ensures Valid() && fresh(Repr - old(Repr))
      ensures live == RotateBuckets(env, old(live), NUM_SHARDS)
      ensures if cfg.topOffenders > 0
        then IsTop(topBuf, multiset(Growth(old(live), KeysBelow(env, old(live), NUM_SHARDS))), cfg.topOffenders)
        else topBuf == []
    {
      hide Sharded, Owned, RotateBuckets, Growth, KeysBelow, IsTop;
      topBuf := [];
      RotationStarts(env, live, cfg.topOffenders);
      for b := 0 to NUM_SHARDS
        invariant Valid() && fresh(Repr - old(Repr)) && fresh(owned - old(owned))
        invariant live == RotateBuckets(env, old(live), b)
        invariant if cfg.topOffenders > 0
          then IsTop(topBuf, multiset(Growth(old(live), KeysBelow(env, old(live), b))), cfg.topOffenders)
          else topBuf == []
      {
        topBuf := RotateShard(b, topBuf, old(live));
      }
    }

    method ResetEpochCounters()
      modifies `rejectionWarned, `dropsThisEpoch, `dropLogCount, `rejectionWarnings, `dropWarnings
      ensures View() == old(View()).(rejectionWarned := false, rejectionWarnings := 0,
                                     dropsThisEpoch := 0, dropLogCount := 0, dropWarnings := 0)
    {
      rejectionWarned := false;
      dropsThisEpoch := 0;
      dropLogCount := 0;
      rejectionWarnings, dropWarnings := 0, 0;
    }

    // Advance the window of every tracker by one epoch.
    method Rotate()
      requires Valid()
      modifies Repr
      ensures Valid() && fresh(Repr - old(Repr))
      ensures View() == RotateState(old(View()))
      ensures
        var growth, n := AllGrowth(old(live)), cfg.topOffenders;
        if n > 0 && growth != {}
        then Descending(topOffenders) && IsTop(topOffenders, multiset(growth), n)
        else topOffenders == old(topOffenders)
    {
      hide Sharded, Owned, RotateBuckets, RotateAll, AllGrowth, Growth, KeysBelow, IsTop, Descending;
      var topBuf := RotateShards();
      RotationEnds(env, old(live), cfg.topOffenders, topBuf);
      ResetEpochCounters();
      PublishTopOffenders(topBuf);
    }

    // `reaggregateNumberDataPoints` on the data points of a metric.
    method ReaggregatePoints(dps: NumberDataPointSlice, rule: Rule)
      requires Valid() && dps.Valid() && Apart(dps)
      modifies dps, dps.items
      ensures Valid() && dps.Valid() && View() == old(View())
      ensures dps.View() == Reaggregation.GroupBy(rule, AttrHash(env.xx), old(dps.View()))
    {
      hide Sharded, Owned, Valid, View;
      dps.Reaggregate(rule, env.xx);
    }

    method ProcessMetric(m: Metric, floats: Floats)
      requires Valid() && m.dps.Valid() && Apart(m.dps)
      modifies Repr, m.dps, m.dps.items
      ensures Valid() && fresh(Repr - old(Repr)) && m.dps.Valid()
      ensures (View(), m.dps.View())
           == Process(env, cfg, floats, old(View()), m.name, m.metricType, m.isDelta, old(m.dps.View()))
    {
      hide Sharded, Owned, Valid, View, Apart, EnforceAll, Reaggregation.GroupBy, AttrHash;
      match m.metricType
      case Gauge =>
        ProcessDataPointsWithMode(m.name, m.dps, cfg.mode);
        if cfg.mode == StripAndReaggregate {
          ReaggregatePoints(m.dps, Rule(floats, Gauge, false));
        }
      case Sum =>
        if cfg.mode == StripAndReaggregate && !m.isDelta {
          ProcessDataPointsWithMode(m.name, m.dps, TagOnly);
        } else {
          ProcessDataPointsWithMode(m.name, m.dps, cfg.mode);
          if cfg.mode == StripAndReaggregate && m.isDelta {
            ReaggregatePoints(m.dps, Rule(floats, Sum, true));
          }
        }
      case _ =>
        if cfg.mode == StripAndReaggregate {
          ProcessDataPointsWithMode(m.name, m.dps, TagOnly);
        } else {
          ProcessDataPointsWithMode(m.name, m.dps, cfg.mode);
        }
    }
  }

  datatype TrackerEntry = TrackerEntry(key: Key, t: Tracker)

  ghost function KeysOf(entries: seq<TrackerEntry>): (ks: seq<Key>)
    ensures |ks| == |entries|
  {
    seq(|entries|, i requires 0 <= i < |entries| => entries[i].key)
  }

  // `now` are the points with the first `i` enforced, `at` the processor then.
  ghost predicate EnforcedTo(env: Env, cfg: Config, st: State, metric: string, ps: seq<Point>, mode: Mode,
                             i: nat, at: State, now: seq<Point>) {
    && i <= |ps| == |now|
    && (at, now[..i]) == EnforceAll(env, cfg, st, metric, ps[..i], mode)
    && now[i..] == ps[i..]
  }

  lemma EnforceNone(env: Env, cfg: Config, st: State, metric: string, ps: seq<Point>, mode: Mode)
    ensures EnforcedTo(env, cfg, st, metric, ps, mode, 0, st, ps)
  {
  }

  lemma EnforceOneMore(env: Env, cfg: Config, st: State, metric: string, ps: seq<Point>, mode: Mode,
                       i: nat, at: State, now: seq<Point>)
    requires EnforcedTo(env, cfg, st, metric, ps, mode, i, at, now) && i < |ps|
    ensures now[i] == ps[i]
    ensures
      var (at', attrs) := Enforce(env, cfg, at, metric, ps[i].attrs, mode);
      EnforcedTo(env, cfg, st, metric, ps, mode, i + 1, at', now[i := ps[i].(attrs := attrs)])
  {
    hide Enforce;
    assert now[i] == now[i..][0] == ps[i..][0] == ps[i];
    assert ps[..i + 1][..i] == ps[..i];
    var p := ps[i].(attrs := Enforce(env, cfg, at, metric, ps[i].attrs, mode).1);
    assert now[i := p][..i + 1] == now[..i] + [p];
    assert now[i := p][i + 1..] == now[i..][1..] == ps[i..][1..] == ps[i + 1..];
  }
}
