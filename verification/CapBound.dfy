// How far concurrent callers can overshoot the tracker cap, and the accuracy of the counter.
module CapBound {
  import opened Interleaving
  import opened Settings
  import opened SlidingWindow

  // The number of live trackers over all shards.
  ghost function Total(shards: seq<map<Key, Id>>): nat {
    if shards == [] then 0 else Total(shards[..|shards| - 1]) + |shards[|shards| - 1]|
  }

  lemma {:induction false} TotalUpdate(shards: seq<map<Key, Id>>, b: nat, m: map<Key, Id>)
    requires b < |shards|
    ensures Total(shards[b := m]) == Total(shards) - |shards[b]| + |m|
  {
    var n := |shards| - 1;
    if b == n {
      assert shards[b := m][..n] == shards[..n];
    } else {
      assert shards[b := m][..n] == shards[..n][b := m];
      TotalUpdate(shards[..n], b, m);
    }
  }

  ghost function Those(threads: map<Tid, Pc>, f: Pc -> bool): set<Tid> {
    set t | t in threads && f(threads[t])
  }

  predicate IsCounting(pc: Pc) { pc.Counting? }

  predicate IsCreating(pc: Pc) { pc.Creating? }

  lemma ThoseUpdate(threads: map<Tid, Pc>, f: Pc -> bool, t: Tid, pc: Pc)
    requires t in threads
    ensures |Those(threads[t := pc], f)|
         == |Those(threads, f)| - (if f(threads[t]) then 1 else 0) + (if f(pc) then 1 else 0)
  {
    var before, after := Those(threads, f), Those(threads[t := pc], f);
    var rest := before - {t};
    assert before == if f(threads[t]) then rest + {t} else rest;
    assert after == if f(pc) then rest + {t} else rest;
  }

  // The counter is exact up to the goroutines between a map update and its counter update.
  ghost predicate Counted(s: Sys) {
    s.trackerCount
      == Total(s.shards) - |Those(s.threads, IsCounting)| + (if s.rotator.Uncounting? then 1 else 0)
  }

  // The shards that some metric routes to.
  ghost function UsedShards(env: Env): set<nat> {
    set b | b in Below(NUM_SHARDS) && exists metric :: Bucket(env, metric) == b
  }

  // One less than the goroutines that can be past the check at once.
  ghost function Slack(env: Env, goroutines: nat): nat {
    var shards := |UsedShards(env)|;
    if goroutines == 0 || shards == 0 then 0 else if goroutines < shards then goroutines - 1 else shards - 1
  }

  // Live trackers, with those already admitted, exceed the cap by less than the number of
  // goroutines that can be past the check at once.
  ghost predicate Capped(env: Env, cfg: Config, s: Sys) {
    cfg.maxTrackers > 0 ==>
      Total(s.shards) + |Those(s.threads, IsCreating)| <= cfg.maxTrackers + Slack(env, |s.threads|)
  }

  ghost function Below(n: nat): (bs: set<nat>)
    ensures forall b: nat :: b in bs <==> b < n
    ensures |bs| == n
  {
    if n == 0 then {} else Below(n - 1) + {n - 1}
  }

  lemma IsUsed(env: Env, metric: string)
    ensures Bucket(env, metric) in UsedShards(env)
  {
    hide Bucket;
  }

  lemma UsedShardsSize(env: Env)
    ensures |UsedShards(env)| <= NUM_SHARDS
  {
    SubsetSize(UsedShards(env), Below(NUM_SHARDS));
    hide Bucket;
  }

  // Goroutines in their write section hold different shards, so there are at most as many of them as
  // shards in use.
  lemma WritersPerShard(env: Env, s: Sys, ts: set<Tid>)
    requires Exclusive(env, s)
    requires forall t :: t in ts ==> t in s.threads && InWriteSection(s.threads[t])
    ensures |ts| <= |UsedShards(env)| <= NUM_SHARDS
  {
    hide UsedShards, Bucket, Exclusive;
    forall t | t in ts {
      IsUsed(env, s.threads[t].r.k.metric);
    }
    DistinctBuckets(env, s, ts, UsedShards(env));
    UsedShardsSize(env);
  }

  lemma {:induction false} DistinctBuckets(env: Env, s: Sys, ts: set<Tid>, buckets: set<nat>)
    requires Exclusive(env, s)
    requires forall t :: t in ts ==>
      t in s.threads && InWriteSection(s.threads[t]) && Bucket(env, s.threads[t].r.k.metric) in buckets
    ensures |ts| <= |buckets|
    decreases |ts|
  {
    if ts != {} {
      var t :| t in ts;
      var b := Bucket(env, s.threads[t].r.k.metric);
      assert Writes(env, s.threads[t], b);
      forall u | u in ts - {t} ensures Bucket(env, s.threads[u].r.k.metric) in buckets - {b} {
        assert !Writes(env, s.threads[u], b);
      }
      DistinctBuckets(env, s, ts - {t}, buckets - {b});
    }
  }

  // A goroutine that passes the check leaves room for itself under the bound.
  lemma PassLeavesRoom(env: Env, cfg: Config, s: Sys, t: Tid)
    requires Sound(env, s) && Counted(s) && cfg.maxTrackers > 0
    requires t in s.threads && s.threads[t].Checking? && s.trackerCount < cfg.maxTrackers
    ensures Total(s.shards) + |Those(s.threads, IsCreating)| + 1 <= cfg.maxTrackers + Slack(env, |s.threads|)
  {
    hide UsedShards, Bucket, Total, Exclusive, Routed, RotatorOk, PcOk;
    var counting, creating := Those(s.threads, IsCounting), Those(s.threads, IsCreating);
    var writers := counting + creating + {t};
    WritersPerShard(env, s, writers);
    assert counting !! creating && t !in counting && t !in creating;
    assert |writers| == |counting| + |creating| + 1;
    SubsetSize(writers, s.threads.Keys);
    assert |s.threads.Keys| == |s.threads|;
  }

  lemma EnterOne(shards: seq<map<Key, Id>>, b: nat, k: Key, m: map<Key, Id>)
    requires b < |shards| && k !in shards[b] && k in m && m - {k} == shards[b]
    ensures Total(shards[b := m]) == Total(shards) + 1
  {
    TotalUpdate(shards, b, m);
    DeleteSize(m, k);
    hide Total;
  }

  // What a goroutine does to the quantities that are counted.
  lemma StepEffect(env: Env, cfg: Config, s: Sys, t: Tid)
    requires Sound(env, s) && Enabled(env, s, Step(t)) && t in s.threads
    ensures
      var s', pc := Next(env, cfg, s, Step(t)), s.threads[t];
      && t in s'.threads && s'.threads == s.threads[t := s'.threads[t]] && s'.rotator == s.rotator
      && (!pc.Creating? ==> s'.shards == s.shards)
      && s'.trackerCount == s.trackerCount + (if IsCounting(pc) then 1 else 0)
      && (IsCounting(s'.threads[t]) <==> IsCreating(pc))
      && (IsCreating(s'.threads[t]) ==>
            pc.Checking? && (cfg.maxTrackers > 0 ==> s.trackerCount < cfg.maxTrackers))
  {
    hide Exclusive, Routed, RotatorOk, PcOk, Insert, Exceeds, Bucket, NoWriter, NoReader;
  }

  lemma CreationEffect(env: Env, cfg: Config, s: Sys, t: Tid)
    requires Sound(env, s) && Enabled(env, s, Step(t)) && t in s.threads && s.threads[t].Creating?
    ensures Total(Next(env, cfg, s, Step(t)).shards) == Total(s.shards) + 1
  {
    hide Exclusive, RotatorOk, Bucket, Total;
    var s', k := Next(env, cfg, s, Step(t)), s.threads[t].r.k;
    assert PcOk(env, s, s.threads[t]);
    EnterOne(s.shards, Bucket(env, k.metric), k, s'.shards[Bucket(env, k.metric)]);
  }

  lemma CountedStep(env: Env, cfg: Config, s: Sys, t: Tid)
    requires Sound(env, s) && Counted(s) && Capped(env, cfg, s) && Enabled(env, s, Step(t)) && t in s.threads
    ensures var s' := Next(env, cfg, s, Step(t)); Counted(s') && Capped(env, cfg, s')
  {
    hide Sound, Enabled, Next, Those, Total, Slack;
    var s' := Next(env, cfg, s, Step(t));
    StepEffect(env, cfg, s, t);
    ThoseUpdate(s.threads, IsCounting, t, s'.threads[t]);
    ThoseUpdate(s.threads, IsCreating, t, s'.threads[t]);
    SameNumber(s, s', t);
    if s.threads[t].Creating? {
      CreationEffect(env, cfg, s, t);
    } else if IsCreating(s'.threads[t]) && cfg.maxTrackers > 0 {
      PassLeavesRoom(env, cfg, s, t);
    }
  }

  lemma SameNumber(s: Sys, s': Sys, t: Tid)
    requires t in s.threads && t in s'.threads && s'.threads == s.threads[t := s'.threads[t]]
    ensures |s'.threads| == |s.threads|
  {
    assert s'.threads.Keys == s.threads.Keys;
    assert |s'.threads| == |s'.threads.Keys| && |s.threads| == |s.threads.Keys|;
  }

  lemma CountedBegin(env: Env, cfg: Config, s: Sys, a: Action)
    requires Sound(env, s) && Counted(s) && Capped(env, cfg, s) && Enabled(env, s, a) && a.Begin?
    ensures var s' := Next(env, cfg, s, a); Counted(s') && Capped(env, cfg, s')
  {
    var s' := Next(env, cfg, s, a);
    ThoseUpdate(s.threads, IsCounting, a.t, s'.threads[a.t]);
    ThoseUpdate(s.threads, IsCreating, a.t, s'.threads[a.t]);
    assert s'.threads.Keys == s.threads.Keys;
    assert |s'.threads| == |s'.threads.Keys| && |s.threads| == |s.threads.Keys|;
  }

  lemma DeleteSize(m: map<Key, Id>, k: Key)
    requires k in m
    ensures |m - {k}| == |m| - 1
  {
    assert (m - {k}).Keys == m.Keys - {k};
    assert |m| == |m.Keys| && |m - {k}| == |(m - {k}).Keys|;
  }

  lemma DeleteOne(shards: seq<map<Key, Id>>, b: nat, k: Key)
    requires b < |shards| && k in shards[b]
    ensures Total(shards[b := shards[b] - {k}]) == Total(shards) - 1
  {
    hide Total;
    DeleteSize(shards[b], k);
    TotalUpdate(shards, b, shards[b] - {k});
  }

  // What a deletion does to the quantities that are counted.
  lemma DeleteEffect(env: Env, cfg: Config, s: Sys, a: Action)
    requires Sound(env, s) && Enabled(env, s, a) && a.StepRotator?
    requires s.rotator.Deleting? && s.rotator.stale != []
    ensures
      var s', b, k := Next(env, cfg, s, a), s.rotator.b, s.rotator.stale[0];
      && b < |s.shards| && k in s.shards[b] && s'.shards == s.shards[b := s.shards[b] - {k}]
      && s'.threads == s.threads && s'.trackerCount == s.trackerCount && s'.rotator.Uncounting?
  {
    hide Exclusive, PcOk, Bucket;
  }

  lemma CountedDelete(env: Env, cfg: Config, s: Sys, a: Action)
    requires Sound(env, s) && Counted(s) && Capped(env, cfg, s) && Enabled(env, s, a) && a.StepRotator?
    requires s.rotator.Deleting? && s.rotator.stale != []
    ensures var s' := Next(env, cfg, s, a); Counted(s') && Capped(env, cfg, s')
  {
    hide Sound, Enabled, Next, Those, Total, Slack;
    DeleteEffect(env, cfg, s, a);
    DeleteOne(s.shards, s.rotator.b, s.rotator.stale[0]);
  }

  lemma CountedRotator(env: Env, cfg: Config, s: Sys, a: Action)
    requires Sound(env, s) && Counted(s) && Capped(env, cfg, s) && Enabled(env, s, a)
    requires a.StartRotation? || a.StepRotator?
    ensures var s' := Next(env, cfg, s, a); Counted(s') && Capped(env, cfg, s')
  {
    hide Those, Exclusive, Routed, RotatorOk, PcOk, Total, Slack, Rotate, Bucket, NoWriter, NoReader, IsSnapshot;
    if s.rotator.Deleting? && s.rotator.stale != [] {
      hide Counted, Capped, Next;
      CountedDelete(env, cfg, s, a);
    }
  }

  lemma CountedAlways(env: Env, cfg: Config, s: Sys, a: Action)
    requires Sound(env, s) && Counted(s) && Capped(env, cfg, s) && Enabled(env, s, a)
    ensures Counted(Next(env, cfg, s, a)) && Capped(env, cfg, Next(env, cfg, s, a))
  {
    hide Counted, Capped, Next;
    match a
    case Begin(_, _, _) => CountedBegin(env, cfg, s, a);
    case Step(t) => CountedStep(env, cfg, s, t);
    case _ => CountedRotator(env, cfg, s, a);
  }

  lemma {:induction false} TotalOfEmpty(shards: seq<map<Key, Id>>)
    requires forall b :: 0 <= b < |shards| ==> shards[b] == map[]
    ensures Total(shards) == 0
  {
    if shards != [] {
      TotalOfEmpty(shards[..|shards| - 1]);
    }
  }
}
