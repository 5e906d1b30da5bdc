// The overshoot of the tracker cap is real: as many goroutines as there are shards to meet in reach
// the bound exactly, so `max_tracker_count` is not an absolute maximum.
module CapWitness {
  import opened CapBound
  import opened ConcurrentRuns
  import opened Hashing
  import opened Interleaving
  import opened Settings
  import opened SlidingWindow
  import opened Wrappers

  lemma Reach(env: Env, cfg: Config, threads: set<Tid>, s: Sys, a: Action)
    requires Reachable(env, cfg, threads, s)
    ensures Sound(env, s)
    ensures Enabled(env, s, a) ==> Reachable(env, cfg, threads, Next(env, cfg, s, a))
  {
    hide Reachable, Sound, Enabled, Next;
    SoundReachable(env, cfg, threads, s);
    if Enabled(env, s, a) {
      ReachNext(env, cfg, threads, s, a);
    }
  }

  // Nobody holds a lock on shard `b`.
  ghost predicate Free(env: Env, s: Sys, b: nat) {
    NoWriter(env, s, b) && NoReader(env, s, b)
  }

  lemma FreeButForMe(env: Env, s: Sys, t: Tid, pc: Pc, b: nat)
    requires Free(env, s, b)
    ensures NoWriter(env, SetPc(s, t, pc), b) <==> !Writes(env, pc, b)
    ensures NoReader(env, SetPc(s, t, pc), b) <==> !Reads(env, pc, b)
  {
    var s' := SetPc(s, t, pc);
    assert t in s'.threads && s'.threads[t] == pc;
    hide Bucket;
  }

  // A call on an untracked pair, in a free shard and below the cap, gets past the check.
  lemma ToCreating(env: Env, cfg: Config, threads: set<Tid>, s: Sys, t: Tid, k: Key, h: Hash) returns (s': Sys)
    requires Reachable(env, cfg, threads, s) && |s.shards| == NUM_SHARDS
    requires t in s.threads && s.threads[t] == Outside && Free(env, s, Bucket(env, k.metric))
    requires k !in s.shards[Bucket(env, k.metric)]
    requires cfg.maxTrackers > 0 ==> s.trackerCount < cfg.maxTrackers
    ensures Reachable(env, cfg, threads, s')
    ensures s' == SetPc(s, t, Creating(Request(|s.calls|, k, h))).(calls := s'.calls)
  {
    var r, b := Request(|s.calls|, k, h), Bucket(env, k.metric);
    var s0 := s.(calls := s.calls + [r]);
    assert Free(env, s0, b);
    Reach(env, cfg, threads, s, Begin(t, k, h));
    var s1 := SetPc(s0, t, ReadLocking(r));
    assert Reachable(env, cfg, threads, s1);
    hide Reachable, Free, Bucket, NoReader, NoWriter;
    Lookup(env, cfg, threads, s0, t, r);
    Admit(env, cfg, threads, s0, t, r);
    s' := SetPc(s0, t, Creating(r));
  }

  // One step of goroutine `t`, spelled out.
  lemma Move(env: Env, cfg: Config, threads: set<Tid>, s: Sys, t: Tid, s': Sys)
    requires Reachable(env, cfg, threads, s) && |s.shards| == NUM_SHARDS
    requires Enabled(env, s, Step(t)) && !s.threads[t].Inserting? && StepThread(env, cfg, s, t) == s'
    ensures Reachable(env, cfg, threads, s')
  {
    hide Reachable, Sound, Enabled;
    Reach(env, cfg, threads, s, Step(t));
  }

  lemma MovePc(s: Sys, t: Tid, pc: Pc, pc': Pc)
    ensures SetPc(SetPc(s, t, pc), t, pc') == SetPc(s, t, pc')
  {
  }

  lemma LockEnabled(env: Env, s0: Sys, t: Tid, r: Request)
    requires t in s0.threads && Free(env, s0, Bucket(env, r.k.metric))
    ensures Enabled(env, SetPc(s0, t, ReadLocking(r)), Step(t))
    ensures Enabled(env, SetPc(s0, t, WriteLocking(r)), Step(t))
  {
    FreeButForMe(env, s0, t, ReadLocking(r), Bucket(env, r.k.metric));
    FreeButForMe(env, s0, t, WriteLocking(r), Bucket(env, r.k.metric));
    hide Free, NoReader, NoWriter, Bucket;
  }

  // From the call to the write lock.
  lemma Lookup(env: Env, cfg: Config, threads: set<Tid>, s0: Sys, t: Tid, r: Request)
    requires |s0.shards| == NUM_SHARDS && t in s0.threads
    requires Reachable(env, cfg, threads, SetPc(s0, t, ReadLocking(r)))
    requires Free(env, s0, Bucket(env, r.k.metric)) && r.k !in s0.shards[Bucket(env, r.k.metric)]
    ensures Reachable(env, cfg, threads, SetPc(s0, t, LookingAgain(r)))
  {
    LockEnabled(env, s0, t, r);
    forall pc, pc' { MovePc(s0, t, pc, pc'); }
    hide Reachable, Free, Bucket, NoReader, NoWriter;
    var s1, s2, s3 := SetPc(s0, t, ReadLocking(r)), SetPc(s0, t, Looking(r)), SetPc(s0, t, WriteLocking(r));
    Move(env, cfg, threads, s1, t, s2);
    assert Enabled(env, s2, Step(t));
    Move(env, cfg, threads, s2, t, s3);
    Move(env, cfg, threads, s3, t, SetPc(s0, t, LookingAgain(r)));
  }

  lemma Admit(env: Env, cfg: Config, threads: set<Tid>, s0: Sys, t: Tid, r: Request)
    requires |s0.shards| == NUM_SHARDS && t in s0.threads
    requires Reachable(env, cfg, threads, SetPc(s0, t, LookingAgain(r)))
    requires r.k !in s0.shards[Bucket(env, r.k.metric)]
    requires cfg.maxTrackers > 0 ==> s0.trackerCount < cfg.maxTrackers
    ensures Reachable(env, cfg, threads, SetPc(s0, t, Creating(r)))
  {
    hide Reachable, Sound;
    Reach(env, cfg, threads, SetPc(s0, t, LookingAgain(r)), Step(t));
    assert Next(env, cfg, SetPc(s0, t, LookingAgain(r)), Step(t)) == SetPc(s0, t, Checking(r));
    Reach(env, cfg, threads, SetPc(s0, t, Checking(r)), Step(t));
    assert Next(env, cfg, SetPc(s0, t, Checking(r)), Step(t)) == SetPc(s0, t, Creating(r));
  }

  // The shards after a tracker for `k` has been entered into shard `b`.
  ghost predicate Entered(s: Sys, s': Sys, b: nat, k: Key) {
    && b < |s.shards| == |s'.shards|
    && s'.shards == s.shards[b := s'.shards[b]]
    && forall k' :: k' in s'.shards[b] <==> k' in s.shards[b] || k' == k
  }

  lemma NotYetTracked(env: Env, s: Sys, t: Tid)
    requires Sound(env, s) && t in s.threads && s.threads[t].Creating?
    ensures |s.shards| == NUM_SHARDS
    ensures s.threads[t].r.k !in s.shards[Bucket(env, s.threads[t].r.k.metric)]
  {
    hide Exclusive, RotatorOk, Bucket;
    assert PcOk(env, s, s.threads[t]);
  }

  // The admitted goroutine enters its tracker into the map.
  lemma ToCounting(env: Env, cfg: Config, threads: set<Tid>, s: Sys, t: Tid) returns (s': Sys)
    requires Reachable(env, cfg, threads, s) && t in s.threads && s.threads[t].Creating?
    ensures Reachable(env, cfg, threads, s')
    ensures
      var r, id := s.threads[t].r, |s.objects|;
      var b := Bucket(env, r.k.metric);
      && |s.shards| == NUM_SHARDS
      && s' == SetPc(s, t, Counting(r, id)).(shards := s'.shards, objects := s'.objects)
      && Entered(s, s', b, r.k)
      && Total(s'.shards) == Total(s.shards) + 1
  {
    hide Reachable, Sound, Total, Bucket;
    SoundReachable(env, cfg, threads, s);
    NotYetTracked(env, s, t);
    s' := StepThread(env, cfg, s, t);
    Move(env, cfg, threads, s, t, s');
    var b := Bucket(env, s.threads[t].r.k.metric);
    EnterOne(s.shards, b, s.threads[t].r.k, s'.shards[b]);
  }

  // It counts the tracker, unlocks, inserts and leaves.
  lemma ToOutside(env: Env, cfg: Config, threads: set<Tid>, s: Sys, t: Tid) returns (s': Sys)
    requires Reachable(env, cfg, threads, s) && t in s.threads && s.threads[t].Counting?
    ensures Reachable(env, cfg, threads, s')
    ensures s' == SetPc(s, t, Outside).(trackerCount := s.trackerCount + 1, objects := s'.objects, history := s'.history)
  {
    hide Reachable, Sound;
    Reach(env, cfg, threads, s, Step(t));
    var r, id := s.threads[t].r, s.threads[t].id;
    var s1 := SetPc(s, t, WriteUnlocking(r, id)).(trackerCount := s.trackerCount + 1);
    assert Next(env, cfg, s, Step(t)) == s1;
    Reach(env, cfg, threads, s1, Step(t));
    var s2 := SetPc(s, t, Inserting(r, id)).(trackerCount := s.trackerCount + 1);
    assert Next(env, cfg, s1, Step(t)) == s2;
    Reach(env, cfg, threads, s2, Step(t));
    hide Insert, Exceeds;
    s' := Next(env, cfg, s2, Step(t));
  }

  // ---------------------------------------------------------------------------------------------
  // Fill up to one below the cap, let every goroutine pass the check, then let all of them create.

  // The tracked labels are shorter than `m`.
  ghost predicate Short(s: Sys, m: nat) {
    forall b, k :: 0 <= b < |s.shards| && k in s.shards[b] ==> |k.attr| < m
  }

  function Label(n: nat): (l: string)
    ensures |l| == n
  {
    seq(n, _ => 'x')
  }

  ghost predicate AllOutside(s: Sys) {
    s.rotator == Resting && forall t :: t in s.threads ==> s.threads[t] == Outside
  }

  lemma StaysShort(s: Sys, s': Sys, b: nat, k: Key, m: nat)
    requires Short(s, m) && Entered(s, s', b, k) && |k.attr| <= m
    ensures Short(s', m + 1)
  {
    forall b', k' | 0 <= b' < |s'.shards| && k' in s'.shards[b'] ensures |k'.attr| < m + 1 {
      assert b' != b ==> s'.shards[b'] == s.shards[b'];
      assert k' in s.shards[b'] || k' == k;
    }
  }

  lemma NotShort(s: Sys, b: nat, k: Key, m: nat)
    requires Short(s, m) && b < |s.shards| && |k.attr| >= m
    ensures k !in s.shards[b]
  {
  }

  lemma OutsideIsFree(env: Env, s: Sys, t: Tid, b: nat)
    requires AllOutside(s) && t in s.threads
    ensures Free(env, s, b) && s.threads[t] == Outside
  {
  }

  // A whole call that adds a tracker.
  lemma OneMore(env: Env, cfg: Config, threads: set<Tid>, s: Sys, t: Tid, k: Key) returns (s': Sys)
    requires Reachable(env, cfg, threads, s) && AllOutside(s) && t in s.threads && |s.shards| == NUM_SHARDS
    requires k !in s.shards[Bucket(env, k.metric)] && s.trackerCount < cfg.maxTrackers
    ensures Reachable(env, cfg, threads, s') && AllOutside(s') && s'.threads == s.threads
    ensures s'.trackerCount == s.trackerCount + 1 && Total(s'.shards) == Total(s.shards) + 1
    ensures Entered(s, s', Bucket(env, k.metric), k)
  {
    hide Reachable, Total, Bucket, Free, Entered, AllOutside;
    OutsideIsFree(env, s, t, Bucket(env, k.metric));
    var s1 := ToCreating(env, cfg, threads, s, t, k, 0);
    var s2 := ToCounting(env, cfg, threads, s1, t);
    s' := ToOutside(env, cfg, threads, s2, t);
    Restored(s.threads, t, s1.threads[t], s2.threads[t]);
    BackOutside(env, s, s1, s2, s', k);
  }

  lemma Restored(threads: map<Tid, Pc>, t: Tid, pc: Pc, pc': Pc)
    requires t in threads
    ensures threads[t := pc][t := pc'][t := threads[t]] == threads
  {
  }

  lemma BackOutside(env: Env, s: Sys, s1: Sys, s2: Sys, s': Sys, k: Key)
    requires AllOutside(s) && s'.threads == s.threads && s'.rotator == s.rotator
    requires s1.shards == s.shards && s2.shards == s'.shards && Entered(s1, s2, Bucket(env, k.metric), k)
    ensures AllOutside(s') && Entered(s, s', Bucket(env, k.metric), k)
  {
    hide Bucket;
  }

  lemma {:induction false} Fill(env: Env, cfg: Config, threads: set<Tid>, t: Tid, metric: string, m: nat) returns (s: Sys)
    requires t in threads && m < cfg.maxTrackers
    ensures Reachable(env, cfg, threads, s) && AllOutside(s) && s.threads.Keys == threads
    ensures s.trackerCount == Total(s.shards) == m && Short(s, m) && |s.shards| == NUM_SHARDS
  {
    if m == 0 {
      s := Initial(threads);
      assert Exec(env, cfg, threads, []) == Some(s) by {
        hide Good;
      }
      TotalOfEmpty(s.shards);
      hide Good, Total, Exec;
    } else {
      hide Reachable, Total, Bucket, AllOutside, Short;
      var s0 := Fill(env, cfg, threads, t, metric, m - 1);
      var k := Key(metric, Label(m - 1));
      NotShort(s0, Bucket(env, metric), k, m - 1);
      s := OneMore(env, cfg, threads, s0, t, k);
      StaysShort(s0, s, Bucket(env, metric), k, m - 1);
    }
  }

  // A goroutine for each metric.
  ghost predicate Crew(threads: set<Tid>, ts: seq<Tid>, names: seq<string>) {
    && |ts| == |names|
    && (forall i :: 0 <= i < |ts| ==> ts[i] in threads)
    && (forall i, j :: 0 <= i < j < |ts| ==> ts[i] != ts[j])
  }

  // The first `m` goroutines are at `Creating`, all others outside.
  ghost predicate Admitted(s: Sys, ts: seq<Tid>, names: seq<string>, m: nat, l: string)
    requires m <= |ts| == |names|
  {
    && s.rotator == Resting
    && (forall i :: 0 <= i < m ==> ts[i] in s.threads && s.threads[ts[i]].Creating?
                                   && s.threads[ts[i]].r.k == Key(names[i], l))
    && (forall t :: t in s.threads && t !in ts[..m] ==> s.threads[t] == Outside)
  }

  ghost predicate DistinctShards(env: Env, names: seq<string>) {
    forall i, j :: 0 <= i < j < |names| ==> Bucket(env, names[i]) != Bucket(env, names[j])
  }

  lemma NextIsFree(env: Env, s: Sys, ts: seq<Tid>, names: seq<string>, m: nat, l: string)
    requires Crew(s.threads.Keys, ts, names) && DistinctShards(env, names) && m < |ts|
    requires Admitted(s, ts, names, m, l)
    ensures ts[m] in s.threads && s.threads[ts[m]] == Outside && Free(env, s, Bucket(env, names[m]))
  {
    hide Bucket;
    var b := Bucket(env, names[m]);
    forall t | t in s.threads ensures !Writes(env, s.threads[t], b) && !Reads(env, s.threads[t], b) {
      if t in ts[..m] {
        var i :| 0 <= i < m && ts[i] == t;
        assert Bucket(env, names[i]) != b;
      }
    }
  }

  lemma AdmitNext(s: Sys, s': Sys, ts: seq<Tid>, names: seq<string>, m: nat, l: string, pc: Pc)
    requires Crew(s.threads.Keys, ts, names) && m < |ts| && Admitted(s, ts, names, m, l)
    requires s'.rotator == s.rotator && s'.threads == s.threads[ts[m] := pc]
    requires pc.Creating? && pc.r.k == Key(names[m], l)
    ensures Admitted(s', ts, names, m + 1, l)
  {
    assert ts[..m + 1] == ts[..m] + [ts[m]];
  }

  lemma {:induction false} AdmitAll(env: Env, cfg: Config, threads: set<Tid>, ts: seq<Tid>, names: seq<string>, m: nat)
    returns (s: Sys)
    requires Crew(threads, ts, names) && DistinctShards(env, names) && names != [] && m <= |names|
    requires cfg.maxTrackers > 0
    ensures Reachable(env, cfg, threads, s) && s.threads.Keys == threads
    ensures Admitted(s, ts, names, m, Label(cfg.maxTrackers))
    ensures s.trackerCount == Total(s.shards) == cfg.maxTrackers - 1 && |s.shards| == NUM_SHARDS
    ensures Short(s, cfg.maxTrackers - 1)
  {
    var l := Label(cfg.maxTrackers);
    if m == 0 {
      hide Reachable, Total, Short, Label, DistinctShards;
      s := Fill(env, cfg, threads, ts[0], names[0], cfg.maxTrackers - 1);
    } else {
      hide Reachable, Total, Bucket, Free, Admitted, Short, AllOutside, Label, DistinctShards, Crew;
      var s0 := AdmitAll(env, cfg, threads, ts, names, m - 1);
      s := AdmitOne(env, cfg, threads, ts, names, m - 1, s0);
    }
  }

  lemma AdmitOne(env: Env, cfg: Config, threads: set<Tid>, ts: seq<Tid>, names: seq<string>, m: nat, s: Sys)
    returns (s': Sys)
    requires Crew(threads, ts, names) && DistinctShards(env, names) && m < |names| && cfg.maxTrackers > 0
    requires Reachable(env, cfg, threads, s) && s.threads.Keys == threads
    requires Admitted(s, ts, names, m, Label(cfg.maxTrackers))
    requires s.trackerCount == cfg.maxTrackers - 1 && |s.shards| == NUM_SHARDS && Short(s, cfg.maxTrackers - 1)
    ensures Reachable(env, cfg, threads, s') && s'.threads.Keys == threads
    ensures Admitted(s', ts, names, m + 1, Label(cfg.maxTrackers))
    ensures s'.trackerCount == s.trackerCount && s'.shards == s.shards && Short(s', cfg.maxTrackers - 1)
  {
    assert |ts| == |names|;
    hide Reachable, Bucket, Free, Admitted, Short, Label, DistinctShards, Crew;
    var k := Key(names[m], Label(cfg.maxTrackers));
    NextIsFree(env, s, ts, names, m, k.attr);
    NotShort(s, Bucket(env, names[m]), k, cfg.maxTrackers - 1);
    s' := ToCreating(env, cfg, threads, s, ts[m], k, 0);
    AdmitNext(s, s', ts, names, m, k.attr, s'.threads[ts[m]]);
    SameShards(s, s', cfg.maxTrackers - 1);
  }

  lemma SameShards(s: Sys, s': Sys, m: nat)
    requires s'.shards == s.shards && Short(s, m)
    ensures Short(s', m)
  {
  }

  // The goroutines from `m` on have still to create their tracker.
  ghost predicate Waiting(s: Sys, ts: seq<Tid>, m: nat) {
    forall i :: m <= i < |ts| ==> ts[i] in s.threads && s.threads[ts[i]].Creating?
  }

  lemma WaitNext(s: Sys, s': Sys, ts: seq<Tid>, names: seq<string>, m: nat, pc: Pc)
    requires Crew(s.threads.Keys, ts, names) && Waiting(s, ts, m) && m < |ts|
    requires s'.threads == s.threads[ts[m] := pc]
    ensures Waiting(s', ts, m + 1)
  {
  }

  lemma {:induction false} CreateAll(env: Env, cfg: Config, threads: set<Tid>, ts: seq<Tid>, names: seq<string>, m: nat)
    returns (s: Sys)
    requires Crew(threads, ts, names) && DistinctShards(env, names) && names != [] && m <= |names|
    requires cfg.maxTrackers > 0
    ensures Reachable(env, cfg, threads, s) && s.threads.Keys == threads && Waiting(s, ts, m)
    ensures Total(s.shards) == cfg.maxTrackers - 1 + m
  {
    hide Reachable, Total, Bucket, Short, DistinctShards, Entered;
    if m == 0 {
      s := AdmitAll(env, cfg, threads, ts, names, |names|);
    } else {
      var s0 := CreateAll(env, cfg, threads, ts, names, m - 1);
      assert ts[m - 1] in s0.threads && s0.threads[ts[m - 1]].Creating?;
      s := ToCounting(env, cfg, threads, s0, ts[m - 1]);
      WaitNext(s0, s, ts, names, m - 1, s.threads[ts[m - 1]]);
    }
  }

  // For every cap and every set of metrics in different shards, one goroutine per metric can drive
  // the registry to the cap plus the number of goroutines less one.
  lemma CapOvershootIsReached(env: Env, cfg: Config, threads: set<Tid>, ts: seq<Tid>, names: seq<string>)
    requires Crew(threads, ts, names) && DistinctShards(env, names) && names != [] && cfg.maxTrackers > 0
    ensures exists s :: Reachable(env, cfg, threads, s) && Total(s.shards) == cfg.maxTrackers + |names| - 1
  {
    var s := CreateAll(env, cfg, threads, ts, names, |names|);
    hide *;
  }

  // ---------------------------------------------------------------------------------------------
  // The exact maximum.

  lemma NameFor(env: Env, b: nat) returns (metric: string)
    requires b in UsedShards(env)
    ensures Bucket(env, metric) == b
  {
    hide Bucket;
    metric :| Bucket(env, metric) == b;
  }

  // Metrics in `n` different shards of the given ones.
  lemma {:induction false} NamesFor(env: Env, shards: set<nat>, n: nat) returns (names: seq<string>)
    requires shards <= UsedShards(env) && n <= |shards|
    ensures |names| == n && DistinctShards(env, names)
    ensures forall i :: 0 <= i < n ==> Bucket(env, names[i]) in shards
  {
    hide UsedShards, Bucket;
    names := [];
    if n > 0 {
      var b :| b in shards;
      var metric := NameFor(env, b);
      var rest := NamesFor(env, shards - {b}, n - 1);
      names := [metric] + rest;
    }
  }

  lemma {:induction false} Pick(threads: set<Tid>, n: nat) returns (ts: seq<Tid>)
    requires n <= |threads|
    ensures |ts| == n
    ensures forall i :: 0 <= i < n ==> ts[i] in threads
    ensures forall i, j :: 0 <= i < j < n ==> ts[i] != ts[j]
  {
    ts := [];
    if n > 0 {
      var t :| t in threads;
      var rest := Pick(threads - {t}, n - 1);
      ts := [t] + rest;
    }
  }

  // The most live trackers a cap allows: it is exceeded by exactly one less than the number of
  // goroutines or of shards in use, whichever is less.
  lemma ExactOvershoot(env: Env, cfg: Config, threads: set<Tid>)
    requires threads != {} && cfg.maxTrackers > 0
    ensures forall s :: Reachable(env, cfg, threads, s) ==> Total(s.shards) <= cfg.maxTrackers + Slack(env, |threads|)
    ensures exists s :: Reachable(env, cfg, threads, s) && Total(s.shards) == cfg.maxTrackers + Slack(env, |threads|)
  {
    hide Reachable, Total, UsedShards, DistinctShards;
    forall s | Reachable(env, cfg, threads, s) {
      CapOvershoot(env, cfg, threads, s);
    }
    SomeShardIsUsed(env);
    var n := Slack(env, |threads|) + 1;
    var names := NamesFor(env, UsedShards(env), n);
    var ts := Pick(threads, n);
    CapOvershootIsReached(env, cfg, threads, ts, names);
  }

  lemma SomeShardIsUsed(env: Env)
    ensures |UsedShards(env)| > 0
  {
    IsUsed(env, "");
    hide UsedShards;
  }

  // `max_tracker_count` is an absolute maximum if and only if there are no two goroutines, or all
  // metrics route to one shard.
  lemma CapHoldsExactly(env: Env, cfg: Config, threads: set<Tid>)
    requires cfg.maxTrackers > 0
    ensures (forall s :: Reachable(env, cfg, threads, s) ==> Total(s.shards) <= cfg.maxTrackers)
       <==> (|threads| <= 1 || forall a, b :: Bucket(env, a) == Bucket(env, b))
  {
    hide Reachable, Total, Slack, Bucket;
    NoSlack(env, |threads|);
    if threads == {} {
      forall s | Reachable(env, cfg, threads, s) {
        CapOvershoot(env, cfg, threads, s);
      }
    } else {
      ExactOvershoot(env, cfg, threads);
    }
  }

  // With a hash that spreads metrics over all shards and at least 256 goroutines, the bound is 255.
  lemma FullOvershoot(est: Estimator, xx: StringHash, cfg: Config, threads: set<Tid>)
    requires cfg.maxTrackers > 0 && |threads| >= 256
    ensures
      var env := Env(est, xx, metric => (|metric| % 256) as Hash);
      exists s :: Reachable(env, cfg, threads, s) && Total(s.shards) == cfg.maxTrackers + 255
  {
    var env := Env(est, xx, metric => (|metric| % 256) as Hash);
    AllShardsUsed(env);
    hide Reachable, Total, UsedShards;
    ExactOvershoot(env, cfg, threads);
  }

  lemma AllShardsUsed(env: Env)
    requires forall metric :: env.route(metric) as int == |metric| % 256
    ensures |UsedShards(env)| == 256
  {
    forall b | b in Below(NUM_SHARDS) ensures b in UsedShards(env) {
      OneShardUsed(env, b);
    }
    UsedAreBelow(env);
    hide UsedShards, Below;
    assert UsedShards(env) == Below(NUM_SHARDS);
  }

  lemma OneShardUsed(env: Env, b: nat)
    requires b < NUM_SHARDS && forall metric :: env.route(metric) as int == |metric| % 256
    ensures b in UsedShards(env)
  {
    hide UsedShards;
    assert |Label(b)| == b;
    IsUsed(env, Label(b));
  }

  lemma UsedAreBelow(env: Env)
    ensures UsedShards(env) <= Below(NUM_SHARDS)
  {
    hide Bucket, Below;
  }

  lemma NoSlack(env: Env, goroutines: nat)
    ensures Slack(env, goroutines) == 0 <==> goroutines <= 1 || forall a, b :: Bucket(env, a) == Bucket(env, b)
  {
    hide Bucket, UsedShards;
    SomeShardIsUsed(env);
    var used := UsedShards(env);
    if |used| == 1 {
      forall a, b ensures Bucket(env, a) == Bucket(env, b) {
        IsUsed(env, a);
        IsUsed(env, b);
        OneElement(used, Bucket(env, a), Bucket(env, b));
      }
    } else {
      var x, y := TwoElements(used);
      var a := NameFor(env, x);
      var b := NameFor(env, y);
    }
  }

  lemma OneElement(s: set<nat>, x: nat, y: nat)
    requires |s| == 1 && x in s && y in s
    ensures x == y
  {
    SubsetSize({x, y}, s);
  }

  lemma TwoElements(s: set<nat>) returns (x: nat, y: nat)
    requires |s| > 1
    ensures x in s && y in s && x != y
  {
    x :| x in s;
    assert |s - {x}| > 0;
    y :| y in s - {x};
  }
}
