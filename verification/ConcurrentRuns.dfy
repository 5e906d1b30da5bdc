// What holds in every state of every interleaving, for any number of goroutines and one rotator.
module ConcurrentRuns {
  import opened CapBound
  import opened Evictions
  import opened Interleaving
  import opened Linearization
  import opened Retirement
  import opened Settings
  import opened SlidingWindow
  import opened Stranding
  import opened Wrappers

  ghost predicate Good(env: Env, cfg: Config, threads: set<Tid>, s: Sys) {
    && s.threads.Keys == threads
    && Sound(env, s) && Counted(s) && Capped(env, cfg, s)
    && Windows(env, s) && Lives(env, s) && Fated(s)
    && Decided(env, cfg, s.history) && Justified(s.history)
  }

  lemma InitiallyGood(env: Env, cfg: Config, threads: set<Tid>)
    ensures Good(env, cfg, threads, Initial(threads))
  {
    var s := Initial(threads);
    TotalOfEmpty(s.shards);
    assert Those(s.threads, IsCounting) == {} && Those(s.threads, IsCreating) == {};
    assert |s.shards| == NUM_SHARDS;
    assert forall t, r :: !InFlight(s, t, r);
    assert forall i, r :: !MarkedAt(s, i, r);
  }

  lemma GoodAlways(env: Env, cfg: Config, threads: set<Tid>, s: Sys, a: Action)
    requires Good(env, cfg, threads, s) && Enabled(env, s, a)
    ensures Good(env, cfg, threads, Next(env, cfg, s, a))
  {
    hide Sound, Counted, Capped, Windows, Lives, Fated, Decided, Justified, Next, Enabled;
    SoundAlways(env, cfg, s, a);
    CountedAlways(env, cfg, s, a);
    WindowsAlways(env, cfg, s, a);
    LivesAlways(env, cfg, s, a);
    DecidedAlways(env, cfg, s, a);
    JustifiedAlways(env, cfg, s, a);
    FatedAlways(env, cfg, s, a);
    SameThreads(env, cfg, s, a, 0);
  }

  // The state after a schedule of steps, if each of them can be taken when its turn comes.
  ghost function Exec(env: Env, cfg: Config, threads: set<Tid>, schedule: seq<Action>): (r: Option<Sys>)
    ensures r.Some? ==> Good(env, cfg, threads, r.value)
  {
    if schedule == [] then
      InitiallyGood(env, cfg, threads);
      Some(Initial(threads))
    else
      var a := schedule[|schedule| - 1];
      match Exec(env, cfg, threads, schedule[..|schedule| - 1])
      case None => None
      case Some(s) =>
        if Enabled(env, s, a) then GoodAlways(env, cfg, threads, s, a); Some(Next(env, cfg, s, a)) else None
  }

  ghost predicate Reachable(env: Env, cfg: Config, threads: set<Tid>, s: Sys) {
    exists schedule :: Exec(env, cfg, threads, schedule) == Some(s)
  }

  lemma ReachableIsGood(env: Env, cfg: Config, threads: set<Tid>, s: Sys)
    requires Reachable(env, cfg, threads, s)
    ensures Good(env, cfg, threads, s)
  {
    var schedule :| Exec(env, cfg, threads, schedule) == Some(s);
  }

  lemma SoundReachable(env: Env, cfg: Config, threads: set<Tid>, s: Sys)
    requires Reachable(env, cfg, threads, s)
    ensures Sound(env, s)
  {
    ReachableIsGood(env, cfg, threads, s);
    hide Reachable, Sound, Counted, Capped, Windows, Lives, Fated, Decided, Justified;
  }

  lemma ExecSnoc(env: Env, cfg: Config, threads: set<Tid>, schedule: seq<Action>, s: Sys, a: Action)
    requires Exec(env, cfg, threads, schedule) == Some(s) && Sound(env, s) && Enabled(env, s, a)
    ensures Exec(env, cfg, threads, schedule + [a]) == Some(Next(env, cfg, s, a))
  {
    hide Good, Sound, Enabled, Next;
    assert (schedule + [a])[..|schedule|] == schedule;
  }

  lemma ReachNext(env: Env, cfg: Config, threads: set<Tid>, s: Sys, a: Action)
    requires Reachable(env, cfg, threads, s) && Sound(env, s) && Enabled(env, s, a)
    ensures Reachable(env, cfg, threads, Next(env, cfg, s, a))
  {
    hide Sound, Enabled, Next, Exec;
    var schedule :| Exec(env, cfg, threads, schedule) == Some(s);
    ExecSnoc(env, cfg, threads, schedule, s, a);
  }

  // The live trackers exceed the cap by at most 255, and not at all with a single goroutine.
  lemma CapOvershoot(env: Env, cfg: Config, threads: set<Tid>, s: Sys)
    requires Reachable(env, cfg, threads, s) && cfg.maxTrackers > 0
    ensures Total(s.shards) <= cfg.maxTrackers + Slack(env, |threads|)
    ensures Total(s.shards) <= cfg.maxTrackers + 255
    ensures |threads| <= 1 ==> Total(s.shards) <= cfg.maxTrackers
  {
    ReachableIsGood(env, cfg, threads, s);
    assert |s.threads| == |s.threads.Keys|;
    UsedShardsSize(env);
    hide Sound, Counted, Windows, Lives, Fated, Decided, Justified, Total, Those;
  }

  // The counter is the number of live trackers whenever nobody is between a map and its counter.
  lemma CounterIsExact(env: Env, cfg: Config, threads: set<Tid>, s: Sys)
    requires Reachable(env, cfg, threads, s)
    requires !s.rotator.Uncounting? && forall t :: t in s.threads ==> !s.threads[t].Counting?
    ensures s.trackerCount == Total(s.shards)
  {
    ReachableIsGood(env, cfg, threads, s);
    assert Those(s.threads, IsCounting) == {};
    hide Sound, Capped, Windows, Lives, Fated, Decided, Justified, Total;
  }

  // Each pair has at most one live tracker, of its own, in the shard its metric routes to.
  lemma OneLiveTracker(env: Env, cfg: Config, threads: set<Tid>, s: Sys, b: nat, k: Key, b': nat, k': Key)
    requires Reachable(env, cfg, threads, s)
    requires b < |s.shards| && k in s.shards[b] && b' < |s.shards| && k' in s.shards[b']
    ensures b == Bucket(env, k.metric)
    ensures k == k' ==> b == b'
    ensures s.shards[b][k] == s.shards[b'][k'] ==> k == k'
  {
    ReachableIsGood(env, cfg, threads, s);
    assert InPlace(env, s, b, k, s.shards[b][k]) && InPlace(env, s, b', k', s.shards[b'][k']);
  }

  // Every call that has begun is in flight in one goroutine, or was refused, or has inserted its hash
  // into one tracker, once: exactly one of the three.
  lemma ExactlyOnce(env: Env, cfg: Config, threads: set<Tid>, s: Sys, n: nat)
    requires Reachable(env, cfg, threads, s) && n < |s.calls|
    ensures OneFate(s, s.calls[n])
  {
    ReachableIsGood(env, cfg, threads, s);
    hide OneFate;
  }

  // In the order of the tracker locks, every answer given by a tracker that is alone is the sequential
  // one for the inserts and rotations of its pair.
  lemma DecisionsLinearize(env: Env, cfg: Config, threads: set<Tid>, s: Sys, i: nat)
    requires Reachable(env, cfg, threads, s) && i < |s.history| && s.history[i].Inserted?
    requires Alone(s.history[..i], s.history[i].r.k, s.history[i].id)
    ensures
      var before, Inserted(r, _, dropped) := s.history[..i], s.history[i];
      dropped <==> Drops(env.est, KeyEpoch(before, r.k, 0) + [r.h], KeyEpoch(before, r.k, 1), Limit(cfg, r.k.metric))
  {
    ReachableIsGood(env, cfg, threads, s);
    assert DecidedAt(env, cfg, s.history[..i], s.history[i]);
    hide Good, Reachable, Alone, Kept;
  }

  // With the ideal sketch, the cached counts of every tracker, live or evicted, trail the true ones by
  // at most 63 in every reachable state, ...
  lemma LagAlways(env: Env, cfg: Config, threads: set<Tid>, s: Sys, id: Id)
    requires Reachable(env, cfg, threads, s) && env.est == Distinct && id < |s.objects|
    ensures
      var w := s.objects[id].window;
      && w.cachedCurr <= Distinct(w.current) <= w.cachedCurr + 63
      && w.cachedPrev <= Distinct(w.previous) <= w.cachedPrev + 63
  {
    ReachableIsGood(env, cfg, threads, s);
    var w := s.objects[id].window;
    assert WindowOk(env, s.history, id, w);
    hide Good, Reachable, Distinct, LazyEstimate, IdEpoch;
    LagBound(w.current);
    LagBound(w.previous);
  }

  // ... and every answer keeps the bounds, for the inserts and rotations of its tracker.
  lemma AnswersInBounds(env: Env, cfg: Config, threads: set<Tid>, s: Sys, i: nat)
    requires Reachable(env, cfg, threads, s) && env.est == Distinct
    requires i < |s.history| && s.history[i].Inserted?
    ensures
      var before, Inserted(r, id, dropped) := s.history[..i], s.history[i];
      InBounds(IdEpoch(before, id, 0) + [r.h], IdEpoch(before, id, 1), Limit(cfg, r.k.metric), dropped)
  {
    ReachableIsGood(env, cfg, threads, s);
    var before := s.history[..i];
    var Inserted(r, id, dropped) := s.history[i];
    assert DecidedAt(env, cfg, before, s.history[i]);
    hide Good, Reachable, Alone, Kept, InBounds, Drops;
    DropsInBounds(IdEpoch(before, id, 0) + [r.h], IdEpoch(before, id, 1), Limit(cfg, r.k.metric));
  }

  // The live tracker of a pair holds exactly the completed inserts of its epoch and of the one before
  // if and only if none of them is stranded in an evicted tracker, ...
  lemma NoInsertLost(env: Env, cfg: Config, threads: set<Tid>, s: Sys, k: Key)
    requires Reachable(env, cfg, threads, s)
    requires |s.shards| == NUM_SHARDS && k in s.shards[Bucket(env, k.metric)]
    ensures
      var id := s.shards[Bucket(env, k.metric)][k];
      && id < |s.objects|
      && (Holds(env.est, s.objects[id].window, KeyEpoch(s.history, k, 0), KeyEpoch(s.history, k, 1))
          <==> forall id' :: 0 <= id' < |s.objects| && s.objects[id'].key == k ==> !Stranded(env, s, id'))
  {
    ReachableIsGood(env, cfg, threads, s);
    WholeUnlessStranded(env, s, k, s.shards[Bucket(env, k.metric)][k]);
    hide Good, Reachable, Stranded, Bucket;
  }

  // ... and where nothing is stranded, exactly two steps strand something: deleting a tracker with
  // inserts since its last rotation, and inserting into a tracker that is mapped no longer.
  lemma OnlyTwoStepsStrand(env: Env, cfg: Config, threads: set<Tid>, s: Sys, a: Action)
    requires Reachable(env, cfg, threads, s) && Enabled(env, s, a)
    ensures Sound(env, s) && |s.shards| == NUM_SHARDS == |Next(env, cfg, s, a).shards|
    ensures NothingStranded(env, s) ==> (NothingStranded(env, Next(env, cfg, s, a)) <==> !Strands(env, s, a))
  {
    ReachableIsGood(env, cfg, threads, s);
    RoutedAlways(env, cfg, s, a);
    RoutedShards(env, Next(env, cfg, s, a));
    if NothingStranded(env, s) {
      StrandingStep(env, cfg, s, a);
    }
    hide *;
  }

  // A run that avoids the two.
  ghost predicate Clean(env: Env, cfg: Config, threads: set<Tid>, schedule: seq<Action>) {
    schedule == [] ||
    (var rest, a := schedule[..|schedule| - 1], schedule[|schedule| - 1];
     var r := Exec(env, cfg, threads, rest);
     Clean(env, cfg, threads, rest) && (r.Some? && Enabled(env, r.value, a) ==> !Strands(env, r.value, a)))
  }

  lemma {:induction false} CleanRunsStrandNothing(env: Env, cfg: Config, threads: set<Tid>, schedule: seq<Action>)
    requires Clean(env, cfg, threads, schedule) && Exec(env, cfg, threads, schedule).Some?
    ensures
      var s := Exec(env, cfg, threads, schedule).value;
      |s.shards| == NUM_SHARDS && NothingStranded(env, s)
  {
    hide Good, Enabled, Strands, Stranded, Next;
    if schedule == [] {
      assert Exec(env, cfg, threads, []) == Some(Initial(threads));
    } else {
      var rest, a := schedule[..|schedule| - 1], schedule[|schedule| - 1];
      CleanRunsStrandNothing(env, cfg, threads, rest);
      var s := Exec(env, cfg, threads, rest).value;
      assert Reachable(env, cfg, threads, s);
      hide Reachable;
      OnlyTwoStepsStrand(env, cfg, threads, s, a);
    }
  }

  // A pair is evicted only when its live tracker has been idle for two full epochs.
  lemma EvictedWhenIdle(env: Env, cfg: Config, threads: set<Tid>, s: Sys, i: nat)
    requires Reachable(env, cfg, threads, s) && i < |s.history| && s.history[i].Evicted?
    ensures exists id :: Idle(s.history[..i], s.history[i].k, id)
    ensures Kept(s.history[..i], s.history[i].k) ==> IdlePair(s.history[..i], s.history[i].k)
  {
    ReachableIsGood(env, cfg, threads, s);
    assert JustifiedAt(s.history[..i], s.history[i]);
    hide Good, Reachable, Idle, IdlePair, Kept;
  }

  // And when the rotator is at rest, no live tracker is: what has been idle for two full epochs by the
  // end of a rotation has been evicted in it.
  lemma NoneIdleAtRest(env: Env, cfg: Config, threads: set<Tid>, s: Sys, k: Key)
    requires Reachable(env, cfg, threads, s) && s.rotator == Resting
    requires |s.shards| == NUM_SHARDS && k in s.shards[Bucket(env, k.metric)]
    ensures !IdleTracker(s.history, s.shards[Bucket(env, k.metric)][k])
  {
    ReachableIsGood(env, cfg, threads, s);
    hide Good, Reachable, Bucket, IdleTracker;
    MappedNotIdle(env, s, k, s.shards[Bucket(env, k.metric)][k]);
  }

  // So a tracker with an insert in at least one of any two consecutive epochs stays, whatever happened
  // to its pair before it was created.
  lemma BusyTrackersStay(env: Env, cfg: Config, threads: set<Tid>, s: Sys, id: Id)
    requires Reachable(env, cfg, threads, s) && id < |s.objects| && BusyTracker(s.history, id)
    ensures |s.shards| == NUM_SHARDS && Maps(env, s, s.objects[id].key, id)
  {
    ReachableIsGood(env, cfg, threads, s);
    assert Lives(env, s) && Justified(s.history);
    assert LifeOk(env, s, id);
    hide Good, Reachable, IdleTracker, Justified, Rested, Unsuperseded, Maps;
    if Retired(s.history, s.objects[id].key, id) {
      var n := RetiredWhenIdle(s.history, s.objects[id].key, id);
    }
  }

  // And a pair with an insert in at least one of any two consecutive epochs is never evicted: its live
  // tracker holds every insert and its answers are the sequential ones.
  lemma BusyPairsLoseNothing(env: Env, cfg: Config, threads: set<Tid>, s: Sys, k: Key)
    requires Reachable(env, cfg, threads, s) && Busy(s.history, k)
    ensures Kept(s.history, k)
    ensures forall id :: 0 <= id < |s.objects| && s.objects[id].key == k ==>
      |s.shards| == NUM_SHARDS && Maps(env, s, k, id)
      && Holds(env.est, s.objects[id].window, KeyEpoch(s.history, k, 0), KeyEpoch(s.history, k, 1))
    ensures forall i :: 0 <= i < |s.history| && s.history[i].Inserted? && s.history[i].r.k == k ==>
      (s.history[i].dropped <==>
        Drops(env.est, KeyEpoch(s.history[..i], k, 0) + [s.history[i].r.h], KeyEpoch(s.history[..i], k, 1),
              Limit(cfg, k.metric)))
  {
    ReachableIsGood(env, cfg, threads, s);
    assert Sound(env, s) && Windows(env, s) && Lives(env, s) && Decided(env, cfg, s.history) && Justified(s.history);
    hide Good, Reachable, Busy, IdlePair, Kept, Share, KeyEpoch, Retired, Maps, Justified, Lives, Windows;
    BusyIsKept(s.history, k, |s.history|);
    assert s.history[..|s.history|] == s.history;
    forall id | 0 <= id < |s.objects| && s.objects[id].key == k
      ensures |s.shards| == NUM_SHARDS && Maps(env, s, k, id) && Whole(env, s, k, id)
    {
      KeptIsAlone(env, s, k, id, 0);
      KeptIsAlone(env, s, k, id, 1);
      WholeUnlessElsewhere(env, s, k, id);
    }
    forall i | 0 <= i < |s.history| && s.history[i].Inserted? && s.history[i].r.k == k
      ensures Kept(s.history[..i], k) && DecidedAt(env, cfg, s.history[..i], s.history[i])
    {
      BusyIsKept(s.history, k, i);
    }
  }
}
