// Inserts do get stranded: one that reaches a tracker between its last rotation and its deletion
// completes and is lost.
module EvictionWitness {
  import opened CapWitness
  import opened ConcurrentRuns
  import opened Hashing
  import opened Interleaving
  import opened Linearization
  import opened Stranding
  import opened Settings
  import opened SlidingWindow
  import opened Wrappers

  ghost predicate Quiet(s: Sys) {
    |s.shards| == NUM_SHARDS && forall t :: t in s.threads ==> s.threads[t] == Outside
  }

  function At(s: Sys, rot: RotatorPc): Sys {
    s.(rotator := rot)
  }

  // One step of the rotator, spelled out.
  lemma Turn(env: Env, cfg: Config, threads: set<Tid>, s: Sys, order: seq<(Key, Id)>, s': Sys)
    requires Reachable(env, cfg, threads, s) && |s.shards| == NUM_SHARDS
    requires Enabled(env, s, StepRotator(order))
    requires s.rotator.Turning? && s.rotator.todo != [] ==> s.rotator.todo[0].1 < |s.objects|
    requires s.rotator.Deleting? ==> s.rotator.b < NUM_SHARDS
    requires StepRotation(s, order) == s'
    ensures Reachable(env, cfg, threads, s')
  {
    hide Reachable, Sound, Enabled;
    Reach(env, cfg, threads, s, StepRotator(order));
  }

  lemma QuietIsFree(env: Env, s: Sys, b: nat)
    requires Quiet(s) && (s.rotator.Resting? || s.rotator.SnapLocking? || s.rotator.SweepLocking?)
    ensures NoWriter(env, s, b) && NoReader(env, s, b)
  {
  }

  // Lock and snapshot a shard.
  lemma Snap(env: Env, cfg: Config, threads: set<Tid>, s: Sys, b: nat, order: seq<(Key, Id)>)
    requires Reachable(env, cfg, threads, At(s, SnapLocking(b))) && Quiet(s) && b < NUM_SHARDS
    requires IsSnapshot(s.shards[b], order)
    ensures Reachable(env, cfg, threads, At(s, Turning(b, order, [])))
  {
    hide Reachable, Sound, IsSnapshot, NoWriter, NoReader;
    QuietIsFree(env, At(s, SnapLocking(b)), b);
    Turn(env, cfg, threads, At(s, SnapLocking(b)), order, At(s, Snapping(b)));
    Turn(env, cfg, threads, At(s, Snapping(b)), order, At(s, Turning(b, order, [])));
  }

  // A shard without trackers is passed over.
  lemma Skip(env: Env, cfg: Config, threads: set<Tid>, s: Sys, b: nat)
    requires Reachable(env, cfg, threads, At(s, SnapLocking(b))) && Quiet(s) && b < NUM_SHARDS
    requires s.shards[b] == map[]
    ensures Reachable(env, cfg, threads, At(s, NextShard(b)))
  {
    hide Reachable, Sound;
    Snap(env, cfg, threads, s, b, []);
    Turn(env, cfg, threads, At(s, Turning(b, [], [])), [], At(s, NextShard(b)));
  }

  lemma {:induction false} SkipTo(env: Env, cfg: Config, threads: set<Tid>, s: Sys, b: nat, b': nat)
    requires Reachable(env, cfg, threads, At(s, SnapLocking(b))) && Quiet(s) && b <= b' < NUM_SHARDS
    requires forall i :: b <= i < b' ==> s.shards[i] == map[]
    ensures Reachable(env, cfg, threads, At(s, SnapLocking(b')))
    decreases b' - b
  {
    hide Reachable;
    if b < b' {
      Skip(env, cfg, threads, s, b);
      SkipTo(env, cfg, threads, s, b + 1, b');
    }
  }

  lemma SkipRest(env: Env, cfg: Config, threads: set<Tid>, s: Sys, b: nat)
    requires Reachable(env, cfg, threads, At(s, NextShard(b))) && Quiet(s) && b < NUM_SHARDS
    requires forall i :: b < i < NUM_SHARDS ==> s.shards[i] == map[]
    ensures Reachable(env, cfg, threads, At(s, Resting))
  {
    hide Reachable;
    if b + 1 < NUM_SHARDS {
      SkipTo(env, cfg, threads, s, b + 1, NUM_SHARDS - 1);
      Skip(env, cfg, threads, s, NUM_SHARDS - 1);
    }
  }

  // Only `k` is tracked, by object 0.
  ghost predicate Solo(env: Env, s: Sys, k: Key) {
    && Quiet(s) && |s.objects| == 1 && s.objects[0].key == k
    && s.shards[Bucket(env, k.metric)] == map[k := 0]
    && forall b :: 0 <= b < NUM_SHARDS && b != Bucket(env, k.metric) ==> s.shards[b] == map[]
  }

  // `s` with the tracker rotated once more.
  function Turned1(s: Sys, k: Key): Sys
    requires |s.objects| == 1
  {
    s.(objects := [s.objects[0].(window := Rotate(s.objects[0].window))], history := s.history + [Turned(k, 0)])
  }

  // The rotator reaches the shard of `k` and rotates its tracker.
  lemma TurnSolo(env: Env, cfg: Config, threads: set<Tid>, s: Sys, k: Key)
    requires Reachable(env, cfg, threads, At(s, Resting)) && Solo(env, s, k)
    ensures
      var stale := if Rotate(s.objects[0].window).idleEpochs >= STALE_SWEEP_EPOCHS then [k] else [];
      Reachable(env, cfg, threads, At(Turned1(s, k), Turning(Bucket(env, k.metric), [], stale)))
  {
    hide Reachable, Sound, Rotate;
    var b := Bucket(env, k.metric);
    Reach(env, cfg, threads, At(s, Resting), StartRotation);
    assert Next(env, cfg, At(s, Resting), StartRotation) == At(s, SnapLocking(0));
    SkipTo(env, cfg, threads, s, 0, b);
    assert IsSnapshot(s.shards[b], [(k, 0)]) by {
      assert [(k, 0 as Id)][0] == (k, 0);
    }
    Snap(env, cfg, threads, s, b, [(k, 0)]);
    hide Bucket, Solo;
    var stale := if Rotate(s.objects[0].window).idleEpochs >= STALE_SWEEP_EPOCHS then [k] else [];
    var turned := s.objects[0].(window := Rotate(s.objects[0].window));
    assert [] + [k] == [k] && [(k, 0 as Id)][1..] == [] && s.objects[0 := turned] == [turned];
    Turn(env, cfg, threads, At(s, Turning(b, [(k, 0)], [])), [], At(Turned1(s, k), Turning(b, [], stale)));
  }

  lemma StaysSolo(env: Env, s: Sys, k: Key)
    requires Solo(env, s, k)
    ensures Solo(env, Turned1(s, k), k) && Quiet(Turned1(s, k))
    ensures forall b :: Bucket(env, k.metric) < b < NUM_SHARDS ==> s.shards[b] == map[]
  {
    hide Bucket, Rotate;
  }

  // A rotation that evicts nothing.
  lemma PassSolo(env: Env, cfg: Config, threads: set<Tid>, s: Sys, k: Key)
    requires Reachable(env, cfg, threads, At(s, Resting)) && Solo(env, s, k) && |s.objects| == 1
    requires Rotate(s.objects[0].window).idleEpochs < STALE_SWEEP_EPOCHS
    ensures Reachable(env, cfg, threads, At(Turned1(s, k), Resting)) && Solo(env, Turned1(s, k), k)
  {
    hide Reachable, Sound, Rotate, Bucket, Solo;
    var b, s' := Bucket(env, k.metric), Turned1(s, k);
    StaysSolo(env, s, k);
    TurnSolo(env, cfg, threads, s, k);
    Turn(env, cfg, threads, At(s', Turning(b, [], [])), [], At(s', NextShard(b)));
    SkipRest(env, cfg, threads, s', b);
  }

  ghost predicate InsertAppended(history: seq<Mark>, history': seq<Mark>, k: Key, h: Hash) {
    var n := |history|;
    && |history'| == n + 1 && history'[..n] == history
    && history'[n].Inserted? && history'[n].r.k == k && history'[n].r.h == h
  }

  // A call on a tracked pair: the fast path, up to the insert.
  lemma FastCall(env: Env, cfg: Config, threads: set<Tid>, s: Sys, t: Tid, k: Key, h: Hash, id: Id) returns (s': Sys)
    requires Reachable(env, cfg, threads, s) && Quiet(s) && t in s.threads && id < |s.objects|
    requires Maps(env, s, k, id) && Free(env, s, Bucket(env, k.metric))
    ensures Reachable(env, cfg, threads, s')
    ensures Quiet(s') && s'.threads.Keys == s.threads.Keys && s'.rotator == s.rotator && s'.shards == s.shards
    ensures |s'.objects| == |s.objects|
    ensures InsertAppended(s.history, s'.history, k, h)
  {
    hide Reachable, Sound, Insert, Exceeds;
    var r := Request(|s.calls|, k, h);
    var s0 := s.(calls := s.calls + [r]);
    assert Free(env, s0, Bucket(env, k.metric));
    LockEnabled(env, s0, t, r);
    hide Free, NoReader, NoWriter, Bucket;
    Reach(env, cfg, threads, s, Begin(t, k, h));
    assert Next(env, cfg, s, Begin(t, k, h)) == SetPc(s0, t, ReadLocking(r));
    Move(env, cfg, threads, SetPc(s0, t, ReadLocking(r)), t, SetPc(s0, t, Looking(r)));
    Move(env, cfg, threads, SetPc(s0, t, Looking(r)), t, SetPc(s0, t, Inserting(r, id)));
    Reach(env, cfg, threads, SetPc(s0, t, Inserting(r, id)), Step(t));
    s' := Next(env, cfg, SetPc(s0, t, Inserting(r, id)), Step(t));
  }

  // Goroutine `t` has created the only tracker, for `r.k`, and has not counted it yet.
  ghost predicate JustCreated(env: Env, s: Sys, t: Tid, r: Request) {
    var b := Bucket(env, r.k.metric);
    && t in s.threads && s.threads[t] == Counting(r, 0) && s.rotator == Resting
    && (forall u :: u in s.threads && u != t ==> s.threads[u] == Outside)
    && s.objects == [Object(r.k, EMPTY_WINDOW)]
    && |s.shards| == NUM_SHARDS && s.shards[b] == map[r.k := 0]
    && forall b' :: 0 <= b' < NUM_SHARDS && b' != b ==> s.shards[b'] == map[]
  }

  lemma InitialIsReachable(env: Env, cfg: Config, threads: set<Tid>, b: nat)
    ensures Reachable(env, cfg, threads, Initial(threads)) && Free(env, Initial(threads), b)
  {
    assert Exec(env, cfg, threads, []) == Some(Initial(threads)) by {
      hide Good;
    }
    hide Exec, Good;
  }

  lemma FirstTracker(env: Env, cfg: Config, threads: set<Tid>, t: Tid, k: Key, h: Hash) returns (s: Sys)
    requires t in threads
    ensures Reachable(env, cfg, threads, s) && s.threads.Keys == threads
    ensures JustCreated(env, s, t, Request(0, k, h))
  {
    hide Reachable, Sound, Free, Bucket;
    var s0 := Initial(threads);
    InitialIsReachable(env, cfg, threads, Bucket(env, k.metric));
    var s1 := ToCreating(env, cfg, threads, s0, t, k, h);
    CreatesFirst(env, cfg, s1, t, Request(0, k, h));
    hide Next, JustCreated;
    Reach(env, cfg, threads, s1, Step(t));
    s := Next(env, cfg, s1, Step(t));
  }

  lemma CreatesFirst(env: Env, cfg: Config, s: Sys, t: Tid, r: Request)
    requires t in s.threads && s.threads[t] == Creating(r) && s.rotator == Resting
    requires forall u :: u in s.threads && u != t ==> s.threads[u] == Outside
    requires s.objects == [] && |s.shards| == NUM_SHARDS
    requires forall b :: 0 <= b < NUM_SHARDS ==> s.shards[b] == map[]
    ensures Enabled(env, s, Step(t))
    ensures var s' := StepThread(env, cfg, s, t);
      JustCreated(env, s', t, r) && s'.threads.Keys == s.threads.Keys
  {
    hide Bucket;
  }

  lemma FinishCall(env: Env, cfg: Config, threads: set<Tid>, s: Sys, t: Tid, r: Request) returns (s': Sys)
    requires Reachable(env, cfg, threads, s) && JustCreated(env, s, t, r)
    ensures Reachable(env, cfg, threads, s') && Solo(env, s', r.k) && s'.rotator == Resting
    ensures s'.threads.Keys == s.threads.Keys
    ensures s'.objects[0].window == Insert(env.est, EMPTY_WINDOW, r.h)
  {
    hide Reachable, Sound, Insert, Exceeds, Bucket;
    var s1 := SetPc(s, t, WriteUnlocking(r, 0)).(trackerCount := s.trackerCount + 1);
    var s2 := SetPc(s1, t, Inserting(r, 0));
    Move(env, cfg, threads, s, t, s1);
    Move(env, cfg, threads, s1, t, s2);
    Reach(env, cfg, threads, s2, Step(t));
    s' := Next(env, cfg, s2, Step(t));
  }

  // From a first call on `k` by goroutine `t`, alone in the system.
  lemma FirstCall(env: Env, cfg: Config, threads: set<Tid>, t: Tid, k: Key, h: Hash) returns (s: Sys)
    requires t in threads
    ensures Reachable(env, cfg, threads, s) && Solo(env, s, k) && s.rotator == Resting && s.threads.Keys == threads
    ensures s.objects[0].window.insertCount == 1 && s.objects[0].window.idleEpochs == 0
  {
    hide Reachable, JustCreated;
    var s0 := FirstTracker(env, cfg, threads, t, k, h);
    s := FinishCall(env, cfg, threads, s0, t, Request(0, k, h));
  }

  // In every configuration and for every pair there is a run in which a completed, not refused call
  // of the current epoch is in no live tracker: it inserted after the last rotation of the evicted
  // tracker, and its pair is untracked again.
  lemma CompletedInsertCanBeLost(env: Env, cfg: Config, threads: set<Tid>, t: Tid, k: Key, h: Hash)
    requires t in threads
    ensures exists s ::
      && Reachable(env, cfg, threads, s)
      && KeyEpoch(s.history, k, 0) == [h]
      && |s.shards| == NUM_SHARDS && k !in s.shards[Bucket(env, k.metric)]
      && !NothingStranded(env, s)
  {
    hide Reachable;
    var b := Bucket(env, k.metric);
    var s0 := FirstCall(env, cfg, threads, t, k, h);
    PassSolo(env, cfg, threads, s0, k);
    var s1 := Turned1(s0, k);
    PassSolo(env, cfg, threads, s1, k);
    var s2 := Turned1(s1, k);
    TurnSolo(env, cfg, threads, s2, k);
    var s3 := At(Turned1(s2, k), Turning(b, [], [k]));
    var s4 := At(Turned1(s2, k), SweepLocking(b, [k]));
    Turn(env, cfg, threads, s3, [], s4);
    QuietIsFree(env, s4, b);
    var s5 := FastCall(env, cfg, threads, s4, t, k, h, 0);
    QuietIsFree(env, s5, b);
    Turn(env, cfg, threads, s5, [], At(s5, Deleting(b, [k])));
    var s6 := StepRotation(At(s5, Deleting(b, [k])), []);
    Turn(env, cfg, threads, At(s5, Deleting(b, [k])), [], s6);
    KeyEpochAtEnd(s4.history, s2.history, s5.history, s6.history, k, h);
    UntrackedIsStranded(env, cfg, threads, s6, k);
  }

  // The inserts of an untracked pair are stranded.
  lemma UntrackedIsStranded(env: Env, cfg: Config, threads: set<Tid>, s: Sys, k: Key)
    requires Reachable(env, cfg, threads, s) && |s.shards| == NUM_SHARDS
    requires k !in s.shards[Bucket(env, k.metric)] && KeyEpoch(s.history, k, 0) != []
    ensures !NothingStranded(env, s)
  {
    ReachableIsGood(env, cfg, threads, s);
    assert Windows(env, s);
    hide Reachable, Good, Share, KeyEpoch, WindowOk, MarkOk, Bucket;
    var id := 0;
    SharesMakeEpoch(s.history, k, id, 0);
    if Share(s.history, k, id, true, 0) == [] {
      id := Elsewhere(s.history, k, id, 0);
    }
    ShareIsMarked(s, s.history, k, id, 0);
    assert Stranded(env, s, id);
  }

  lemma KeyEpochAtEnd(turned: seq<Mark>, before: seq<Mark>, inserted: seq<Mark>, evicted: seq<Mark>, k: Key, h: Hash)
    requires turned == before + [Turned(k, 0)]
    requires InsertAppended(turned, inserted, k, h)
    requires evicted == inserted + [Evicted(k)]
    ensures KeyEpoch(evicted, k, 0) == [h]
  {
    assert evicted[..|inserted|] == inserted && turned[..|before|] == before;
    assert KeyEpoch(turned, k, 0) == [];
    assert KeyEpoch(inserted, k, 0) == [] + [h];
  }
}
