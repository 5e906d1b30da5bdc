// The life of a tracker: from the moment it is created it is the one its pair maps to, until it has
// been idle for two epochs and is evicted, after which it is never mapped again.
module Retirement {
  import opened Interleaving
  import opened Linearization
  import opened Settings
  import opened SlidingWindow

  // How often tracker `id` has been rotated.
  ghost function TurnsOf(history: seq<Mark>, id: Id): nat {
    if history == [] then 0 else
    var m := history[|history| - 1];
    TurnsOf(history[..|history| - 1], id) + if m.Turned? && m.id == id then 1 else 0
  }

  // Tracker `id` of pair `k` has been rotated, and later the pair was evicted.
  ghost predicate Retired(history: seq<Mark>, k: Key, id: Id) {
    history != [] &&
    (var rest := history[..|history| - 1];
     Retired(rest, k, id) || (history[|history| - 1] == Evicted(k) && Turned(k, id) in rest))
  }

  ghost predicate OnTracker(m: Mark, id: Id) {
    !m.Evicted? && m.id == id
  }

  // Since its first mark, only this tracker of the pair has been rotated.
  ghost predicate Unsuperseded(history: seq<Mark>, k: Key, id: Id) {
    forall i, j :: 0 <= i < j < |history| && OnTracker(history[i], id) && history[j].Turned? && history[j].k == k ==>
      history[j].id == id
  }

  // Exactly as many rotations in a row have found the tracker idle as it counts.
  ghost predicate Rested(history: seq<Mark>, id: Id, w: Window) {
    && w.idleEpochs <= TurnsOf(history, id)
    && (forall ago: nat :: 1 <= ago <= w.idleEpochs ==> IdEpoch(history, id, ago) == [])
    && (w.idleEpochs < TurnsOf(history, id) ==> IdEpoch(history, id, w.idleEpochs + 1) != [])
  }

  function StaleKeys(rot: RotatorPc): seq<Key> {
    match rot
    case Turning(_, _, stale) => stale
    case SweepLocking(_, stale) => stale
    case Deleting(_, stale) => stale
    case Uncounting(_, stale) => stale
    case _ => []
  }

  ghost predicate LifeOk(env: Env, s: Sys, id: Id)
    requires |s.shards| == NUM_SHARDS && id < |s.objects|
  {
    var k := s.objects[id].key;
    && Rested(s.history, id, s.objects[id].window)
    && (Maps(env, s, k, id) <==> !Retired(s.history, k, id))
    && (Maps(env, s, k, id) ==> Unsuperseded(s.history, k, id))
    && (Maps(env, s, k, id) ==>
          (k in StaleKeys(s.rotator) <==> s.objects[id].window.idleEpochs >= STALE_SWEEP_EPOCHS))
  }

  ghost predicate Lives(env: Env, s: Sys) {
    && |s.shards| == NUM_SHARDS
    && forall id :: 0 <= id < |s.objects| ==> LifeOk(env, s, id)
  }

  lemma TurnsSnoc(history: seq<Mark>, m: Mark, id: Id)
    ensures TurnsOf(history + [m], id) == TurnsOf(history, id) + if m.Turned? && m.id == id then 1 else 0
  {
    assert (history + [m])[..|history|] == history;
  }

  lemma RetiredSnoc(history: seq<Mark>, m: Mark, k: Key, id: Id)
    ensures Retired(history + [m], k, id) <==> Retired(history, k, id) || (m == Evicted(k) && Turned(k, id) in history)
  {
    assert (history + [m])[..|history|] == history;
  }

  lemma UnsupersededSnoc(history: seq<Mark>, m: Mark, k: Key, id: Id)
    requires Unsuperseded(history, k, id) && (m.Turned? && m.k == k ==> m.id == id)
    ensures Unsuperseded(history + [m], k, id)
  {
    hide OnTracker;
  }

  lemma {:induction false} TurnsAreMarked(s: Sys, history: seq<Mark>, id: Id)
    requires forall i :: 0 <= i < |history| ==> MarkOk(s, history[i])
    requires TurnsOf(history, id) > 0
    ensures id < |s.objects| && Turned(s.objects[id].key, id) in history
  {
    var rest, m := history[..|history| - 1], history[|history| - 1];
    assert MarkOk(s, m);
    if !(m.Turned? && m.id == id) {
      TurnsAreMarked(s, rest, id);
    }
  }

  lemma {:induction false} FreshLife(history: seq<Mark>, k: Key, id: Id)
    requires forall i :: 0 <= i < |history| ==> !OnTracker(history[i], id)
    ensures TurnsOf(history, id) == 0 && !Retired(history, k, id)
    ensures Unsuperseded(history, k, id)
  {
    if history != [] {
      var rest := history[..|history| - 1];
      FreshLife(rest, k, id);
      forall i | 0 <= i < |rest| ensures rest[i] != Turned(k, id) {
        assert !OnTracker(history[i], id);
      }
    }
  }

  // ---------------------------------------------------------------------------------------------
  // Steps.

  lemma SameLives(env: Env, s: Sys, s': Sys)
    requires Lives(env, s)
    requires s'.history == s.history && s'.shards == s.shards && s'.objects == s.objects
    requires forall k :: k in StaleKeys(s'.rotator) <==> k in StaleKeys(s.rotator)
    ensures Lives(env, s')
  {
    hide Rested, Retired, Unsuperseded, StaleKeys, Bucket;
    forall id | 0 <= id < |s'.objects| ensures LifeOk(env, s', id) {
      assert LifeOk(env, s, id);
    }
  }

  // A new tracker for an untracked pair.
  lemma CreatedLives(env: Env, s: Sys, s': Sys, k: Key)
    requires Lives(env, s) && Windows(env, s) && Routed(env, s) && RotatorOk(env, s)
    requires s'.history == s.history && s'.rotator == s.rotator
    requires
      var b, id := Bucket(env, k.metric), |s.objects|;
      && k !in s.shards[b] && s'.objects == s.objects + [Object(k, EMPTY_WINDOW)]
      && |s'.shards| == NUM_SHARDS && (forall b' :: 0 <= b' < NUM_SHARDS && b' != b ==> s'.shards[b'] == s.shards[b'])
      && k in s'.shards[b] && s'.shards[b][k] == id
      && forall k' :: k' != k ==>
           (k' in s'.shards[b] <==> k' in s.shards[b]) && (k' in s.shards[b] ==> s'.shards[b][k'] == s.shards[b][k'])
    ensures Lives(env, s')
  {
    hide Bucket, Rested, Retired, Unsuperseded, StaleKeys, Windows, Routed, RotatorOk;
    forall id | 0 <= id < |s'.objects| ensures LifeOk(env, s', id) {
      if id < |s.objects| {
        assert LifeOk(env, s, id);
      } else {
        NewLife(env, s, k);
      }
    }
  }

  lemma StaleIsMapped(env: Env, s: Sys, k: Key)
    requires Routed(env, s) && RotatorOk(env, s)
    ensures k in StaleKeys(s.rotator) ==> k in s.shards[Bucket(env, k.metric)]
  {
    if k in StaleKeys(s.rotator) {
      var b := s.rotator.b;
      assert k in s.shards[b];
      assert InPlace(env, s, b, k, s.shards[b][k]);
    }
  }

  lemma NewLife(env: Env, s: Sys, k: Key)
    requires Windows(env, s) && Routed(env, s) && RotatorOk(env, s)
    requires k !in s.shards[Bucket(env, k.metric)]
    ensures Rested(s.history, |s.objects|, EMPTY_WINDOW)
    ensures !Retired(s.history, k, |s.objects|) && Unsuperseded(s.history, k, |s.objects|)
    ensures k !in StaleKeys(s.rotator)
  {
    hide Bucket, Retired, Unsuperseded, WindowOk;
    forall i | 0 <= i < |s.history| ensures !OnTracker(s.history[i], |s.objects|) {
      assert MarkOk(s, s.history[i]);
    }
    FreshLife(s.history, k, |s.objects|);
    StaleIsMapped(env, s, k);
  }

  lemma RestedInsert(history: seq<Mark>, m: Mark, id: Id, w: Window, w': Window)
    requires Rested(history, id, w) && m.Inserted? && w'.idleEpochs == w.idleEpochs
    ensures Rested(history + [m], id, w')
  {
    TurnsSnoc(history, m, id);
    forall ago: nat | 1 <= ago ensures IdEpoch(history + [m], id, ago) == IdEpoch(history, id, ago) {
      IdEpochSnoc(history, m, id, ago);
    }
    hide *;
  }

  lemma InsertedLives(env: Env, s: Sys, s': Sys, m: Mark, id: Id, w: Window)
    requires Lives(env, s) && m.Inserted? && id < |s.objects| && w.idleEpochs == s.objects[id].window.idleEpochs
    requires s'.history == s.history + [m] && s'.shards == s.shards && s'.rotator == s.rotator
    requires s'.objects == s.objects[id := s.objects[id].(window := w)]
    ensures Lives(env, s')
  {
    hide Bucket, Rested, Retired, Unsuperseded, StaleKeys;
    forall j | 0 <= j < |s'.objects| ensures LifeOk(env, s', j) {
      var k := s.objects[j].key;
      assert LifeOk(env, s, j);
      RestedInsert(s.history, m, j, s.objects[j].window, s'.objects[j].window);
      RetiredSnoc(s.history, m, k, j);
      if Maps(env, s, k, j) {
        UnsupersededSnoc(s.history, m, k, j);
      }
    }
  }

  lemma RestedTurn(env: Env, history: seq<Mark>, k: Key, id: Id, j: Id, w: Window)
    requires Rested(history, j, w) && WindowOk(env, history, j, w)
    ensures Rested(history + [Turned(k, id)], j, if j == id then Rotate(w) else w)
  {
    var m := Turned(k, id);
    var w' := if j == id then Rotate(w) else w;
    hide IdEpoch, TurnsOf;
    TurnsSnoc(history, m, j);
    forall ago: nat | 1 <= ago
      ensures IdEpoch(history + [m], j, ago) == IdEpoch(history, j, if j == id then ago - 1 else ago)
    {
      IdEpochSnoc(history, m, j, ago);
    }
  }

  // The rotator turns the mapped tracker of `k`, and lists it if it is idle for long enough.
  lemma TurnedLives(env: Env, s: Sys, s': Sys, k: Key, id: Id)
    requires Lives(env, s) && Windows(env, s) && id < |s.objects| && s.objects[id].key == k && Maps(env, s, k, id)
    requires s'.history == s.history + [Turned(k, id)] && s'.shards == s.shards
    requires s'.objects == s.objects[id := s.objects[id].(window := Rotate(s.objects[id].window))]
    requires k !in StaleKeys(s.rotator)
    requires forall k' :: k' in StaleKeys(s'.rotator) <==>
      k' in StaleKeys(s.rotator) || (k' == k && s'.objects[id].window.idleEpochs >= STALE_SWEEP_EPOCHS)
    ensures Lives(env, s')
  {
    hide Bucket, Rested, Retired, Unsuperseded, StaleKeys, Rotate, WindowOk;
    var m := Turned(k, id);
    forall j | 0 <= j < |s'.objects| ensures LifeOk(env, s', j) {
      assert LifeOk(env, s, j);
      RestedTurn(env, s.history, k, id, j, s.objects[j].window);
      RetiredSnoc(s.history, m, s.objects[j].key, j);
      if Maps(env, s, s.objects[j].key, j) {
        UnsupersededSnoc(s.history, m, s.objects[j].key, j);
      }
    }
  }

  lemma RestedEvict(history: seq<Mark>, k: Key, id: Id, w: Window)
    requires Rested(history, id, w)
    ensures Rested(history + [Evicted(k)], id, w)
  {
    var m := Evicted(k);
    TurnsSnoc(history, m, id);
    forall ago: nat ensures IdEpoch(history + [m], id, ago) == IdEpoch(history, id, ago) {
      IdEpochSnoc(history, m, id, ago);
    }
    hide *;
  }

  lemma EvictedLives(env: Env, s: Sys, s': Sys, k: Key, id: Id)
    requires Lives(env, s) && Windows(env, s) && id < |s.objects| && s.objects[id].key == k && Maps(env, s, k, id)
    requires k in StaleKeys(s.rotator)
    requires s'.history == s.history + [Evicted(k)] && s'.objects == s.objects
    requires forall k' :: k' in StaleKeys(s'.rotator) <==> k' in StaleKeys(s.rotator) && k' != k
    requires
      var b := Bucket(env, k.metric);
      && |s'.shards| == NUM_SHARDS && (forall b' :: 0 <= b' < NUM_SHARDS && b' != b ==> s'.shards[b'] == s.shards[b'])
      && s'.shards[b] == s.shards[b] - {k}
    ensures Lives(env, s')
  {
    hide Bucket, Rested, Retired, Unsuperseded, StaleKeys;
    MappedAndStale(env, s, id);
    forall j | 0 <= j < |s'.objects| ensures LifeOk(env, s', j) {
      var k' := s.objects[j].key;
      assert LifeOk(env, s, j);
      RestedEvict(s.history, k, j, s.objects[j].window);
      RetiredSnoc(s.history, Evicted(k), k', j);
      if Maps(env, s, k', j) {
        UnsupersededSnoc(s.history, Evicted(k), k', j);
      }
    }
  }

  // The tracker that is about to be evicted has been rotated at least twice, and got no insert in the
  // last two full epochs.
  lemma MappedAndStale(env: Env, s: Sys, id: Id)
    requires Lives(env, s) && Windows(env, s) && id < |s.objects|
    requires Maps(env, s, s.objects[id].key, id) && s.objects[id].key in StaleKeys(s.rotator)
    ensures TurnsOf(s.history, id) >= 2 && Turned(s.objects[id].key, id) in s.history
    ensures IdEpoch(s.history, id, 1) == [] && IdEpoch(s.history, id, 2) == []
  {
    hide Bucket, Retired, Unsuperseded, StaleKeys, TurnsOf, IdEpoch, WindowOk, MarkOk;
    assert LifeOk(env, s, id);
    TurnsAreMarked(s, s.history, id);
  }

  lemma StepLives(env: Env, cfg: Config, s: Sys, t: Tid)
    requires Sound(env, s) && Windows(env, s) && Lives(env, s) && Enabled(env, s, Step(t))
    ensures Lives(env, Next(env, cfg, s, Step(t)))
  {
    hide Exclusive, Windows, Lives, Bucket, NoWriter, NoReader, Exceeds, RotatorOk;
    var s', pc := Next(env, cfg, s, Step(t)), s.threads[t];
    assert PcOk(env, s, pc);
    if pc.Creating? {
      CreatedLives(env, s, s', pc.r.k);
    } else if pc.Inserting? {
      InsertedLives(env, s, s', s'.history[|s.history|], pc.id, s'.objects[pc.id].window);
    } else {
      hide PcOk;
      SameLives(env, s, s');
    }
  }

  lemma TurnLives(env: Env, cfg: Config, s: Sys, a: Action)
    requires Sound(env, s) && Windows(env, s) && Lives(env, s)
    requires a.StepRotator? && s.rotator.Turning? && s.rotator.todo != []
    ensures Lives(env, Next(env, cfg, s, a))
  {
    hide Exclusive, Windows, Lives, Rotate, StaleOk, PcOk;
    var Turning(b, todo, stale) := s.rotator;
    var (k, id) := todo[0];
    assert InPlace(env, s, b, k, s.shards[b][k]);
    TurnedLives(env, s, Next(env, cfg, s, a), k, id);
  }

  lemma EvictLives(env: Env, cfg: Config, s: Sys, a: Action)
    requires Sound(env, s) && Windows(env, s) && Lives(env, s)
    requires a.StepRotator? && s.rotator.Deleting? && s.rotator.stale != []
    ensures Lives(env, Next(env, cfg, s, a))
  {
    hide Exclusive, Windows, Lives, PcOk;
    var Deleting(b, stale) := s.rotator;
    var k := stale[0];
    assert InPlace(env, s, b, k, s.shards[b][k]);
    EvictedLives(env, s, Next(env, cfg, s, a), k, s.shards[b][k]);
  }

  lemma OtherLives(env: Env, cfg: Config, s: Sys, a: Action)
    requires Sound(env, s) && Lives(env, s) && Enabled(env, s, a) && !a.Step?
    requires !(a.StepRotator? && s.rotator.Turning? && s.rotator.todo != [])
    requires !(a.StepRotator? && s.rotator.Deleting? && s.rotator.stale != [])
    ensures Lives(env, Next(env, cfg, s, a))
  {
    hide Exclusive, Routed, RotatorOk, PcOk, Lives, Bucket, NoWriter, NoReader, IsSnapshot;
    SameLives(env, s, Next(env, cfg, s, a));
  }

  lemma LivesAlways(env: Env, cfg: Config, s: Sys, a: Action)
    requires Sound(env, s) && Windows(env, s) && Lives(env, s) && Enabled(env, s, a)
    ensures Lives(env, Next(env, cfg, s, a))
  {
    hide Sound, Windows, Lives, Next;
    if a.Step? {
      StepLives(env, cfg, s, a.t);
    } else if a.StepRotator? && s.rotator.Turning? && s.rotator.todo != [] {
      TurnLives(env, cfg, s, a);
    } else if a.StepRotator? && s.rotator.Deleting? && s.rotator.stale != [] {
      EvictLives(env, cfg, s, a);
    } else {
      OtherLives(env, cfg, s, a);
    }
  }
}
