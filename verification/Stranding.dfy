// When an insert is lost to an eviction, when it is not, and what that means for the tracker that is
// live: it holds the inserts of its pair, and decides on them, exactly if none of them is stranded.
module Stranding {
  import opened Hashing
  import opened Interleaving
  import opened Linearization
  import opened Retirement
  import opened Settings
  import opened SlidingWindow

  // The specification, by pair instead of by tracker: the hashes inserted for `k` in the epoch `ago`
  // of its rotations back.
  ghost function KeyEpoch(history: seq<Mark>, k: Key, ago: nat): seq<Hash> {
    if history == [] then [] else
    var rest := history[..|history| - 1];
    match history[|history| - 1]
    case Inserted(r, _, _) =>
      if r.k == k && ago == 0 then KeyEpoch(rest, k, 0) + [r.h] else KeyEpoch(rest, k, ago)
    case Turned(k', _) =>
      if k' != k then KeyEpoch(rest, k, ago) else if ago == 0 then [] else KeyEpoch(rest, k, ago - 1)
    case Evicted(_) => KeyEpoch(rest, k, ago)
  }

  // Those of them that went into tracker `id`, or those that went elsewhere.
  ghost function Share(history: seq<Mark>, k: Key, id: Id, here: bool, ago: nat): seq<Hash> {
    if history == [] then [] else
    var rest := history[..|history| - 1];
    match history[|history| - 1]
    case Inserted(r, id', _) =>
      if r.k == k && (id' == id) == here && ago == 0 then Share(rest, k, id, here, 0) + [r.h]
      else Share(rest, k, id, here, ago)
    case Turned(k', _) =>
      if k' != k then Share(rest, k, id, here, ago)
      else if ago == 0 then [] else Share(rest, k, id, here, ago - 1)
    case Evicted(_) => Share(rest, k, id, here, ago)
  }

  lemma ShareSnoc(history: seq<Mark>, m: Mark, k: Key, id: Id, here: bool, ago: nat)
    ensures Share(history + [m], k, id, here, ago) ==
      match m
      case Inserted(r, id', _) =>
        if r.k == k && (id' == id) == here && ago == 0 then Share(history, k, id, here, 0) + [r.h]
        else Share(history, k, id, here, ago)
      case Turned(k', _) =>
        if k' != k then Share(history, k, id, here, ago)
        else if ago == 0 then [] else Share(history, k, id, here, ago - 1)
      case Evicted(_) => Share(history, k, id, here, ago)
  {
    assert (history + [m])[..|history|] == history;
  }

  lemma {:induction false} SharesMakeEpoch(history: seq<Mark>, k: Key, id: Id, ago: nat)
    ensures KeyEpoch(history, k, ago) == Share(history, k, id, true, ago) <==> Share(history, k, id, false, ago) == []
    ensures |KeyEpoch(history, k, ago)| == |Share(history, k, id, true, ago)| + |Share(history, k, id, false, ago)|
  {
    if history != [] {
      SharesMakeEpoch(history[..|history| - 1], k, id, ago);
      if ago > 0 {
        SharesMakeEpoch(history[..|history| - 1], k, id, ago - 1);
      }
    }
  }

  // What went elsewhere went into some other tracker.
  lemma {:induction false} Elsewhere(history: seq<Mark>, k: Key, id: Id, ago: nat) returns (id': Id)
    requires Share(history, k, id, false, ago) != []
    ensures id' != id && Share(history, k, id', true, ago) != []
  {
    var rest, m := history[..|history| - 1], history[|history| - 1];
    if m.Inserted? && m.r.k == k && m.id != id && ago == 0 {
      id' := m.id;
    } else if m.Turned? && m.k == k {
      id' := Elsewhere(rest, k, id, ago - 1);
    } else {
      id' := Elsewhere(rest, k, id, ago);
    }
  }

  lemma {:induction false} NotElsewhere(history: seq<Mark>, k: Key, id: Id, id': Id, ago: nat)
    requires Share(history, k, id, false, ago) == [] && id' != id
    ensures Share(history, k, id', true, ago) == []
  {
    if history != [] {
      var rest, m := history[..|history| - 1], history[|history| - 1];
      if m.Turned? && m.k == k {
        if ago > 0 {
          NotElsewhere(rest, k, id, id', ago - 1);
        }
      } else {
        NotElsewhere(rest, k, id, id', ago);
      }
    }
  }

  lemma {:induction false} ShareIsMarked(s: Sys, history: seq<Mark>, k: Key, id: Id, ago: nat)
    requires forall i :: 0 <= i < |history| ==> MarkOk(s, history[i])
    requires Share(history, k, id, true, ago) != []
    ensures id < |s.objects| && s.objects[id].key == k
  {
    var rest, m := history[..|history| - 1], history[|history| - 1];
    assert MarkOk(s, m);
    if m.Inserted? && m.r.k == k && m.id == id {
    } else if m.Turned? && m.k == k {
      ShareIsMarked(s, rest, k, id, ago - 1);
    } else {
      ShareIsMarked(s, rest, k, id, ago);
    }
  }

  // The epochs of a tracker that is still mapped are those of its pair.
  lemma {:induction false} ShareIsIdEpoch(s: Sys, history: seq<Mark>, id: Id, ago: nat)
    requires forall i :: 0 <= i < |history| ==> MarkOk(s, history[i])
    requires id < |s.objects| && Unsuperseded(history, s.objects[id].key, id)
    ensures Share(history, s.objects[id].key, id, true, ago) == IdEpoch(history, id, ago)
  {
    if history != [] {
      var k, rest, m := s.objects[id].key, history[..|history| - 1], history[|history| - 1];
      assert MarkOk(s, m);
      ShareIsIdEpoch(s, rest, id, ago);
      if m.Turned? && m.k == k {
        if ago > 0 {
          ShareIsIdEpoch(s, rest, id, ago - 1);
        }
        if m.id != id {
          forall i | 0 <= i < |rest| ensures rest[i].Evicted? || rest[i].id != id {
            assert !OnTracker(history[i], id);
          }
          UnusedId(rest, id, ago);
          if ago > 0 {
            UnusedId(rest, id, ago - 1);
          }
        }
      }
    }
  }

  // ---------------------------------------------------------------------------------------------
  // Stranded inserts.

  // Inserts of the current or previous epoch of its pair are in a tracker that is no longer mapped.
  ghost predicate Stranded(env: Env, s: Sys, id: Id)
    requires |s.shards| == NUM_SHARDS && id < |s.objects|
  {
    var k := s.objects[id].key;
    !Maps(env, s, k, id) && (Share(s.history, k, id, true, 0) != [] || Share(s.history, k, id, true, 1) != [])
  }

  ghost predicate NothingStranded(env: Env, s: Sys)
    requires |s.shards| == NUM_SHARDS
  {
    forall id :: 0 <= id < |s.objects| ==> !Stranded(env, s, id)
  }

  // The two ways of losing an insert: to evict a tracker that has been inserted into since it was
  // found idle, and to insert into a tracker that has been evicted.
  ghost predicate Strands(env: Env, s: Sys, a: Action)
    requires Sound(env, s) && Enabled(env, s, a)
  {
    || (a.Step? && s.threads[a.t].Inserting? && !Maps(env, s, s.threads[a.t].r.k, s.threads[a.t].id))
    || (a.StepRotator? && s.rotator.Deleting? && s.rotator.stale != [] && !Untouched(s, s.rotator.b, s.rotator.stale[0]))
  }

  ghost predicate Untouched(s: Sys, b: nat, k: Key) {
    b < |s.shards| && k in s.shards[b] && s.shards[b][k] < |s.objects|
    && s.objects[s.shards[b][k]].window.insertCount == 0
  }

  lemma MappedShare(env: Env, s: Sys, id: Id, ago: nat)
    requires Windows(env, s) && Lives(env, s) && id < |s.objects| && Maps(env, s, s.objects[id].key, id)
    ensures Share(s.history, s.objects[id].key, id, true, ago) == IdEpoch(s.history, id, ago)
  {
    hide Rested, Retired, Unsuperseded, MarkOk, WindowOk, Bucket;
    assert LifeOk(env, s, id);
    ShareIsIdEpoch(s, s.history, id, ago);
  }

  // No mark, no new loss.
  lemma StrandedUnmarked(env: Env, s: Sys, s': Sys, id: Id)
    requires |s.shards| == |s'.shards| == NUM_SHARDS && s'.history == s.history && Windows(env, s)
    requires |s.objects| <= |s'.objects| && id < |s'.objects|
    requires id < |s.objects| ==>
      s'.objects[id].key == s.objects[id].key
      && (Maps(env, s', s.objects[id].key, id) <==> Maps(env, s, s.objects[id].key, id))
    requires id < |s.objects| ==> !Stranded(env, s, id)
    ensures !Stranded(env, s', id)
  {
    hide Share, Maps, WindowOk, MarkOk;
    if id >= |s.objects| && Stranded(env, s', id) {
      var ago := if Share(s.history, s'.objects[id].key, id, true, 0) != [] then 0 else 1;
      ShareIsMarked(s, s.history, s'.objects[id].key, id, ago);
    }
  }

  lemma StrandedMarked(env: Env, s: Sys, s': Sys, m: Mark, id: Id)
    requires |s.shards| == |s'.shards| == NUM_SHARDS && s'.history == s.history + [m]
    requires id < |s.objects| == |s'.objects| && s'.objects[id].key == s.objects[id].key && !Stranded(env, s, id)
    requires m.Inserted? || m.Turned?
    requires s'.shards == s.shards
    requires m.Turned? ==> Maps(env, s, m.k, m.id)
    requires MarkOk(s, m)
    ensures Stranded(env, s', id) <==> m.Inserted? && m.id == id && !Maps(env, s, m.r.k, id)
  {
    var k := s.objects[id].key;
    ShareSnoc(s.history, m, k, id, true, 0);
    ShareSnoc(s.history, m, k, id, true, 1);
    hide Share;
  }

  // An eviction strands what its tracker has got in the current epoch, if anything.
  lemma StrandedEvicted(env: Env, s: Sys, s': Sys, k: Key, gone: Id, id: Id)
    requires Windows(env, s) && Lives(env, s) && Routed(env, s)
    requires |s'.shards| == NUM_SHARDS && s'.history == s.history + [Evicted(k)] && s'.objects == s.objects
    requires gone < |s.objects| && s.objects[gone].key == k && Maps(env, s, k, gone) && k in StaleKeys(s.rotator)
    requires id < |s.objects| && !Stranded(env, s, id)
    requires forall k' :: k' != k ==> (Maps(env, s', k', id) <==> Maps(env, s, k', id))
    requires !Maps(env, s', k, id)
    ensures Stranded(env, s', id) <==> id == gone && s.objects[gone].window.insertCount > 0
  {
    hide Share, IdEpoch, TurnsOf, StaleKeys, Lives, Bucket;
    var k' := s.objects[id].key;
    ShareSnoc(s.history, Evicted(k), k', id, true, 0);
    ShareSnoc(s.history, Evicted(k), k', id, true, 1);
    MappedAndStale(env, s, gone);
    MappedShare(env, s, gone, 0);
    MappedShare(env, s, gone, 1);
    assert WindowOk(env, s.history, gone, s.objects[gone].window);
  }

  lemma StrandEvict(env: Env, cfg: Config, s: Sys, a: Action)
    requires Sound(env, s) && Windows(env, s) && Lives(env, s) && NothingStranded(env, s)
    requires a.StepRotator? && s.rotator.Deleting? && s.rotator.stale != []
    ensures var s' := Next(env, cfg, s, a);
      |s'.shards| == NUM_SHARDS && (NothingStranded(env, s') <==> !Strands(env, s, a))
  {
    hide Exclusive, Windows, Lives, PcOk, Stranded;
    var Deleting(b, stale) := s.rotator;
    var k, s' := stale[0], Next(env, cfg, s, a);
    var gone := s.shards[b][k];
    assert InPlace(env, s, b, k, gone);
    forall id | 0 <= id < |s.objects|
      ensures Stranded(env, s', id) <==> id == gone && s.objects[gone].window.insertCount > 0
    {
      StrandedEvicted(env, s, s', k, gone, id);
    }
    assert !Stranded(env, s', gone) <==> Untouched(s, b, k);
  }

  lemma StrandInsert(env: Env, cfg: Config, s: Sys, t: Tid)
    requires Sound(env, s) && NothingStranded(env, s) && Enabled(env, s, Step(t)) && s.threads[t].Inserting?
    ensures var s' := Next(env, cfg, s, Step(t));
      |s'.shards| == NUM_SHARDS && (NothingStranded(env, s') <==> !Strands(env, s, Step(t)))
  {
    var s', pc := Next(env, cfg, s, Step(t)), s.threads[t];
    assert PcOk(env, s, pc);
    assert pc.id < |s.objects| && s.objects[pc.id].key == pc.r.k;
    hide Exclusive, PcOk, RotatorOk, Stranded, Insert, Exceeds, Bucket, NoReader, NoWriter;
    forall id | 0 <= id < |s.objects|
      ensures Stranded(env, s', id) <==> id == pc.id && !Maps(env, s, pc.r.k, pc.id)
    {
      StrandedMarked(env, s, s', s'.history[|s.history|], id);
    }
    assert Stranded(env, s', pc.id) <==> !Maps(env, s, pc.r.k, pc.id);
  }

  lemma StrandTurn(env: Env, cfg: Config, s: Sys, a: Action)
    requires Sound(env, s) && NothingStranded(env, s)
    requires a.StepRotator? && s.rotator.Turning? && s.rotator.todo != []
    ensures var s' := Next(env, cfg, s, a); |s'.shards| == NUM_SHARDS && NothingStranded(env, s')
  {
    hide Exclusive, PcOk, Stranded, StaleOk, Rotate;
    var s' := Next(env, cfg, s, a);
    var (k, id) := s.rotator.todo[0];
    assert InPlace(env, s, s.rotator.b, k, s.shards[s.rotator.b][k]);
    forall id' | 0 <= id' < |s.objects| ensures !Stranded(env, s', id') {
      StrandedMarked(env, s, s', Turned(k, id), id');
    }
  }

  // Any other step keeps the mapping of every tracker there was.
  lemma SameMapping(env: Env, cfg: Config, s: Sys, a: Action, k: Key, id: Id)
    requires Sound(env, s) && Enabled(env, s, a) && id < |s.objects|
    requires !(a.StepRotator? && s.rotator.Deleting? && s.rotator.stale != [])
    ensures var s' := Next(env, cfg, s, a);
      |s'.shards| == NUM_SHARDS && (Maps(env, s', k, id) <==> Maps(env, s, k, id))
  {
    if a.Step? {
      assert PcOk(env, s, s.threads[a.t]);
    }
    hide Exclusive, RotatorOk, PcOk, Insert, Rotate, Bucket, NoWriter, NoReader, Exceeds, IsSnapshot;
  }

  lemma SameHistory(env: Env, cfg: Config, s: Sys, a: Action)
    requires Sound(env, s) && Enabled(env, s, a)
    requires !(a.Step? && s.threads[a.t].Inserting?)
    requires !(a.StepRotator? && s.rotator.Turning? && s.rotator.todo != [])
    requires !(a.StepRotator? && s.rotator.Deleting? && s.rotator.stale != [])
    ensures Next(env, cfg, s, a).history == s.history
  {
    hide Exclusive, Routed, RotatorOk, PcOk, Insert, Rotate, Bucket, NoWriter, NoReader, Exceeds, IsSnapshot;
  }

  // From a state in which nothing is stranded, a step strands an insert if and only if it is one of
  // the two.
  lemma StrandingStep(env: Env, cfg: Config, s: Sys, a: Action)
    requires Sound(env, s) && Windows(env, s) && Lives(env, s) && NothingStranded(env, s) && Enabled(env, s, a)
    ensures var s' := Next(env, cfg, s, a);
      |s'.shards| == NUM_SHARDS && (NothingStranded(env, s') <==> !Strands(env, s, a))
  {
    if a.Step? && s.threads[a.t].Inserting? {
      StrandInsert(env, cfg, s, a.t);
    } else if a.StepRotator? && s.rotator.Turning? && s.rotator.todo != [] {
      StrandTurn(env, cfg, s, a);
    } else if a.StepRotator? && s.rotator.Deleting? && s.rotator.stale != [] {
      StrandEvict(env, cfg, s, a);
    } else {
      hide Exclusive, RotatorOk, PcOk, Routed, Windows, Lives, Next, Enabled, Stranded, Bucket;
      var s' := Next(env, cfg, s, a);
      RoutedAlways(env, cfg, s, a);
      SameHistory(env, cfg, s, a);
      ObjectsGrow(env, cfg, s, a);
      assert |s'.shards| == NUM_SHARDS by { RoutedShards(env, s'); }
      forall id | 0 <= id < |s'.objects| ensures !Stranded(env, s', id) {
        if id < |s.objects| {
          SameMapping(env, cfg, s, a, s.objects[id].key, id);
        }
        StrandedUnmarked(env, s, s', id);
      }
    }
  }

  lemma RoutedShards(env: Env, s: Sys)
    requires Routed(env, s)
    ensures |s.shards| == NUM_SHARDS
  {
  }

  // ---------------------------------------------------------------------------------------------
  // What it means for the live tracker of a pair.

  // The live tracker of `k` holds exactly the inserts of the epoch and of the one before ...
  ghost predicate Whole(env: Env, s: Sys, k: Key, id: Id)
    requires id < |s.objects|
  {
    Holds(env.est, s.objects[id].window, KeyEpoch(s.history, k, 0), KeyEpoch(s.history, k, 1))
  }

  // ... if and only if none of these inserts went elsewhere, ...
  lemma WholeUnlessElsewhere(env: Env, s: Sys, k: Key, id: Id)
    requires Routed(env, s) && Windows(env, s) && Lives(env, s) && Maps(env, s, k, id)
    ensures id < |s.objects| && s.objects[id].key == k
    ensures Whole(env, s, k, id)
       <==> Share(s.history, k, id, false, 0) == [] && Share(s.history, k, id, false, 1) == []
  {
    assert InPlace(env, s, Bucket(env, k.metric), k, id);
    assert WindowOk(env, s.history, id, s.objects[id].window);
    hide Share, KeyEpoch, Lives, Routed, LazyEstimate;
    MappedShare(env, s, id, 0);
    MappedShare(env, s, id, 1);
    SharesMakeEpoch(s.history, k, id, 0);
    SharesMakeEpoch(s.history, k, id, 1);
  }

  // ... that is, if and only if no insert of the pair is stranded.
  lemma WholeUnlessStranded(env: Env, s: Sys, k: Key, id: Id)
    requires Routed(env, s) && Windows(env, s) && Lives(env, s) && Maps(env, s, k, id)
    ensures id < |s.objects|
    ensures Whole(env, s, k, id)
       <==> forall id' :: 0 <= id' < |s.objects| && s.objects[id'].key == k ==> !Stranded(env, s, id')
  {
    hide Share, KeyEpoch, Lives, Whole, WindowOk, MarkOk;
    WholeUnlessElsewhere(env, s, k, id);
    if ago: nat :| ago <= 1 && Share(s.history, k, id, false, ago) != [] {
      var id' := Elsewhere(s.history, k, id, ago);
      ShareIsMarked(s, s.history, k, id', ago);
      assert !Maps(env, s, k, id');
      assert ago == 0 || ago == 1;
      assert Stranded(env, s, id');
    } else {
      assert Share(s.history, k, id, false, 0) == [] && Share(s.history, k, id, false, 1) == [];
      forall id' | 0 <= id' < |s.objects| && s.objects[id'].key == k ensures !Stranded(env, s, id') {
        if id' != id {
          NotElsewhere(s.history, k, id, id', 0);
          NotElsewhere(s.history, k, id, id', 1);
        }
      }
    }
  }

  // The pair has never been evicted.
  ghost predicate Kept(history: seq<Mark>, k: Key) {
    Evicted(k) !in history
  }

  lemma {:induction false} KeptNotRetired(history: seq<Mark>, k: Key, id: Id)
    requires Kept(history, k)
    ensures !Retired(history, k, id)
  {
    if history != [] {
      assert history[|history| - 1] in history;
      KeptNotRetired(history[..|history| - 1], k, id);
    }
  }

  // All inserts of such a pair went into the tracker that is mapped.
  lemma KeptIsAlone(env: Env, s: Sys, k: Key, id: Id, ago: nat)
    requires Windows(env, s) && Lives(env, s) && Kept(s.history, k)
    requires id < |s.objects| && s.objects[id].key == k
    ensures Maps(env, s, k, id) && !Retired(s.history, k, id) && Share(s.history, k, id, false, ago) == []
  {
    hide Share, Rested, Retired, Unsuperseded, Kept, Bucket, WindowOk, MarkOk;
    assert LifeOk(env, s, id);
    KeptNotRetired(s.history, k, id);
    if Share(s.history, k, id, false, ago) != [] {
      var id' := Elsewhere(s.history, k, id, ago);
      ShareIsMarked(s, s.history, k, id', ago);
      assert LifeOk(env, s, id');
      KeptNotRetired(s.history, k, id');
      assert false;
    }
  }

  // ---------------------------------------------------------------------------------------------
  // Decisions.

  // Tracker `id` has not been retired, and no insert of its pair in these two epochs went elsewhere.
  ghost predicate Alone(history: seq<Mark>, k: Key, id: Id) {
    !Retired(history, k, id) && Share(history, k, id, false, 0) == [] && Share(history, k, id, false, 1) == []
  }

  // The answer recorded in a mark is the sequential one for the marks of its tracker before it, and
  // for those of its pair if the tracker is alone, as it is if the pair has never been evicted.
  ghost predicate DecidedAt(env: Env, cfg: Config, before: seq<Mark>, m: Mark) {
    m.Inserted? ==>
      && (m.dropped <==> Drops(env.est, IdEpoch(before, m.id, 0) + [m.r.h], IdEpoch(before, m.id, 1),
                               Limit(cfg, m.r.k.metric)))
      && (Kept(before, m.r.k) ==> Alone(before, m.r.k, m.id))
      && (Alone(before, m.r.k, m.id) ==>
            (m.dropped <==> Drops(env.est, KeyEpoch(before, m.r.k, 0) + [m.r.h], KeyEpoch(before, m.r.k, 1),
                                  Limit(cfg, m.r.k.metric))))
  }

  ghost predicate Decided(env: Env, cfg: Config, history: seq<Mark>) {
    forall i :: 0 <= i < |history| ==> DecidedAt(env, cfg, history[..i], history[i])
  }

  lemma DecidedSnoc(env: Env, cfg: Config, history: seq<Mark>, m: Mark)
    requires Decided(env, cfg, history) && DecidedAt(env, cfg, history, m)
    ensures Decided(env, cfg, history + [m])
  {
    hide DecidedAt;
    forall i | 0 <= i < |history + [m]| ensures DecidedAt(env, cfg, (history + [m])[..i], (history + [m])[i]) {
      if i < |history| {
        assert (history + [m])[..i] == history[..i];
        assert DecidedAt(env, cfg, history[..i], history[i]);
      } else {
        assert (history + [m])[..i] == history;
      }
    }
  }

  lemma OwnInsertIsDecided(env: Env, s: Sys, id: Id, h: Hash)
    requires Windows(env, s) && id < |s.objects|
    ensures Holds(env.est, Insert(env.est, s.objects[id].window, h),
                  IdEpoch(s.history, id, 0) + [h], IdEpoch(s.history, id, 1))
  {
    hide Insert, Holds, IdEpoch;
    assert WindowOk(env, s.history, id, s.objects[id].window);
    InsertHolds(env.est, s.objects[id].window, IdEpoch(s.history, id, 0), IdEpoch(s.history, id, 1), h);
  }

  lemma InsertIsDecided(env: Env, cfg: Config, s: Sys, t: Tid)
    requires Sound(env, s) && Windows(env, s) && Lives(env, s)
    requires t in s.threads && s.threads[t].Inserting?
    ensures
      var s' := Next(env, cfg, s, Step(t));
      |s'.history| == |s.history| + 1 && s'.history == s.history + [s'.history[|s.history|]]
      && DecidedAt(env, cfg, s.history, s'.history[|s.history|])
  {
    var r, id := s.threads[t].r, s.threads[t].id;
    assert PcOk(env, s, s.threads[t]);
    hide Exclusive, RotatorOk, PcOk, Windows, Retired, Share, KeyEpoch, Insert, Bucket, LazyEstimate, Rested,
      Unsuperseded, Kept, IdEpoch;
    assert LifeOk(env, s, id);
    OwnInsertIsDecided(env, s, id, r.h);
    if Kept(s.history, r.k) {
      KeptIsAlone(env, s, r.k, id, 0);
      KeptIsAlone(env, s, r.k, id, 1);
    }
    if Maps(env, s, r.k, id) {
      WholeUnlessElsewhere(env, s, r.k, id);
      if Whole(env, s, r.k, id) {
        InsertHolds(env.est, s.objects[id].window, KeyEpoch(s.history, r.k, 0), KeyEpoch(s.history, r.k, 1), r.h);
      }
    }
  }

  lemma DecidedAlways(env: Env, cfg: Config, s: Sys, a: Action)
    requires Sound(env, s) && Windows(env, s) && Lives(env, s) && Enabled(env, s, a)
    requires Decided(env, cfg, s.history)
    ensures Decided(env, cfg, Next(env, cfg, s, a).history)
  {
    hide Exclusive, Routed, RotatorOk, PcOk, Windows, Lives, Decided, Insert, Rotate, Bucket, NoWriter, NoReader;
    var s' := Next(env, cfg, s, a);
    if a.Step? && s.threads[a.t].Inserting? {
      InsertIsDecided(env, cfg, s, a.t);
      DecidedSnoc(env, cfg, s.history, s'.history[|s.history|]);
    } else if s'.history != s.history {
      var m := s'.history[|s.history|];
      assert s'.history == s.history + [m] && !m.Inserted?;
      DecidedSnoc(env, cfg, s.history, m);
    }
  }
}
