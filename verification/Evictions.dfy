// A pair is evicted only when it has been idle: its tracker got no insert in two full epochs.
module Evictions {
  import opened Interleaving
  import opened Linearization
  import opened Retirement
  import opened Settings
  import opened SlidingWindow
  import opened Stranding

  // How often a tracker of the pair has been rotated.
  ghost function PairTurns(history: seq<Mark>, k: Key): nat {
    if history == [] then 0 else
    var m := history[|history| - 1];
    PairTurns(history[..|history| - 1], k) + if m.Turned? && m.k == k then 1 else 0
  }

  lemma {:induction false} TurnsArePairTurns(s: Sys, history: seq<Mark>, id: Id)
    requires forall i :: 0 <= i < |history| ==> MarkOk(s, history[i])
    requires id < |s.objects|
    ensures TurnsOf(history, id) <= PairTurns(history, s.objects[id].key)
  {
    if history != [] {
      assert MarkOk(s, history[|history| - 1]);
      TurnsArePairTurns(s, history[..|history| - 1], id);
    }
  }

  // Of the trackers of `k` that have been rotated, `id` is the one that is not retired.
  ghost predicate OnlyLive(history: seq<Mark>, k: Key, id: Id) {
    && Turned(k, id) in history && !Retired(history, k, id)
    && forall id' :: Turned(k, id') in history && !Retired(history, k, id') ==> id' == id
  }

  // The tracker has been rotated at least twice, and the last two full epochs brought it no insert.
  ghost predicate IdleTracker(history: seq<Mark>, id: Id) {
    TurnsOf(history, id) >= 2 && IdEpoch(history, id, 1) == [] && IdEpoch(history, id, 2) == []
  }

  // Such is the live tracker `id` of `k`.
  ghost predicate Idle(history: seq<Mark>, k: Key, id: Id) {
    && OnlyLive(history, k, id) && IdleTracker(history, id) && TurnsOf(history, id) <= PairTurns(history, k)
    && Share(history, k, id, true, 1) == [] && Share(history, k, id, true, 2) == []
  }

  ghost predicate IdlePair(history: seq<Mark>, k: Key) {
    PairTurns(history, k) >= 2 && KeyEpoch(history, k, 1) == [] && KeyEpoch(history, k, 2) == []
  }

  // The live tracker was idle, and so was the pair if this is its first eviction.
  ghost predicate JustifiedAt(before: seq<Mark>, m: Mark) {
    m.Evicted? ==> (exists id :: Idle(before, m.k, id)) && (Kept(before, m.k) ==> IdlePair(before, m.k))
  }

  ghost predicate Justified(history: seq<Mark>) {
    forall i :: 0 <= i < |history| ==> JustifiedAt(history[..i], history[i])
  }

  lemma JustifiedSnoc(history: seq<Mark>, m: Mark)
    requires Justified(history) && JustifiedAt(history, m)
    ensures Justified(history + [m])
  {
    hide JustifiedAt;
    forall i | 0 <= i < |history + [m]| ensures JustifiedAt((history + [m])[..i], (history + [m])[i]) {
      if i < |history| {
        assert (history + [m])[..i] == history[..i];
        assert JustifiedAt(history[..i], history[i]);
      } else {
        assert (history + [m])[..i] == history;
      }
    }
  }

  lemma MappedIsOnlyLive(env: Env, s: Sys, id: Id)
    requires Windows(env, s) && Lives(env, s) && id < |s.objects|
    requires Maps(env, s, s.objects[id].key, id) && Turned(s.objects[id].key, id) in s.history
    ensures OnlyLive(s.history, s.objects[id].key, id)
  {
    hide Rested, Retired, Unsuperseded, StaleKeys, Bucket, WindowOk;
    var k := s.objects[id].key;
    assert LifeOk(env, s, id);
    forall id' | Turned(k, id') in s.history && !Retired(s.history, k, id') ensures id' == id {
      assert MarkOk(s, Turned(k, id'));
      assert LifeOk(env, s, id');
    }
  }

  lemma StaleIsIdle(env: Env, s: Sys, id: Id)
    requires Windows(env, s) && Lives(env, s) && id < |s.objects|
    requires Maps(env, s, s.objects[id].key, id) && s.objects[id].key in StaleKeys(s.rotator)
    ensures JustifiedAt(s.history, Evicted(s.objects[id].key))
  {
    hide Share, KeyEpoch, IdEpoch, Rested, Retired, Unsuperseded, StaleKeys, Bucket, MarkOk, WindowOk, Kept, OnlyLive;
    var k := s.objects[id].key;
    assert LifeOk(env, s, id);
    MappedAndStale(env, s, id);
    MappedIsOnlyLive(env, s, id);
    TurnsArePairTurns(s, s.history, id);
    MappedShare(env, s, id, 1);
    MappedShare(env, s, id, 2);
    assert Idle(s.history, k, id);
    if Kept(s.history, k) {
      KeptIsAlone(env, s, k, id, 1);
      KeptIsAlone(env, s, k, id, 2);
      SharesMakeEpoch(s.history, k, id, 1);
      SharesMakeEpoch(s.history, k, id, 2);
    }
  }

  lemma EvictionIsJustified(env: Env, cfg: Config, s: Sys, a: Action)
    requires Sound(env, s) && Windows(env, s) && Lives(env, s)
    requires a.StepRotator? && s.rotator.Deleting? && s.rotator.stale != []
    ensures JustifiedAt(s.history, Evicted(s.rotator.stale[0]))
  {
    hide Exclusive, Windows, Lives, PcOk, JustifiedAt;
    var Deleting(b, stale) := s.rotator;
    var k := stale[0];
    assert InPlace(env, s, b, k, s.shards[b][k]);
    StaleIsIdle(env, s, s.shards[b][k]);
  }

  lemma JustifiedAlways(env: Env, cfg: Config, s: Sys, a: Action)
    requires Sound(env, s) && Windows(env, s) && Lives(env, s) && Enabled(env, s, a) && Justified(s.history)
    ensures Justified(Next(env, cfg, s, a).history)
  {
    hide Exclusive, Routed, RotatorOk, PcOk, Windows, Lives, Justified, Insert, Rotate, Bucket, NoWriter, NoReader,
      Idle, IdlePair, Kept;
    var s' := Next(env, cfg, s, a);
    if a.StepRotator? && s.rotator.Deleting? && s.rotator.stale != [] {
      EvictionIsJustified(env, cfg, s, a);
      JustifiedSnoc(s.history, Evicted(s.rotator.stale[0]));
    } else if s'.history != s.history {
      var m := s'.history[|s.history|];
      assert s'.history == s.history + [m] && !m.Evicted?;
      JustifiedSnoc(s.history, m);
    }
  }

  lemma MappedNotIdle(env: Env, s: Sys, k: Key, id: Id)
    requires Routed(env, s) && Lives(env, s) && Maps(env, s, k, id) && s.rotator == Resting
    ensures !IdleTracker(s.history, id)
  {
    assert InPlace(env, s, Bucket(env, k.metric), k, id);
    assert LifeOk(env, s, id);
    hide Bucket, Retired, Unsuperseded, IdEpoch, TurnsOf, Lives, Routed;
    var w := s.objects[id].window;
    assert w.idleEpochs < 2;
    assert w.idleEpochs < TurnsOf(s.history, id) ==> IdEpoch(s.history, id, w.idleEpochs + 1) != [];
  }

  // A tracker with an insert in at least one of any two consecutive epochs.
  ghost predicate BusyTracker(history: seq<Mark>, id: Id) {
    forall n :: 0 <= n <= |history| ==> !IdleTracker(history[..n], id)
  }

  // A tracker that has been retired was idle when that happened.
  lemma {:induction false} RetiredWhenIdle(history: seq<Mark>, k: Key, id: Id) returns (n: nat)
    requires Justified(history) && Retired(history, k, id)
    ensures n <= |history| && IdleTracker(history[..n], id)
  {
    hide IdleTracker;
    var rest, m := history[..|history| - 1], history[|history| - 1];
    if Retired(rest, k, id) {
      assert forall i :: 0 <= i < |rest| ==> rest[..i] == history[..i];
      n := RetiredWhenIdle(rest, k, id);
      assert rest[..n] == history[..n];
    } else {
      n := |rest|;
      assert JustifiedAt(history[..n], m);
      var id' :| Idle(rest, k, id');
    }
  }

  // A pair with an insert in at least one of any two consecutive epochs.
  ghost predicate Busy(history: seq<Mark>, k: Key) {
    forall n :: 0 <= n <= |history| ==> !IdlePair(history[..n], k)
  }

  lemma {:induction false} BusyIsKept(history: seq<Mark>, k: Key, n: nat)
    requires Justified(history) && Busy(history, k) && n <= |history|
    ensures Kept(history[..n], k)
  {
    if n > 0 {
      hide IdlePair, Idle;
      BusyIsKept(history, k, n - 1);
      assert JustifiedAt(history[..n - 1], history[n - 1]);
      assert history[..n] == history[..n - 1] + [history[n - 1]];
    }
  }
}
