// A pair that was evicted and tracked again, possibly with inserts lost in between, recovers: once no
// goroutine holds an older tracker of it, its new one gets every insert for as long as it is mapped.
module Settling {
  import opened CapBound
  import opened ConcurrentRuns
  import opened Evictions
  import opened Interleaving
  import opened Linearization
  import opened Retirement
  import opened Settings
  import opened SlidingWindow
  import opened Stranding
  import opened Wrappers

  // `id` is the live tracker of `k`, and nobody is about to insert into another one.
  ghost predicate Settled(env: Env, s: Sys, k: Key, id: Id) {
    && |s.shards| == NUM_SHARDS && id < |s.objects| && Maps(env, s, k, id)
    && forall t :: t in s.threads && s.threads[t].Inserting? && s.threads[t].r.k == k ==> s.threads[t].id == id
  }

  ghost predicate OnlyInto(marks: seq<Mark>, k: Key, id: Id) {
    forall i :: 0 <= i < |marks| && marks[i].Inserted? && marks[i].r.k == k ==> marks[i].id == id
  }

  // From then on the inserts that went elsewhere only move back, epoch by epoch.
  lemma {:induction false} ShareAfter(before: seq<Mark>, marks: seq<Mark>, k: Key, id: Id, ago: nat)
    requires OnlyInto(marks, k, id)
    ensures
      var turns := PairTurns(marks, k);
      Share(before + marks, k, id, false, ago) == if ago < turns then [] else Share(before, k, id, false, ago - turns)
  {
    if marks == [] {
      assert before + marks == before;
    } else {
      hide Share;
      var rest, m := marks[..|marks| - 1], marks[|marks| - 1];
      ShareAfter(before, rest, k, id, ago);
      if ago > 0 {
        ShareAfter(before, rest, k, id, ago - 1);
      }
      ShareSnoc(before + rest, m, k, id, false, ago);
      assert before + marks == before + rest + [m];
    }
  }

  // A tracker that is mapped after a step, and existed before it, was mapped before it.
  lemma MappedBefore(env: Env, cfg: Config, s: Sys, a: Action, k: Key, id: Id)
    requires Sound(env, s) && Enabled(env, s, a) && id < |s.objects|
    requires |Next(env, cfg, s, a).shards| == NUM_SHARDS && Maps(env, Next(env, cfg, s, a), k, id)
    ensures |s.shards| == NUM_SHARDS && Maps(env, s, k, id)
  {
    if a.StepRotator? && s.rotator.Deleting? && s.rotator.stale != [] {
      hide Exclusive, PcOk, Bucket;
    } else {
      SameMapping(env, cfg, s, a, k, id);
    }
  }

  // Whoever comes to insert has found the mapped tracker.
  lemma FoundMapped(env: Env, cfg: Config, s: Sys, a: Action, t: Tid)
    requires Sound(env, s) && Enabled(env, s, a) && t in s.threads
    requires a == Step(t) || (a.Begin? && a.t == t)
    ensures var s' := Next(env, cfg, s, a);
      s'.threads[t].Inserting? ==> |s.shards| == NUM_SHARDS && Maps(env, s, s'.threads[t].r.k, s'.threads[t].id)
  {
    assert PcOk(env, s, s.threads[t]);
    hide Exclusive, Routed, RotatorOk, Insert, Bucket, NoWriter, NoReader, Exceeds;
  }

  lemma SettledStep(env: Env, cfg: Config, s: Sys, a: Action, k: Key, id: Id)
    requires Sound(env, s) && Enabled(env, s, a) && Settled(env, s, k, id)
    requires |Next(env, cfg, s, a).shards| == NUM_SHARDS && Maps(env, Next(env, cfg, s, a), k, id)
    ensures Settled(env, Next(env, cfg, s, a), k, id)
  {
    var s' := Next(env, cfg, s, a);
    ObjectsGrow(env, cfg, s, a);
    forall t | t in s'.threads && s'.threads[t].Inserting? && s'.threads[t].r.k == k ensures s'.threads[t].id == id {
      SameThreads(env, cfg, s, a, t);
      if a == Step(t) || (a.Begin? && a.t == t) {
        FoundMapped(env, cfg, s, a, t);
      }
    }
    hide Next, Sound, Enabled, Maps;
  }

  // What a step adds to the history, seen by a settled pair.
  lemma SettledMark(env: Env, cfg: Config, s: Sys, a: Action, k: Key, id: Id)
    requires Sound(env, s) && Enabled(env, s, a) && Settled(env, s, k, id)
    ensures var s' := Next(env, cfg, s, a);
      && s.history <= s'.history && OnlyInto(s'.history[|s.history|..], k, id)
  {
    hide Exclusive, Routed, RotatorOk, PcOk, Insert, Rotate, Bucket, NoWriter, NoReader, Exceeds, IsSnapshot, Maps;
  }

  lemma ExecPrefix(env: Env, cfg: Config, threads: set<Tid>, schedule: seq<Action>)
    requires schedule != [] && Exec(env, cfg, threads, schedule).Some?
    ensures
      var r, a := Exec(env, cfg, threads, schedule[..|schedule| - 1]), schedule[|schedule| - 1];
      && r.Some? && Sound(env, r.value) && Enabled(env, r.value, a)
      && Exec(env, cfg, threads, schedule).value == Next(env, cfg, r.value, a)
  {
    hide Sound, Enabled, Next, Counted, Capped, Windows, Lives, Fated, Decided, Justified;
  }

  ghost predicate LeadsTo(env: Env, cfg: Config, threads: set<Tid>, schedule: seq<Action>, more: seq<Action>, s: Sys, s': Sys) {
    Exec(env, cfg, threads, schedule) == Some(s) && Exec(env, cfg, threads, schedule + more) == Some(s')
  }

  lemma AppendedPrefix(schedule: seq<Action>, more: seq<Action>)
    requires more != []
    ensures schedule + more != [] && (schedule + more)[..|schedule + more| - 1] == schedule + more[..|more| - 1]
    ensures (schedule + more)[|schedule + more| - 1] == more[|more| - 1]
  {
  }

  lemma LastStep(env: Env, cfg: Config, threads: set<Tid>, schedule: seq<Action>, more: seq<Action>, s: Sys, s': Sys)
    returns (s1: Sys)
    requires more != [] && LeadsTo(env, cfg, threads, schedule, more, s, s')
    ensures
      var rest, a := more[..|more| - 1], more[|more| - 1];
      && LeadsTo(env, cfg, threads, schedule, rest, s, s1)
      && Sound(env, s1) && Enabled(env, s1, a) && s' == Next(env, cfg, s1, a)
  {
    hide Exec, Good, Sound, Enabled, Next;
    AppendedPrefix(schedule, more);
    ExecPrefix(env, cfg, threads, schedule + more);
    s1 := Exec(env, cfg, threads, schedule + more[..|more| - 1]).value;
  }

  lemma NoMore(env: Env, cfg: Config, threads: set<Tid>, schedule: seq<Action>, s: Sys, s': Sys)
    requires LeadsTo(env, cfg, threads, schedule, [], s, s')
    ensures s' == s
  {
    hide Exec;
    assert schedule + [] == schedule;
  }

  lemma {:induction false} SameKeyLater(env: Env, cfg: Config, threads: set<Tid>, schedule: seq<Action>, more: seq<Action>,
                                        s: Sys, s': Sys, k: Key, id: Id)
    requires LeadsTo(env, cfg, threads, schedule, more, s, s') && id < |s.objects| && s.objects[id].key == k
    ensures id < |s'.objects| && s'.objects[id].key == k
  {
    hide LeadsTo, Sound, Enabled, Next;
    if more == [] {
      NoMore(env, cfg, threads, schedule, s, s');
    } else {
      var s1 := LastStep(env, cfg, threads, schedule, more, s, s');
      SameKeyLater(env, cfg, threads, schedule, more[..|more| - 1], s, s1, k, id);
      ObjectsGrow(env, cfg, s1, more[|more| - 1]);
    }
  }

  lemma OnlyIntoBoth(h: seq<Mark>, h1: seq<Mark>, h2: seq<Mark>, k: Key, id: Id)
    requires h <= h1 <= h2 && OnlyInto(h1[|h|..], k, id) && OnlyInto(h2[|h1|..], k, id)
    ensures OnlyInto(h2[|h|..], k, id)
  {
    assert h2[|h|..] == h1[|h|..] + h2[|h1|..];
  }

  lemma {:induction false} SettledRun(env: Env, cfg: Config, threads: set<Tid>, schedule: seq<Action>, more: seq<Action>,
                                      s: Sys, s': Sys, k: Key, id: Id)
    requires LeadsTo(env, cfg, threads, schedule, more, s, s') && Settled(env, s, k, id) && s.objects[id].key == k
    requires |s'.shards| == NUM_SHARDS && Maps(env, s', k, id)
    ensures Settled(env, s', k, id)
    ensures s.history <= s'.history && OnlyInto(s'.history[|s.history|..], k, id)
  {
    assert id < |s.objects|;
    hide LeadsTo, Sound, Enabled, Next, Settled, Maps, OnlyInto;
    if more == [] {
      NoMore(env, cfg, threads, schedule, s, s');
      assert OnlyInto([], k, id) by {
        NothingElsewhere(k, id);
      }
    } else {
      var s1 := LastStep(env, cfg, threads, schedule, more, s, s');
      var rest, a := more[..|more| - 1], more[|more| - 1];
      SameKeyLater(env, cfg, threads, schedule, rest, s, s1, k, id);
      MappedBefore(env, cfg, s1, a, k, id);
      SettledRun(env, cfg, threads, schedule, rest, s, s1, k, id);
      SettledStep(env, cfg, s1, a, k, id);
      SettledMark(env, cfg, s1, a, k, id);
      OnlyIntoBoth(s.history, s1.history, s'.history, k, id);
    }
  }

  lemma NothingElsewhere(k: Key, id: Id)
    ensures OnlyInto([], k, id)
  {
  }

  lemma BothReachable(env: Env, cfg: Config, threads: set<Tid>, schedule: seq<Action>, more: seq<Action>, s: Sys, s': Sys)
    requires LeadsTo(env, cfg, threads, schedule, more, s, s')
    ensures Reachable(env, cfg, threads, s) && Reachable(env, cfg, threads, s')
  {
    hide Exec;
  }

  lemma StillNothingElsewhere(before: seq<Mark>, after: seq<Mark>, k: Key, id: Id)
    requires before <= after && OnlyInto(after[|before|..], k, id)
    requires Alone(before, k, id) || PairTurns(after, k) >= PairTurns(before, k) + 2
    ensures Share(after, k, id, false, 0) == [] && Share(after, k, id, false, 1) == []
  {
    hide OnlyInto, Share, PairTurns, Retired;
    var marks := after[|before|..];
    assert after == before + marks;
    TurnsAdd(before, marks, k);
    ShareAfter(before, marks, k, id, 0);
    ShareAfter(before, marks, k, id, 1);
  }

  // From a state in which the pair is settled on a tracker, in any continuation that has not evicted it:
  // if nothing of the pair was stranded then, or after two more rotations of the pair, the tracker is
  // alone, so its answers are the sequential ones, and holds every insert of the pair.
  lemma SettledPairsLoseNothing(env: Env, cfg: Config, threads: set<Tid>, schedule: seq<Action>, more: seq<Action>,
                                s: Sys, s': Sys, k: Key, id: Id)
    requires LeadsTo(env, cfg, threads, schedule, more, s, s') && Settled(env, s, k, id)
    requires |s'.shards| == NUM_SHARDS && Maps(env, s', k, id)
    requires Alone(s.history, k, id) || PairTurns(s'.history, k) >= PairTurns(s.history, k) + 2
    ensures Settled(env, s', k, id) && Alone(s'.history, k, id)
    ensures id < |s'.objects| && Whole(env, s', k, id)
  {
    assert |s.shards| == NUM_SHARDS && Maps(env, s, k, id);
    hide LeadsTo, Settled, Good, Alone, Share, Maps, Reachable, OnlyInto, PairTurns, Whole;
    BothReachable(env, cfg, threads, schedule, more, s, s');
    MappedKey(env, cfg, threads, s, k, id);
    MappedKey(env, cfg, threads, s', k, id);
    SettledRun(env, cfg, threads, schedule, more, s, s', k, id);
    StillNothingElsewhere(s.history, s'.history, k, id);
    ReachableIsGood(env, cfg, threads, s');
    MappedIsAlone(env, cfg, threads, s', k, id);
  }

  lemma {:induction false} TurnsAdd(before: seq<Mark>, marks: seq<Mark>, k: Key)
    ensures PairTurns(before + marks, k) == PairTurns(before, k) + PairTurns(marks, k)
  {
    if marks == [] {
      assert before + marks == before;
    } else {
      var rest := marks[..|marks| - 1];
      TurnsAdd(before, rest, k);
      assert (before + marks)[..|before + marks| - 1] == before + rest;
    }
  }

  lemma MappedKey(env: Env, cfg: Config, threads: set<Tid>, s: Sys, k: Key, id: Id)
    requires Reachable(env, cfg, threads, s) && |s.shards| == NUM_SHARDS && Maps(env, s, k, id)
    ensures id < |s.objects| && s.objects[id].key == k
  {
    ReachableIsGood(env, cfg, threads, s);
    hide Reachable, Counted, Capped, Fated, Decided, Justified, Exclusive, PcOk, RotatorOk, Windows, Lives;
    assert InPlace(env, s, Bucket(env, k.metric), k, id);
  }

  lemma MappedIsAlone(env: Env, cfg: Config, threads: set<Tid>, s: Sys, k: Key, id: Id)
    requires Good(env, cfg, threads, s) && |s.shards| == NUM_SHARDS && Maps(env, s, k, id) && id < |s.objects|
    requires Share(s.history, k, id, false, 0) == [] && Share(s.history, k, id, false, 1) == []
    ensures Alone(s.history, k, id) && Whole(env, s, k, id)
  {
    hide Counted, Capped, Fated, Decided, Justified, Exclusive, PcOk, RotatorOk, Share, Rested, Unsuperseded, Whole;
    WholeUnlessElsewhere(env, s, k, id);
    assert LifeOk(env, s, id);
  }

  // In particular a busy tracker, which stays.
  lemma BusyTrackersRecover(env: Env, cfg: Config, threads: set<Tid>, schedule: seq<Action>, more: seq<Action>,
                            s: Sys, s': Sys, k: Key, id: Id)
    requires LeadsTo(env, cfg, threads, schedule, more, s, s') && Settled(env, s, k, id)
    requires BusyTracker(s'.history, id)
    requires Alone(s.history, k, id) || PairTurns(s'.history, k) >= PairTurns(s.history, k) + 2
    ensures Alone(s'.history, k, id) && id < |s'.objects|
    ensures |s'.shards| == NUM_SHARDS && Maps(env, s', k, id) && Whole(env, s', k, id)
  {
    assert Reachable(env, cfg, threads, s) && Reachable(env, cfg, threads, s');
    assert |s.shards| == NUM_SHARDS && Maps(env, s, k, id);
    hide Sound, Good, Share, Retired, Maps, BusyTracker, Exec, Alone, Settled, Whole, Reachable;
    MappedKey(env, cfg, threads, s, k, id);
    SameKeyLater(env, cfg, threads, schedule, more, s, s', k, id);
    BusyTrackersStay(env, cfg, threads, s', id);
    SettledPairsLoseNothing(env, cfg, threads, schedule, more, s, s', k, id);
  }
}
