// The interleaved layer refines the sequential one where the two can be compared: if rotations run only
// while no call is in flight, every answer is that of the calls and rotations in the order of the
// tracker locks, evictions and all.
module Separation {
  import opened ConcurrentRuns
  import opened Interleaving
  import opened Linearization
  import opened Registry
  import opened Retirement
  import opened Settings
  import opened SlidingWindow
  import opened Stranding
  import opened Wrappers

  ghost predicate NoneInFlight(s: Sys) {
    forall t :: t in s.threads ==> s.threads[t] == Outside
  }

  // No call begins during a rotation, and no rotation during a call.
  ghost predicate KeepsApart(s: Sys, a: Action) {
    (a.Begin? ==> s.rotator == Resting) && (a.StartRotation? ==> NoneInFlight(s))
  }

  ghost predicate Separated(env: Env, cfg: Config, threads: set<Tid>, schedule: seq<Action>) {
    schedule == [] ||
    (var rest := schedule[..|schedule| - 1];
     var r := Exec(env, cfg, threads, rest);
     Separated(env, cfg, threads, rest) && (r.Some? ==> KeepsApart(r.value, schedule[|schedule| - 1])))
  }

  // The calls that insert, and the rotations, in the order in which they do.
  ghost function EventsOf(s: Sys, a: Action): seq<Event> {
    if a.Step? && a.t in s.threads && s.threads[a.t].Inserting? then
      [Call(s.threads[a.t].r.k, s.threads[a.t].r.h)]
    else if a.StartRotation? then [Rotation]
    else []
  }

  ghost function LockOrder(env: Env, cfg: Config, threads: set<Tid>, schedule: seq<Action>): seq<Event> {
    if schedule == [] then [] else
    var rest := schedule[..|schedule| - 1];
    var before := LockOrder(env, cfg, threads, rest);
    match Exec(env, cfg, threads, rest)
    case None => before
    case Some(s) => before + EventsOf(s, schedule[|schedule| - 1])
  }

  // The rotation under way has still to turn the tracker of `k`.
  ghost predicate Due(env: Env, rot: RotatorPc, k: Key) {
    match rot
    case Resting => false
    case SnapLocking(b) => Bucket(env, k.metric) >= b
    case Snapping(b) => Bucket(env, k.metric) >= b
    case Turning(b, todo, _) => Bucket(env, k.metric) > b || Listed(todo, k)
    case SweepLocking(b, _) => Bucket(env, k.metric) > b
    case Deleting(b, _) => Bucket(env, k.metric) > b
    case Uncounting(b, _) => Bucket(env, k.metric) > b
  }

  ghost predicate Listed(todo: seq<(Key, Id)>, k: Key) {
    exists i :: 0 <= i < |todo| && todo[i].0 == k
  }

  // A live tracker holds what the events prescribe, but for the rotation it is due for; an untracked
  // pair has no calls in the current epoch or the one before.
  ghost predicate LinkedPair(env: Env, s: Sys, events: seq<Event>, k: Key)
    requires |s.shards| == NUM_SHARDS
  {
    var shard := s.shards[Bucket(env, k.metric)];
    if k in shard then
      var due := if Due(env, s.rotator, k) then 1 else 0;
      && IdEpoch(s.history, shard[k], 0) == Epoch(events, k, due)
      && IdEpoch(s.history, shard[k], 1) == Epoch(events, k, due + 1)
    else
      Epoch(events, k, 0) == [] && Epoch(events, k, 1) == []
  }

  ghost predicate Linked(env: Env, s: Sys, events: seq<Event>) {
    && |s.shards| == NUM_SHARDS
    && (s.rotator != Resting ==> NoneInFlight(s) && forall k :: Epoch(events, k, 0) == [])
    && (forall t :: t in s.threads && s.threads[t].Inserting? ==> Maps(env, s, s.threads[t].r.k, s.threads[t].id))
    && forall k :: LinkedPair(env, s, events, k)
  }

  // ---------------------------------------------------------------------------------------------
  // Steps.

  // Nothing recorded, nothing mapped or unmapped, nothing turned.
  lemma LinkedStill(env: Env, s: Sys, s': Sys, events: seq<Event>)
    requires Linked(env, s, events)
    requires s'.history == s.history && s'.shards == s.shards
    requires s'.rotator != Resting ==> s.rotator != Resting && s'.threads == s.threads
    requires forall t :: t in s'.threads && s'.threads[t].Inserting? ==>
      Maps(env, s, s'.threads[t].r.k, s'.threads[t].id)
    requires forall k: Key :: k in s.shards[Bucket(env, k.metric)] ==> (Due(env, s'.rotator, k) <==> Due(env, s.rotator, k))
    ensures Linked(env, s', events)
  {
    hide Due, Epoch, IdEpoch, Bucket;
    forall k ensures LinkedPair(env, s', events, k) {
      assert LinkedPair(env, s, events, k);
    }
  }

  lemma LinkedStart(env: Env, s: Sys, s': Sys, events: seq<Event>)
    requires Linked(env, s, events) && NoneInFlight(s) && s.rotator == Resting
    requires s' == s.(rotator := SnapLocking(0))
    ensures Linked(env, s', events + [Rotation])
  {
    hide Epoch, IdEpoch, Bucket;
    forall k ensures LinkedPair(env, s', events + [Rotation], k) && Epoch(events + [Rotation], k, 0) == [] {
      assert LinkedPair(env, s, events, k);
      EpochAfterRotation(events, k, 0);
      EpochAfterRotation(events, k, 1);
      EpochAfterRotation(events, k, 2);
    }
  }

  lemma UnusedIsEmpty(env: Env, s: Sys)
    requires Windows(env, s)
    ensures IdEpoch(s.history, |s.objects|, 0) == [] && IdEpoch(s.history, |s.objects|, 1) == []
  {
    hide WindowOk, IdEpoch;
    forall i | 0 <= i < |s.history| ensures s.history[i].Evicted? || s.history[i].id != |s.objects| {
      assert MarkOk(s, s.history[i]);
    }
    UnusedId(s.history, |s.objects|, 0);
    UnusedId(s.history, |s.objects|, 1);
  }

  lemma LinkedCreate(env: Env, s: Sys, s': Sys, events: seq<Event>, k: Key)
    requires Linked(env, s, events) && Windows(env, s) && s.rotator == Resting
    requires s'.history == s.history && s'.rotator == s.rotator
    requires k !in s.shards[Bucket(env, k.metric)]
    requires
      var b := Bucket(env, k.metric);
      |s'.shards| == NUM_SHARDS && s'.shards == s.shards[b := s'.shards[b]] && s'.shards[b] == s.shards[b][k := |s.objects|]
    requires forall t :: t in s'.threads && s'.threads[t].Inserting? ==> t in s.threads && s'.threads[t] == s.threads[t]
    ensures Linked(env, s', events)
  {
    hide Windows, Epoch, IdEpoch, Bucket;
    UnusedIsEmpty(env, s);
    forall k' ensures LinkedPair(env, s', events, k') {
      assert LinkedPair(env, s, events, k');
    }
  }

  lemma LinkedInsert(env: Env, s: Sys, s': Sys, events: seq<Event>, t: Tid, m: Mark)
    requires Linked(env, s, events) && Routed(env, s) && t in s.threads && s.threads[t].Inserting?
    requires m.Inserted? && m.r == s.threads[t].r && m.id == s.threads[t].id
    requires s'.history == s.history + [m] && s'.shards == s.shards && s'.rotator == s.rotator
    requires s'.threads == s.threads[t := Outside]
    ensures Linked(env, s', events + [Call(m.r.k, m.r.h)])
  {
    hide Epoch, IdEpoch, Bucket;
    forall k ensures LinkedPair(env, s', events + [Call(m.r.k, m.r.h)], k) {
      assert LinkedPair(env, s, events, k);
      EpochAfterCall(events, m.r.k, m.r.h, k, 0);
      EpochAfterCall(events, m.r.k, m.r.h, k, 1);
      var shard := s.shards[Bucket(env, k.metric)];
      if k in shard {
        assert InPlace(env, s, Bucket(env, k.metric), k, shard[k]);
        assert InPlace(env, s, Bucket(env, m.r.k.metric), m.r.k, m.id);
        IdEpochSnoc(s.history, m, shard[k], 0);
        IdEpochSnoc(s.history, m, shard[k], 1);
      }
    }
  }

  lemma LinkedTurn(env: Env, s: Sys, s': Sys, events: seq<Event>, k: Key, id: Id)
    requires Linked(env, s, events) && Routed(env, s) && s.rotator != Resting && s'.rotator != Resting
    requires Maps(env, s, k, id) && Due(env, s.rotator, k) && !Due(env, s'.rotator, k)
    requires forall k' :: k' != k ==> (Due(env, s'.rotator, k') <==> Due(env, s.rotator, k'))
    requires s'.history == s.history + [Turned(k, id)] && s'.shards == s.shards && s'.threads == s.threads
    ensures Linked(env, s', events)
  {
    hide Due, Epoch, IdEpoch, Bucket;
    forall k' ensures LinkedPair(env, s', events, k') {
      assert LinkedPair(env, s, events, k');
      var shard := s.shards[Bucket(env, k'.metric)];
      if k' in shard {
        assert InPlace(env, s, Bucket(env, k'.metric), k', shard[k']);
        assert InPlace(env, s, Bucket(env, k.metric), k, id);
        IdEpochSnoc(s.history, Turned(k, id), shard[k'], 0);
        IdEpochSnoc(s.history, Turned(k, id), shard[k'], 1);
      }
    }
  }

  // The tracker has just been turned idle, so the pair has no calls to lose.
  lemma LinkedEvict(env: Env, s: Sys, s': Sys, events: seq<Event>, k: Key, id: Id)
    requires Linked(env, s, events) && s.rotator != Resting && s'.rotator != Resting
    requires Maps(env, s, k, id) && !Due(env, s.rotator, k) && IdEpoch(s.history, id, 1) == []
    requires forall k' :: Due(env, s'.rotator, k') <==> Due(env, s.rotator, k')
    requires s'.history == s.history + [Evicted(k)] && s'.threads == s.threads
    requires
      var b := Bucket(env, k.metric);
      |s'.shards| == NUM_SHARDS && s'.shards == s.shards[b := s.shards[b] - {k}]
    ensures Linked(env, s', events)
  {
    hide Due, Epoch, IdEpoch, Bucket;
    forall k' ensures LinkedPair(env, s', events, k') {
      assert LinkedPair(env, s, events, k');
      var shard := s.shards[Bucket(env, k'.metric)];
      if k' in shard {
        IdEpochSnoc(s.history, Evicted(k), shard[k'], 0);
        IdEpochSnoc(s.history, Evicted(k), shard[k'], 1);
      }
    }
  }

  lemma NotYetInserting(env: Env, cfg: Config, s: Sys, t: Tid)
    requires Sound(env, s) && Enabled(env, s, Step(t)) && !s.threads[t].Inserting? && !s.threads[t].Creating?
    ensures
      var s' := Next(env, cfg, s, Step(t));
      && s'.history == s.history && s'.shards == s.shards && s'.rotator == s.rotator && |s.shards| == NUM_SHARDS
      && s'.threads == s.threads[t := s'.threads[t]] && t in s'.threads
      && (s'.threads[t].Inserting? ==> Maps(env, s, s'.threads[t].r.k, s'.threads[t].id))
  {
    assert PcOk(env, s, s.threads[t]);
    hide Exclusive, Routed, RotatorOk, Bucket, NoWriter, NoReader;
  }

  lemma LinkedStep(env: Env, cfg: Config, s: Sys, t: Tid, events: seq<Event>)
    requires Sound(env, s) && Windows(env, s) && Enabled(env, s, Step(t)) && Linked(env, s, events)
    ensures Linked(env, Next(env, cfg, s, Step(t)), events + EventsOf(s, Step(t)))
  {
    hide Exclusive, RotatorOk, Windows, Epoch, IdEpoch, LinkedPair, Due, Bucket, NoWriter, NoReader, Exceeds, Insert;
    var s', pc := Next(env, cfg, s, Step(t)), s.threads[t];
    assert s.rotator == Resting;
    if pc.Inserting? {
      assert PcOk(env, s, pc);
      LinkedInsert(env, s, s', events, t, s'.history[|s.history|]);
    } else if pc.Creating? {
      assert PcOk(env, s, pc);
      LinkedCreate(env, s, s', events, pc.r.k);
      assert events + [] == events;
    } else {
      hide Next, Sound, Enabled;
      NotYetInserting(env, cfg, s, t);
      LinkedStill(env, s, s', events);
      assert events + [] == events;
    }
  }

  lemma LinkedRotator(env: Env, cfg: Config, s: Sys, a: Action, events: seq<Event>)
    requires Sound(env, s) && Windows(env, s) && Lives(env, s) && Enabled(env, s, a) && Linked(env, s, events)
    requires a.StepRotator?
    ensures Linked(env, Next(env, cfg, s, a), events)
  {
    var s' := Next(env, cfg, s, a);
    if s.rotator.Turning? && s.rotator.todo != [] {
      RotatorTurns(env, cfg, s, a, events);
    } else if s.rotator.Deleting? && s.rotator.stale != [] {
      RotatorEvicts(env, cfg, s, a, events);
    } else {
      RotatorMoves(env, cfg, s, a);
      hide Next, Sound, Enabled, Windows, Lives, Due, LinkedPair, Epoch, Bucket;
      LinkedStill(env, s, s', events);
    }
  }

  // The other steps of the rotator leave due what is due.
  lemma RotatorMoves(env: Env, cfg: Config, s: Sys, a: Action)
    requires Sound(env, s) && Enabled(env, s, a) && a.StepRotator?
    requires !(s.rotator.Turning? && s.rotator.todo != []) && !(s.rotator.Deleting? && s.rotator.stale != [])
    ensures var s' := Next(env, cfg, s, a);
      && s.rotator != Resting && s'.threads == s.threads && s'.history == s.history && s'.shards == s.shards
      && |s.shards| == NUM_SHARDS
      && forall k: Key :: k in s.shards[Bucket(env, k.metric)] ==> (Due(env, s'.rotator, k) <==> Due(env, s.rotator, k))
  {
    hide Exclusive, PcOk, NoWriter, NoReader, TodoOk, StaleOk, IsSnapshot;
    if s.rotator.Snapping? {
      var b := s.rotator.b;
      SnapshotIsDue(s.shards[b], a.order);
      forall k | k in s.shards[b] ensures Bucket(env, k.metric) == b {
        assert InPlace(env, s, b, k, s.shards[b][k]);
      }
    }
  }

  lemma SnapshotIsDue(m: map<Key, Id>, order: seq<(Key, Id)>)
    requires IsSnapshot(m, order)
    ensures forall k :: Listed(order, k) <==> k in m
  {
  }

  lemma RotatorTurns(env: Env, cfg: Config, s: Sys, a: Action, events: seq<Event>)
    requires Sound(env, s) && Enabled(env, s, a) && Linked(env, s, events)
    requires a.StepRotator? && s.rotator.Turning? && s.rotator.todo != []
    ensures Linked(env, Next(env, cfg, s, a), events)
  {
    hide Exclusive, PcOk, Linked, Rotate, StaleOk;
    var s' := Next(env, cfg, s, a);
    var (k, id) := s.rotator.todo[0];
    assert InPlace(env, s, s.rotator.b, k, s.shards[s.rotator.b][k]);
    TurnedNotListed(s.shards[s.rotator.b], s.rotator.todo, s.rotator.stale);
    LinkedTurn(env, s, s', events, k, id);
  }

  lemma TurnedNotListed(m: map<Key, Id>, todo: seq<(Key, Id)>, stale: seq<Key>)
    requires TodoOk(m, todo, stale) && todo != []
    ensures Listed(todo, todo[0].0) && !Listed(todo[1..], todo[0].0)
    ensures forall k :: k != todo[0].0 ==> (Listed(todo, k) <==> Listed(todo[1..], k))
  {
    forall k | k != todo[0].0 && Listed(todo, k) ensures Listed(todo[1..], k) {
      var i :| 0 <= i < |todo| && todo[i].0 == k;
      assert todo[1..][i - 1].0 == k;
    }
  }

  lemma RotatorEvicts(env: Env, cfg: Config, s: Sys, a: Action, events: seq<Event>)
    requires Sound(env, s) && Windows(env, s) && Lives(env, s) && Enabled(env, s, a) && Linked(env, s, events)
    requires a.StepRotator? && s.rotator.Deleting? && s.rotator.stale != []
    ensures Linked(env, Next(env, cfg, s, a), events)
  {
    hide Exclusive, PcOk, Linked, Windows, Lives;
    var Deleting(b, stale) := s.rotator;
    var k := stale[0];
    assert InPlace(env, s, b, k, s.shards[b][k]);
    MappedAndStale(env, s, s.shards[b][k]);
    LinkedEvict(env, s, Next(env, cfg, s, a), events, k, s.shards[b][k]);
  }

  lemma LinkedAlways(env: Env, cfg: Config, s: Sys, a: Action, events: seq<Event>)
    requires Sound(env, s) && Windows(env, s) && Lives(env, s) && Enabled(env, s, a) && Linked(env, s, events)
    requires KeepsApart(s, a)
    ensures Linked(env, Next(env, cfg, s, a), events + EventsOf(s, a))
  {
    match a
    case Step(t) => LinkedStep(env, cfg, s, t, events);
    case StepRotator(_) =>
      LinkedRotator(env, cfg, s, a, events);
      assert events + [] == events;
    case StartRotation =>
      hide Sound, Windows, Lives, Linked;
      LinkedStart(env, s, Next(env, cfg, s, a), events);
    case Begin(t, _, _) =>
      hide Exclusive, Routed, RotatorOk, PcOk, Windows, Lives, LinkedPair, Due, Epoch, Bucket;
      assert |s.shards| == NUM_SHARDS;
      LinkedStill(env, s, Next(env, cfg, s, a), events);
      assert events + [] == events;
  }

  lemma InitiallyLinked(env: Env, threads: set<Tid>)
    ensures Linked(env, Initial(threads), [])
  {
    hide Bucket;
  }

  lemma {:induction false} SeparatedIsLinked(env: Env, cfg: Config, threads: set<Tid>, schedule: seq<Action>)
    requires Separated(env, cfg, threads, schedule) && Exec(env, cfg, threads, schedule).Some?
    ensures Linked(env, Exec(env, cfg, threads, schedule).value, LockOrder(env, cfg, threads, schedule))
  {
    if schedule == [] {
      InitiallyLinked(env, threads);
      hide Linked, Good;
      assert Exec(env, cfg, threads, []) == Some(Initial(threads));
    } else {
      hide Linked, Sound, Enabled, Next, KeepsApart, EventsOf, Windows, Lives;
      var rest, a := schedule[..|schedule| - 1], schedule[|schedule| - 1];
      SeparatedIsLinked(env, cfg, threads, rest);
      var s := Exec(env, cfg, threads, rest).value;
      LinkedAlways(env, cfg, s, a, LockOrder(env, cfg, threads, rest));
    }
  }

  // The step from `before` to `after` records the insert of `r`, answered as the events demand.
  ghost predicate Answered(env: Env, cfg: Config, events: seq<Event>, r: Request, before: seq<Mark>, after: seq<Mark>) {
    && |after| == |before| + 1 && after[..|before|] == before
    && after[|before|].Inserted? && after[|before|].r == r
    && (after[|before|].dropped <==>
          Drops(env.est, Epoch(events, r.k, 0) + [r.h], Epoch(events, r.k, 1), Limit(cfg, r.k.metric)))
    && (cfg.maxTrackers == 0 ==> (after[|before|].dropped <==> Decision(env.est, cfg, events, r.k, r.h)))
  }

  // With rotations only while no call is in flight: the answer of every insert, also after evictions,
  // is the sequential one for the inserts and rotations before it, in lock order; and without a cap it
  // is that of the sequential registry after these calls and rotations.
  lemma SeparatedRunsRefine(env: Env, cfg: Config, threads: set<Tid>, schedule: seq<Action>, s: Sys, t: Tid)
    requires Separated(env, cfg, threads, schedule) && Exec(env, cfg, threads, schedule) == Some(s)
    requires t in s.threads && s.threads[t].Inserting?
    ensures Sound(env, s) && Enabled(env, s, Step(t))
    ensures Answered(env, cfg, LockOrder(env, cfg, threads, schedule), s.threads[t].r,
                     s.history, Next(env, cfg, s, Step(t)).history)
  {
    assert Good(env, cfg, threads, s);
    assert Sound(env, s) && Windows(env, s);
    hide Exec, Good, LockOrder, Separated;
    SeparatedIsLinked(env, cfg, threads, schedule);
    LinkedAnswer(env, cfg, s, t, LockOrder(env, cfg, threads, schedule));
  }

  lemma LinkedAnswer(env: Env, cfg: Config, s: Sys, t: Tid, events: seq<Event>)
    requires Sound(env, s) && Windows(env, s) && Linked(env, s, events) && t in s.threads && s.threads[t].Inserting?
    ensures Enabled(env, s, Step(t))
    ensures Answered(env, cfg, events, s.threads[t].r, s.history, Next(env, cfg, s, Step(t)).history)
  {
    var Inserting(r, id) := s.threads[t];
    assert PcOk(env, s, s.threads[t]);
    assert LinkedPair(env, s, events, r.k);
    assert s.rotator == Resting && Maps(env, s, r.k, id);
    hide Exclusive, Routed, RotatorOk, PcOk, Windows, Linked, Epoch, IdEpoch, Bucket, Insert, LazyEstimate, Decision;
    OwnInsertIsDecided(env, s, id, r.h);
    if cfg.maxTrackers == 0 {
      NothingRefused(cfg, events);
      hide Accepted;
      DecisionsAreSpecified(env.est, cfg, events, r.k, r.h);
    }
  }
}
