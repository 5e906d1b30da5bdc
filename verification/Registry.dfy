// The tracker registry as a sequential machine over one map, and the stateless reading of it: every
// state and every decision is a function of which calls happened in which epoch.
module Registry {
  import opened Hashing
  import opened SlidingWindow
  import opened Settings

  type Live = map<Key, Window>

  predicate Admits(cfg: Config, live: Live, k: Key) {
    k in live || cfg.maxTrackers == 0 || |live| < cfg.maxTrackers
  }

  // The window a call inserts into: the tracked one, or that of a new tracker.
  function WindowFor(live: Live, k: Key): Window {
    if k in live then live[k] else EMPTY_WINDOW
  }

  // `shouldDrop`: a pair refused by the cap is neither tracked nor dropped.
  function Observe(est: Estimator, cfg: Config, live: Live, k: Key, h: Hash): (Live, bool) {
    if Admits(cfg, live, k) then
      var w := Insert(est, WindowFor(live, k), h);
      (live[k := w], Exceeds(w.cachedCurr, w.cachedPrev, Limit(cfg, k.metric)))
    else
      (live, false)
  }

  predicate Survives(w: Window) {
    Rotate(w).idleEpochs < STALE_SWEEP_EPOCHS
  }

  // One epoch rotation over all shards, with the stale sweep.
  function RotateAll(live: Live): Live {
    map k | k in live && Survives(live[k]) :: Rotate(live[k])
  }

  // ---------------------------------------------------------------------------------------------
  // Whole runs.

  datatype Event = Call(key: Key, hash: Hash) | Rotation

  function Run(est: Estimator, cfg: Config, events: seq<Event>): Live {
    if events == [] then map[] else
    var live := Run(est, cfg, events[..|events| - 1]);
    match events[|events| - 1]
    case Call(k, h) => Observe(est, cfg, live, k, h).0
    case Rotation => RotateAll(live)
  }

  // What `shouldDrop` answers to a call after `events`.
  predicate Decision(est: Estimator, cfg: Config, events: seq<Event>, k: Key, h: Hash) {
    Observe(est, cfg, Run(est, cfg, events), k, h).1
  }

  // ---------------------------------------------------------------------------------------------
  // The specification: no map, no eviction, no cached field. The hashes inserted for `k` in the
  // epoch `ago` rotations back, in order.
  ghost function Epoch(events: seq<Event>, k: Key, ago: nat): seq<Hash> {
    if events == [] then [] else
    var rest := events[..|events| - 1];
    match events[|events| - 1]
    case Call(k', h) => if k' == k && ago == 0 then Epoch(rest, k, 0) + [h] else Epoch(rest, k, ago)
    case Rotation => if ago == 0 then [] else Epoch(rest, k, ago - 1)
  }

  ghost predicate Recent(events: seq<Event>, k: Key) {
    Epoch(events, k, 0) != [] || Epoch(events, k, 1) != [] || Epoch(events, k, 2) != []
  }

  ghost function RecentKeys(events: seq<Event>): set<Key> {
    set e | e in events && e.Call? && Recent(events, e.key) :: e.key
  }

  // May a call on `k` be tracked, when `accepted` are the rotations and the calls tracked so far?
  ghost predicate Admitted(cfg: Config, accepted: seq<Event>, k: Key) {
    k in RecentKeys(accepted) || cfg.maxTrackers == 0 || |RecentKeys(accepted)| < cfg.maxTrackers
  }

  ghost function Accepted(cfg: Config, events: seq<Event>): seq<Event> {
    if events == [] then [] else
    var accepted := Accepted(cfg, events[..|events| - 1]);
    var e := events[|events| - 1];
    if e.Call? && !Admitted(cfg, accepted, e.key) then accepted else accepted + [e]
  }

  ghost predicate Specified(est: Estimator, cfg: Config, events: seq<Event>, k: Key, h: Hash) {
    var accepted := Accepted(cfg, events);
    && Admitted(cfg, accepted, k)
    && Drops(est, Epoch(accepted, k, 0) + [h], Epoch(accepted, k, 1), Limit(cfg, k.metric))
  }

  lemma {:induction false} EpochIsCalled(events: seq<Event>, k: Key, ago: nat)
    requires Epoch(events, k, ago) != []
    ensures exists e :: e in events && e.Call? && e.key == k
  {
    var rest, e := events[..|events| - 1], events[|events| - 1];
    if e.Call? && e.key == k {
    } else if e.Call? {
      EpochIsCalled(rest, k, ago);
    } else {
      EpochIsCalled(rest, k, ago - 1);
    }
  }

  lemma RecentKeysAreRecent(events: seq<Event>, k: Key)
    ensures k in RecentKeys(events) <==> Recent(events, k)
  {
    if Recent(events, k) {
      var ago :| 0 <= ago <= 2 && Epoch(events, k, ago) != [];
      EpochIsCalled(events, k, ago);
    }
  }

  // The tracked pairs and every field of every window, read off the epochs.
  ghost predicate Exact(est: Estimator, live: Live, events: seq<Event>) {
    && (forall k :: k in live <==> Recent(events, k))
    && (forall k :: k in live ==>
          && Holds(est, live[k], Epoch(events, k, 0), Epoch(events, k, 1))
          && live[k].idleEpochs == if Epoch(events, k, 1) == [] && Epoch(events, k, 2) != [] then 1 else 0)
  }

  lemma ExactKeys(est: Estimator, live: Live, events: seq<Event>)
    requires Exact(est, live, events)
    ensures live.Keys == RecentKeys(events)
  {
    forall k ensures k in live.Keys <==> k in RecentKeys(events) {
      RecentKeysAreRecent(events, k);
    }
  }

  lemma EpochAfterCall(events: seq<Event>, k: Key, h: Hash, k': Key, ago: nat)
    ensures Epoch(events + [Call(k, h)], k', ago)
         == if k' == k && ago == 0 then Epoch(events, k', 0) + [h] else Epoch(events, k', ago)
  {
    assert (events + [Call(k, h)])[..|events|] == events;
  }

  lemma EpochAfterRotation(events: seq<Event>, k: Key, ago: nat)
    ensures Epoch(events + [Rotation], k, ago) == if ago == 0 then [] else Epoch(events, k, ago - 1)
  {
    assert (events + [Rotation])[..|events|] == events;
  }

  lemma ExactAfterCall(est: Estimator, cfg: Config, live: Live, events: seq<Event>, k: Key, h: Hash)
    requires Exact(est, live, events)
    requires Admits(cfg, live, k)
    ensures Exact(est, Observe(est, cfg, live, k, h).0, events + [Call(k, h)])
  {
    var events' := events + [Call(k, h)];
    forall k', ago: nat
      ensures Epoch(events', k', ago)
           == if k' == k && ago == 0 then Epoch(events, k', 0) + [h] else Epoch(events, k', ago)
    {
      EpochAfterCall(events, k, h, k', ago);
    }
    InsertHolds(est, WindowFor(live, k), Epoch(events, k, 0), Epoch(events, k, 1), h);
  }

  lemma ExactAfterRotation(est: Estimator, live: Live, events: seq<Event>)
    requires Exact(est, live, events)
    ensures Exact(est, RotateAll(live), events + [Rotation])
  {
    var events' := events + [Rotation];
    forall k, ago: nat ensures Epoch(events', k, ago) == if ago == 0 then [] else Epoch(events, k, ago - 1) {
      EpochAfterRotation(events, k, ago);
    }
  }

  // Every reachable state is the one the epochs of the accepted calls prescribe.
  lemma {:induction false} RunIsExact(est: Estimator, cfg: Config, events: seq<Event>)
    ensures Exact(est, Run(est, cfg, events), Accepted(cfg, events))
  {
    if events == [] {
      return;
    }
    var rest, e := events[..|events| - 1], events[|events| - 1];
    var live, accepted := Run(est, cfg, rest), Accepted(cfg, rest);
    RunIsExact(est, cfg, rest);
    ExactKeys(est, live, accepted);
    match e {
      case Call(k, h) =>
        if Admits(cfg, live, k) {
          ExactAfterCall(est, cfg, live, accepted, k, h);
        }
      case Rotation => ExactAfterRotation(est, live, accepted);
    }
  }

  // Caching, eviction, re-creation and the live map are invisible in the decisions.
  lemma DecisionsAreSpecified(est: Estimator, cfg: Config, events: seq<Event>, k: Key, h: Hash)
    ensures Decision(est, cfg, events, k, h) <==> Specified(est, cfg, events, k, h)
  {
    var live, accepted := Run(est, cfg, events), Accepted(cfg, events);
    RunIsExact(est, cfg, events);
    ExactKeys(est, live, accepted);
    InsertHolds(est, WindowFor(live, k), Epoch(accepted, k, 0), Epoch(accepted, k, 1), h);
  }

  lemma {:induction false} NothingRefused(cfg: Config, events: seq<Event>)
    requires cfg.maxTrackers == 0
    ensures Accepted(cfg, events) == events
  {
    if events != [] {
      NothingRefused(cfg, events[..|events| - 1]);
    }
  }

  // The rotations and the calls on `k`, in order.
  ghost function Own(events: seq<Event>, k: Key): seq<Event> {
    if events == [] then [] else
    var own := Own(events[..|events| - 1], k);
    var e := events[|events| - 1];
    if e.Call? && e.key != k then own else own + [e]
  }

  lemma {:induction false} EpochOfOwn(events: seq<Event>, k: Key, ago: nat)
    ensures Epoch(Own(events, k), k, ago) == Epoch(events, k, ago)
  {
    if events == [] {
      return;
    }
    var rest, e := events[..|events| - 1], events[|events| - 1];
    match e {
      case Call(k', h) =>
        EpochOfOwn(rest, k, ago);
        EpochAfterCall(Own(rest, k), k', h, k, ago);
      case Rotation =>
        if ago > 0 {
          EpochOfOwn(rest, k, ago - 1);
        }
        EpochAfterRotation(Own(rest, k), k, ago);
    }
  }

  // Without a cap, the decision for a pair depends only on its own calls and the rotations.
  lemma PairsAreIndependent(est: Estimator, cfg: Config, a: seq<Event>, b: seq<Event>, k: Key, h: Hash)
    requires cfg.maxTrackers == 0
    requires Own(a, k) == Own(b, k)
    ensures Decision(est, cfg, a, k, h) == Decision(est, cfg, b, k, h)
         == Drops(est, Epoch(a, k, 0) + [h], Epoch(a, k, 1), Limit(cfg, k.metric))
  {
    forall ago: nat ensures Epoch(a, k, ago) == Epoch(b, k, ago) {
      EpochOfOwn(a, k, ago);
      EpochOfOwn(b, k, ago);
    }
    NothingRefused(cfg, a);
    NothingRefused(cfg, b);
    DecisionsAreSpecified(est, cfg, a, k, h);
    DecisionsAreSpecified(est, cfg, b, k, h);
  }

  // Just after a rotation the tracked pairs are exactly those with an accepted call in one of the
  // last two epochs, and none of them is due for eviction.
  lemma LiveAfterRotation(est: Estimator, cfg: Config, events: seq<Event>, k: Key)
    ensures
      var live := Run(est, cfg, events + [Rotation]);
      var accepted := Accepted(cfg, events);
      && (k in live <==> Epoch(accepted, k, 0) != [] || Epoch(accepted, k, 1) != [])
      && (k in live ==>
            && live[k].idleEpochs < STALE_SWEEP_EPOCHS
            && live[k].current == []
            && live[k].previous == Epoch(accepted, k, 0))
  {
    var events', accepted := events + [Rotation], Accepted(cfg, events);
    assert events'[..|events|] == events;
    RunIsExact(est, cfg, events');
    assert Accepted(cfg, events') == accepted + [Rotation];
    forall ago: nat ensures Epoch(accepted + [Rotation], k, ago)
                         == if ago == 0 then [] else Epoch(accepted, k, ago - 1) {
      EpochAfterRotation(accepted, k, ago);
    }
  }

  // With the ideal sketch, the cached counts of every tracker in every reachable state trail the true
  // ones by at most 63.
  lemma LagAlways(cfg: Config, events: seq<Event>, k: Key)
    requires k in Run(Distinct, cfg, events)
    ensures
      var w := Run(Distinct, cfg, events)[k];
      && w.cachedCurr <= Distinct(w.current) <= w.cachedCurr + 63
      && w.cachedPrev <= Distinct(w.previous) <= w.cachedPrev + 63
  {
    RunIsExact(Distinct, cfg, events);
    var w := Run(Distinct, cfg, events)[k];
    LagBound(w.current);
    LagBound(w.previous);
  }

  // In every run with a limit of at least 63, a call that brings no value unseen in the previous
  // epoch to an epoch without such values is not dropped.
  lemma StablePairsPass(cfg: Config, events: seq<Event>, k: Key, h: Hash)
    requires Limit(cfg, k.metric) >= 63
    requires
      var accepted := Accepted(cfg, events);
      Elements(Epoch(accepted, k, 0) + [h]) <= Elements(Epoch(accepted, k, 1))
    ensures !Decision(Distinct, cfg, events, k, h)
  {
    DecisionsAreSpecified(Distinct, cfg, events, k, h);
    StableNeverPenalised(Limit(cfg, k.metric));
  }

  // In every run, for an admitted call: the bounds on what an answer says.
  lemma DecisionInBounds(cfg: Config, events: seq<Event>, k: Key, h: Hash)
    requires Admitted(cfg, Accepted(cfg, events), k)
    ensures
      var accepted := Accepted(cfg, events);
      InBounds(Epoch(accepted, k, 0) + [h], Epoch(accepted, k, 1), Limit(cfg, k.metric),
               Decision(Distinct, cfg, events, k, h))
  {
    hide InBounds, Accepted, Admitted, Epoch, Decision, Drops;
    DecisionsAreSpecified(Distinct, cfg, events, k, h);
    var accepted := Accepted(cfg, events);
    DropsInBounds(Epoch(accepted, k, 0) + [h], Epoch(accepted, k, 1), Limit(cfg, k.metric));
  }

  // The limit in these bounds is the override for the metric if there is one, the global one if not.
  lemma OverridesDecide(cfg: Config, events: seq<Event>, k: Key, h: Hash)
    requires Admitted(cfg, Accepted(cfg, events), k)
    ensures
      var accepted, dropped := Accepted(cfg, events), Decision(Distinct, cfg, events, k, h);
      var curr, prev := Epoch(accepted, k, 0) + [h], Epoch(accepted, k, 1);
      && (k.metric in cfg.overrides ==> InBounds(curr, prev, cfg.overrides[k.metric], dropped))
      && (k.metric !in cfg.overrides ==> InBounds(curr, prev, cfg.maxDelta, dropped))
  {
    hide InBounds, Accepted, Admitted, Epoch, Decision;
    DecisionInBounds(cfg, events, k, h);
  }

  // What a pair is allowed depends on the override for its own metric only.
  lemma OverridesAreLocal(est: Estimator, cfg: Config, cfg': Config, events: seq<Event>, k: Key, h: Hash)
    requires cfg'.maxTrackers == cfg.maxTrackers && cfg'.maxDelta == cfg.maxDelta
    requires k.metric in cfg'.overrides <==> k.metric in cfg.overrides
    requires k.metric in cfg.overrides ==> cfg'.overrides[k.metric] == cfg.overrides[k.metric]
    ensures Decision(est, cfg', events, k, h) <==> Decision(est, cfg, events, k, h)
  {
    hide Decision, Accepted, Epoch, Drops, RecentKeys;
    DecisionsAreSpecified(est, cfg, events, k, h);
    DecisionsAreSpecified(est, cfg', events, k, h);
    AcceptedByCap(cfg, cfg', events);
  }

  lemma {:induction false} AcceptedByCap(cfg: Config, cfg': Config, events: seq<Event>)
    requires cfg'.maxTrackers == cfg.maxTrackers
    ensures Accepted(cfg', events) == Accepted(cfg, events)
  {
    hide RecentKeys;
    if events != [] {
      AcceptedByCap(cfg, cfg', events[..|events| - 1]);
    }
  }

  function CallsOn(k: Key, hs: seq<Hash>): (events: seq<Event>)
    ensures |events| == |hs|
    ensures forall e :: e in events ==> e.Call? && e.key == k
  {
    seq(|hs|, i requires 0 <= i < |hs| => Call(k, hs[i]))
  }

  lemma CallsOnSnoc(before: seq<Event>, k: Key, hs: seq<Hash>, h: Hash)
    ensures before + CallsOn(k, []) == before
    ensures before + CallsOn(k, hs + [h]) == before + CallsOn(k, hs) + [Call(k, h)]
  {
  }

  lemma {:induction false} EpochAfterCalls(before: seq<Event>, k: Key, hs: seq<Hash>)
    ensures Epoch(before + CallsOn(k, hs), k, 0) == Epoch(before, k, 0) + hs
    ensures Epoch(before + CallsOn(k, hs), k, 1) == Epoch(before, k, 1)
  {
    hide Epoch, CallsOn;
    if hs == [] {
      CallsOnSnoc(before, k, [], 0);
    } else {
      var rest, h := hs[..|hs| - 1], hs[|hs| - 1];
      CallsOnSnoc(before, k, rest, h);
      assert rest + [h] == hs;
      EpochAfterCalls(before, k, rest);
      EpochAfterCall(before + CallsOn(k, rest), k, h, k, 0);
      EpochAfterCall(before + CallsOn(k, rest), k, h, k, 1);
    }
  }

  // A pair that is alone in the registry is always admitted.
  lemma {:induction false} SoloAccepted(cfg: Config, events: seq<Event>, k: Key)
    requires forall e :: e in events && e.Call? ==> e.key == k
    ensures Accepted(cfg, events) == events && Admitted(cfg, events, k)
  {
    if k !in RecentKeys(events) {
      assert RecentKeys(events) == {};
    }
    hide RecentKeys;
    if events != [] {
      SoloAccepted(cfg, events[..|events| - 1], k);
    }
  }

  // The call brings no value unseen in the previous epoch to an epoch without such values.
  ghost predicate StableCall(cfg: Config, events: seq<Event>, k: Key, h: Hash) {
    var accepted := Accepted(cfg, events);
    Elements(Epoch(accepted, k, 0) + [h]) <= Elements(Epoch(accepted, k, 1))
  }

  // In whole runs, too, no stable call is ever dropped if and only if the limit is at least 63. Below
  // that, 127 calls with different values, a rotation and the same calls again make the next one drop.
  lemma StablePairsPassExactly(cfg: Config, k: Key)
    ensures (forall events, h :: StableCall(cfg, events, k, h) ==> !Decision(Distinct, cfg, events, k, h))
       <==> if k.metric in cfg.overrides then cfg.overrides[k.metric] >= 63 else cfg.maxDelta >= 63
  {
    hide Decision, Accepted, Epoch;
    if Limit(cfg, k.metric) >= 63 {
      forall events, h | StableCall(cfg, events, k, h) ensures !Decision(Distinct, cfg, events, k, h) {
        StablePairsPass(cfg, events, k, h);
      }
    } else {
      var events, h := StableDrop(cfg, k);
    }
  }

  lemma StableDrop(cfg: Config, k: Key) returns (events: seq<Event>, h: Hash)
    requires Limit(cfg, k.metric) < 63
    ensures StableCall(cfg, events, k, h) && Decision(Distinct, cfg, events, k, h)
  {
    hide Limit, Accepted, Admitted, Epoch, Drops, Decision, Ascending, Distinct, Elements;
    var hs := Ascending(127);
    h := hs[0];
    var first := [] + CallsOn(k, hs) + [Rotation];
    events := first + CallsOn(k, hs);
    SoloAccepted(cfg, events, k);
    EpochAfterCalls([], k, hs);
    EpochAfterRotation([] + CallsOn(k, hs), k, 0);
    EpochAfterRotation([] + CallsOn(k, hs), k, 1);
    EpochAfterCalls(first, k, hs);
    NoEpoch(k);
    assert Epoch(events, k, 0) == hs && Epoch(events, k, 1) == hs;
    StablePenalty(Limit(cfg, k.metric));
    DecisionsAreSpecified(Distinct, cfg, events, k, h);
  }

  lemma NoEpoch(k: Key)
    ensures Epoch([], k, 0) == [] && Epoch([], k, 1) == []
  {
  }

  // In its first epoch, a pair alone in the registry is dropped from the call on that makes its
  // different values exceed the limit, for as long as each call refreshes the estimate.
  lemma FirstEpochThreshold(cfg: Config, k: Key, hs: seq<Hash>, h: Hash)
    requires |hs| < 64
    ensures
      var limit := if k.metric in cfg.overrides then cfg.overrides[k.metric] else cfg.maxDelta;
      Decision(Distinct, cfg, CallsOn(k, hs), k, h) <==> Distinct(hs + [h]) > limit
  {
    assert LazyEstimate(Distinct, []) == 0;
    hide Accepted, Admitted, Epoch, Decision, Distinct, LazyEstimate;
    var events := CallsOn(k, hs);
    SoloAccepted(cfg, events, k);
    EpochAfterCalls([], k, hs);
    NoEpoch(k);
    assert [] + events == events && [] + hs == hs;
    FreshEstimate(Distinct, hs + [h]);
    DecisionsAreSpecified(Distinct, cfg, events, k, h);
  }

  // Called sequentially, the registry never exceeds its cap.
  lemma {:induction false} CapRespected(est: Estimator, cfg: Config, events: seq<Event>)
    requires cfg.maxTrackers > 0
    ensures |Run(est, cfg, events)| <= cfg.maxTrackers
  {
    if events == [] {
      return;
    }
    var live := Run(est, cfg, events[..|events| - 1]);
    CapRespected(est, cfg, events[..|events| - 1]);
    match events[|events| - 1] {
      case Call(k, h) =>
        if Admits(cfg, live, k) {
          assert live[k := Insert(est, WindowFor(live, k), h)].Keys == live.Keys + {k};
        }
      case Rotation =>
        SubsetSize(RotateAll(live).Keys, live.Keys);
    }
  }

  lemma AcceptedStep(cfg: Config, events: seq<Event>, e: Event)
    ensures
      var accepted := Accepted(cfg, events);
      Accepted(cfg, events + [e]) ==
        if e.Call? && !Admitted(cfg, accepted, e.key) then accepted else accepted + [e]
  {
    assert (events + [e])[..|events|] == events;
  }

  lemma {:induction false} AcceptedExtends(cfg: Config, events: seq<Event>, more: seq<Event>)
    returns (ext: seq<Event>)
    requires Rotation !in more
    ensures Accepted(cfg, events + more) == Accepted(cfg, events) + ext
    ensures Rotation !in ext
  {
    hide Accepted, Admitted;
    if more == [] {
      assert events + more == events;
      ext := [];
    } else {
      var rest, e := more[..|more| - 1], more[|more| - 1];
      var tail := AcceptedExtends(cfg, events, rest);
      assert e in more;
      assert events + more == (events + rest) + [e];
      AcceptedStep(cfg, events + rest, e);
      ext := if Admitted(cfg, Accepted(cfg, events + rest), e.key) then tail + [e] else tail;
      assert Accepted(cfg, events) + tail + [e] == Accepted(cfg, events) + (tail + [e]);
    }
  }

  lemma {:induction false} EpochExtends(events: seq<Event>, ext: seq<Event>, k: Key, ago: nat)
    requires Rotation !in ext
    ensures
      var before, after := Epoch(events, k, ago), Epoch(events + ext, k, ago);
      if ago == 0 then before <= after else before == after
  {
    if ext == [] {
      assert events + ext == events;
    } else {
      var rest, e := ext[..|ext| - 1], ext[|ext| - 1];
      EpochExtends(events, rest, k, ago);
      assert e in ext;
      assert events + ext == (events + rest) + [e];
      EpochAfterCall(events + rest, e.key, e.hash, k, ago);
    }
  }

  // Until the next rotation an accepted call stays in its epoch and the epoch before stays as it is.
  lemma EpochsUntilRotation(cfg: Config, events: seq<Event>, k: Key, h: Hash, more: seq<Event>)
    requires Admitted(cfg, Accepted(cfg, events), k)
    requires Rotation !in more
    ensures
      var before, after := Accepted(cfg, events), Accepted(cfg, events + [Call(k, h)] + more);
      && Epoch(before, k, 0) + [h] <= Epoch(after, k, 0)
      && Epoch(before, k, 1) == Epoch(after, k, 1)
  {
    var before := Accepted(cfg, events);
    AcceptedStep(cfg, events, Call(k, h));
    EpochAfterCall(before, k, h, k, 0);
    EpochAfterCall(before, k, h, k, 1);
    var ext := AcceptedExtends(cfg, events + [Call(k, h)], more);
    EpochExtends(before + [Call(k, h)], ext, k, 0);
    EpochExtends(before + [Call(k, h)], ext, k, 1);
  }

  // With the ideal sketch, a pair that has been dropped is dropped for the rest of the epoch,
  // whatever other calls come between.
  lemma DropsUntilRotation(cfg: Config, events: seq<Event>, k: Key, h: Hash, more: seq<Event>, h': Hash)
    requires Decision(Distinct, cfg, events, k, h)
    requires Rotation !in more
    ensures Decision(Distinct, cfg, events + [Call(k, h)] + more, k, h')
  {
    var later := events + [Call(k, h)] + more;
    var before, after := Accepted(cfg, events), Accepted(cfg, later);
    DecisionsAreSpecified(Distinct, cfg, events, k, h);
    EpochsUntilRotation(cfg, events, k, h, more);
    var curr, curr' := Epoch(before, k, 0) + [h], Epoch(after, k, 0) + [h'];
    assert Drops(Distinct, curr', Epoch(after, k, 1), Limit(cfg, k.metric)) by {
      assert curr' == curr + curr'[|curr|..];
      DropPersists(curr, curr'[|curr|..], Epoch(before, k, 1), Limit(cfg, k.metric));
    }
    RecentKeysAreRecent(after, k);
    DecisionsAreSpecified(Distinct, cfg, later, k, h');
  }
}
