// The order of the tracker locks: every tracker holds what its own inserts and rotations in this order
// prescribe, and every call ends once, refused or with one insert.
module Linearization {
  import opened Hashing
  import opened Interleaving
  import opened Settings
  import opened SlidingWindow

  // ---------------------------------------------------------------------------------------------
  // Each tracker holds the window its own marks prescribe.

  // The hashes inserted into tracker `id` in the epoch `ago` of its rotations back.
  ghost function IdEpoch(history: seq<Mark>, id: Id, ago: nat): seq<Hash> {
    if history == [] then [] else
    var rest := history[..|history| - 1];
    match history[|history| - 1]
    case Inserted(r, id', _) =>
      if id' == id && ago == 0 then IdEpoch(rest, id, 0) + [r.h] else IdEpoch(rest, id, ago)
    case Turned(_, id') =>
      if id' != id then IdEpoch(rest, id, ago) else if ago == 0 then [] else IdEpoch(rest, id, ago - 1)
    case Evicted(_) => IdEpoch(rest, id, ago)
  }

  ghost predicate MarkOk(s: Sys, m: Mark) {
    match m
    case Inserted(r, id, _) => id < |s.objects| && s.objects[id].key == r.k
    case Turned(k, id) => id < |s.objects| && s.objects[id].key == k
    case Evicted(_) => true
  }

  ghost predicate Windows(env: Env, s: Sys) {
    && (forall i :: 0 <= i < |s.history| ==> MarkOk(s, s.history[i]))
    && (forall id :: 0 <= id < |s.objects| ==> WindowOk(env, s.history, id, s.objects[id].window))
  }

  ghost predicate WindowOk(env: Env, history: seq<Mark>, id: Id, w: Window) {
    Holds(env.est, w, IdEpoch(history, id, 0), IdEpoch(history, id, 1))
  }

  lemma IdEpochSnoc(history: seq<Mark>, m: Mark, id: Id, ago: nat)
    ensures IdEpoch(history + [m], id, ago) ==
      match m
      case Inserted(r, id', _) =>
        if id' == id && ago == 0 then IdEpoch(history, id, 0) + [r.h] else IdEpoch(history, id, ago)
      case Turned(_, id') =>
        if id' != id then IdEpoch(history, id, ago) else if ago == 0 then [] else IdEpoch(history, id, ago - 1)
      case Evicted(_) => IdEpoch(history, id, ago)
  {
    assert (history + [m])[..|history|] == history;
  }

  lemma {:induction false} UnusedId(history: seq<Mark>, id: Id, ago: nat)
    requires forall i :: 0 <= i < |history| ==> history[i].Evicted? || history[i].id != id
    ensures IdEpoch(history, id, ago) == []
  {
    if history != [] {
      UnusedId(history[..|history| - 1], id, ago);
    }
  }

  // A step that records no mark and at most adds a new tracker.
  lemma WindowsUnmarked(env: Env, s: Sys, s': Sys)
    requires Windows(env, s)
    requires s'.history == s.history
    requires s'.objects == s.objects || exists k :: s'.objects == s.objects + [Object(k, EMPTY_WINDOW)]
    ensures Windows(env, s')
  {
    if s'.objects != s.objects {
      var id := |s.objects|;
      forall i | 0 <= i < |s.history| ensures s.history[i].Evicted? || s.history[i].id != id {
        assert MarkOk(s, s.history[i]);
      }
      UnusedId(s.history, id, 0);
      UnusedId(s.history, id, 1);
      hide Holds;
      assert Holds(env.est, EMPTY_WINDOW, [], []) by {
        EmptyHolds(env.est);
      }
    }
    forall i | 0 <= i < |s.history| ensures MarkOk(s', s.history[i]) {
      assert MarkOk(s, s.history[i]);
    }
  }

  lemma EmptyHolds(est: Estimator)
    ensures Holds(est, EMPTY_WINDOW, [], [])
  {
  }

  // A step that marks one tracker and updates its window accordingly.
  lemma WindowsMarked(env: Env, s: Sys, s': Sys, m: Mark)
    requires Windows(env, s) && s'.history == s.history + [m] && MarkOk(s, m)
    requires match m
      case Inserted(r, id, _) =>
        s'.objects == s.objects[id := s.objects[id].(window := Insert(env.est, s.objects[id].window, r.h))]
      case Turned(_, id) =>
        s'.objects == s.objects[id := s.objects[id].(window := Rotate(s.objects[id].window))]
      case Evicted(_) => s'.objects == s.objects
    ensures Windows(env, s')
  {
    forall i | 0 <= i < |s'.history| ensures MarkOk(s', s'.history[i]) {
      assert i < |s.history| ==> MarkOk(s, s.history[i]);
    }
    forall id | 0 <= id < |s.objects| ensures WindowOk(env, s'.history, id, s'.objects[id].window) {
      var w := s.objects[id].window;
      assert WindowOk(env, s.history, id, w);
      IdEpochSnoc(s.history, m, id, 0);
      IdEpochSnoc(s.history, m, id, 1);
      var curr, prev := IdEpoch(s.history, id, 0), IdEpoch(s.history, id, 1);
      if m.Inserted? && m.id == id {
        InsertHolds(env.est, w, curr, prev, m.r.h);
      } else if m.Turned? && m.id == id {
        RotateHolds(env.est, w, curr, prev);
      }
      hide Holds, IdEpoch, Insert, Rotate;
    }
  }

  lemma WindowsAlways(env: Env, cfg: Config, s: Sys, a: Action)
    requires Sound(env, s) && Windows(env, s) && Enabled(env, s, a)
    ensures Windows(env, Next(env, cfg, s, a))
  {
    var s' := Next(env, cfg, s, a);
    if a.Step? && s.threads[a.t].Inserting? {
      assert PcOk(env, s, s.threads[a.t]);
      WindowsMarked(env, s, s', s'.history[|s.history|]);
    } else if a.StepRotator? && s.rotator.Turning? && s.rotator.todo != [] {
      var (k, id) := s.rotator.todo[0];
      assert InPlace(env, s, s.rotator.b, k, s.shards[s.rotator.b][k]);
      WindowsMarked(env, s, s', Turned(k, id));
    } else if a.StepRotator? && s.rotator.Deleting? && s.rotator.stale != [] {
      WindowsMarked(env, s, s', Evicted(s.rotator.stale[0]));
    } else {
      WindowsUnmarked(env, s, s') by {
        hide Exclusive, Routed, RotatorOk, PcOk, Windows, Insert, Rotate, Bucket, NoWriter, NoReader, Exceeds;
      }
    }
    hide *;
  }

  // ---------------------------------------------------------------------------------------------
  // Every call ends exactly once: refused, or with one insert.

  ghost predicate InFlight(s: Sys, t: Tid, r: Request) {
    t in s.threads && s.threads[t] != Outside && s.threads[t].r == r
  }

  ghost predicate MarkedAt(s: Sys, i: nat, r: Request) {
    i < |s.history| && s.history[i].Inserted? && s.history[i].r == r
  }

  ghost predicate Open(s: Sys, r: Request) {
    exists t :: InFlight(s, t, r)
  }

  ghost predicate Done(s: Sys, r: Request) {
    exists i :: MarkedAt(s, i, r)
  }

  // Each call has exactly one of the three fates, at one place.
  ghost predicate OneFate(s: Sys, r: Request) {
    && (Open(s, r) || Done(s, r) || r in s.refused)
    && !(Open(s, r) && Done(s, r)) && !(Open(s, r) && r in s.refused) && !(Done(s, r) && r in s.refused)
    && (forall t, u :: InFlight(s, t, r) && InFlight(s, u, r) ==> t == u)
    && (forall i, j :: MarkedAt(s, i, r) && MarkedAt(s, j, r) ==> i == j)
  }

  ghost predicate Fated(s: Sys) {
    && (forall n :: 0 <= n < |s.calls| ==> s.calls[n].no == n && OneFate(s, s.calls[n]))
    && (forall t, r :: InFlight(s, t, r) ==> r in s.calls)
    && (forall i, r :: MarkedAt(s, i, r) ==> r in s.calls)
    && (forall r :: r in s.refused ==> r in s.calls)
  }

  // The three moves of a call, by their effect on who is in flight, marked and refused.
  ghost predicate SameFlights(s: Sys, s': Sys, except: Tid) {
    forall t, r :: t != except ==> (InFlight(s', t, r) <==> InFlight(s, t, r))
  }

  ghost predicate SameMarks(s: Sys, s': Sys) {
    forall i, r :: MarkedAt(s', i, r) <==> MarkedAt(s, i, r)
  }

  lemma FateKept(s: Sys, s': Sys, r: Request)
    requires OneFate(s, r) && SameMarks(s, s') && (r in s'.refused <==> r in s.refused)
    requires forall t :: InFlight(s', t, r) <==> InFlight(s, t, r)
    ensures OneFate(s', r)
  {
    assert Open(s', r) <==> Open(s, r) by {
      if Open(s, r) {
        var t :| InFlight(s, t, r);
        assert InFlight(s', t, r);
      }
    }
    assert Done(s', r) <==> Done(s, r) by {
      if Done(s, r) {
        var i :| MarkedAt(s, i, r);
        assert MarkedAt(s', i, r);
      }
    }
    hide InFlight, MarkedAt;
  }

  // Nothing happens to any call.
  lemma FatesUnchanged(s: Sys, s': Sys)
    requires Fated(s) && SameMarks(s, s') && s'.calls == s.calls && s'.refused == s.refused
    requires forall t, r :: InFlight(s', t, r) <==> InFlight(s, t, r)
    ensures Fated(s')
  {
    hide InFlight, MarkedAt, OneFate;
    forall n | 0 <= n < |s.calls| ensures OneFate(s', s.calls[n]) {
      FateKept(s, s', s.calls[n]);
    }
  }

  // A goroutine ends its call `r0`, by refusal or by one insert.
  lemma FateSealed(s: Sys, s': Sys, t0: Tid, r0: Request)
    requires Fated(s) && InFlight(s, t0, r0) && s'.calls == s.calls && SameFlights(s, s', t0)
    requires forall r :: !InFlight(s', t0, r)
    requires
      || (SameMarks(s, s') && s'.refused == s.refused + {r0})
      || (s'.refused == s.refused && forall i, r :: MarkedAt(s', i, r) <==> MarkedAt(s, i, r) || (i == |s.history| && r == r0))
    ensures Fated(s')
  {
    forall n | 0 <= n < |s.calls| ensures OneFate(s', s.calls[n]) {
      FateSealedOne(s, s', t0, r0, s.calls[n]);
    }
    hide OneFate;
    forall t, r | InFlight(s', t, r) ensures r in s'.calls {
      assert InFlight(s, t, r);
    }
    hide InFlight, MarkedAt;
  }

  lemma FateSealedOne(s: Sys, s': Sys, t0: Tid, r0: Request, r: Request)
    requires Fated(s) && OneFate(s, r) && InFlight(s, t0, r0) && SameFlights(s, s', t0)
    requires forall r :: !InFlight(s', t0, r)
    requires
      || (SameMarks(s, s') && s'.refused == s.refused + {r0})
      || (s'.refused == s.refused && forall i, r :: MarkedAt(s', i, r) <==> MarkedAt(s, i, r) || (i == |s.history| && r == r0))
    ensures OneFate(s', r)
  {
    assert Open(s, r0);
    assert !MarkedAt(s, |s.history|, r);
    if r == r0 {
      assert forall t :: !InFlight(s', t, r);
      assert !Done(s, r);
      if s'.refused == s.refused {
        assert MarkedAt(s', |s.history|, r);
      }
    } else {
      assert !InFlight(s, t0, r);
      assert forall t :: InFlight(s', t, r) <==> InFlight(s, t, r);
      assert forall i :: MarkedAt(s', i, r) <==> MarkedAt(s, i, r);
      if Open(s, r) {
        var t :| InFlight(s, t, r);
        assert InFlight(s', t, r);
      }
      if Done(s, r) {
        var i :| MarkedAt(s, i, r);
        assert MarkedAt(s', i, r);
      }
    }
    hide InFlight, MarkedAt;
  }

  // A new call begins.
  lemma FateOpened(s: Sys, s': Sys, t0: Tid, r0: Request)
    requires Fated(s) && r0.no == |s.calls| && s'.calls == s.calls + [r0] && s'.refused == s.refused
    requires SameMarks(s, s') && SameFlights(s, s', t0)
    requires forall r :: !InFlight(s, t0, r)
    requires forall r :: InFlight(s', t0, r) <==> r == r0
    ensures Fated(s')
  {
    assert forall n :: 0 <= n < |s.calls| ==> s.calls[n].no == n;
    assert r0 !in s.calls;
    forall n | 0 <= n < |s'.calls| ensures OneFate(s', s'.calls[n]) {
      if n < |s.calls| {
        FateKept(s, s', s.calls[n]);
      } else {
        NewFate(s, s', t0, r0);
      }
    }
    hide OneFate;
    forall t, r | InFlight(s', t, r) ensures r in s'.calls {
      assert t != t0 ==> InFlight(s, t, r);
    }
    hide InFlight, MarkedAt;
  }

  lemma NewFate(s: Sys, s': Sys, t0: Tid, r0: Request)
    requires Fated(s) && r0 !in s.calls && s'.refused == s.refused
    requires SameMarks(s, s') && SameFlights(s, s', t0)
    requires InFlight(s', t0, r0)
    ensures OneFate(s', r0)
  {
    assert forall i :: !MarkedAt(s', i, r0);
    assert forall t :: t != t0 ==> !InFlight(s', t, r0);
    hide OneFate, InFlight, MarkedAt;
    assert Open(s', r0);
  }

  lemma SameThreads(env: Env, cfg: Config, s: Sys, a: Action, t: Tid)
    requires Sound(env, s) && Enabled(env, s, a)
    ensures var s' := Next(env, cfg, s, a);
      && s'.threads.Keys == s.threads.Keys
      && (t in s.threads && a != Step(t) && !(a.Begin? && a.t == t) ==> s'.threads[t] == s.threads[t])
  {
    hide Exclusive, Routed, RotatorOk, PcOk, Insert, Rotate, Bucket, NoWriter, NoReader, Exceeds, IsSnapshot;
  }

  lemma FatedBegin(env: Env, cfg: Config, s: Sys, a: Action)
    requires Sound(env, s) && Fated(s) && Enabled(env, s, a) && a.Begin?
    ensures Fated(Next(env, cfg, s, a))
  {
    hide Sound, Fated, OneFate;
    var s' := Next(env, cfg, s, a);
    FateOpened(s, s', a.t, s'.threads[a.t].r);
  }

  lemma FatedEnd(env: Env, cfg: Config, s: Sys, t: Tid)
    requires Sound(env, s) && Fated(s) && Enabled(env, s, Step(t))
    requires s.threads[t].Refusing? || s.threads[t].Inserting?
    ensures Fated(Next(env, cfg, s, Step(t)))
  {
    assert PcOk(env, s, s.threads[t]);
    hide Sound, Fated, OneFate, Insert, Bucket, Exceeds;
    FateSealed(s, Next(env, cfg, s, Step(t)), t, s.threads[t].r);
  }

  lemma FatedOtherwise(env: Env, cfg: Config, s: Sys, a: Action)
    requires Sound(env, s) && Fated(s) && Enabled(env, s, a)
    requires !a.Begin? && !(a.Step? && (s.threads[a.t].Refusing? || s.threads[a.t].Inserting?))
    ensures Fated(Next(env, cfg, s, a))
  {
    hide Exclusive, Routed, RotatorOk, PcOk, Fated, OneFate, Rotate, Bucket, NoWriter, NoReader, IsSnapshot;
    FatesUnchanged(s, Next(env, cfg, s, a));
  }

  lemma FatedAlways(env: Env, cfg: Config, s: Sys, a: Action)
    requires Sound(env, s) && Fated(s) && Enabled(env, s, a)
    ensures Fated(Next(env, cfg, s, a))
  {
    hide Sound, Fated, Next;
    if a.Begin? {
      FatedBegin(env, cfg, s, a);
    } else if a.Step? && (s.threads[a.t].Refusing? || s.threads[a.t].Inserting?) {
      FatedEnd(env, cfg, s, a.t);
    } else {
      FatedOtherwise(env, cfg, s, a);
    }
  }
}
