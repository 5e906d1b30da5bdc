// The locks cannot deadlock, and the rotator and the calls that have begun come to an end however they
// are scheduled.
module Progress {
  import opened ConcurrentRuns
  import opened Interleaving
  import opened Linearization
  import opened Settings
  import opened SlidingWindow

  ghost predicate AtRest(s: Sys) {
    s.rotator == Resting && forall t :: t in s.threads ==> s.threads[t] == Outside
  }

  // A step of somebody who is already under way.
  predicate Continues(a: Action) {
    a.Step? || a.StepRotator?
  }

  // A map can be listed in some order.
  lemma {:induction false} Enumerate(m: map<Key, Id>) returns (order: seq<(Key, Id)>)
    ensures IsSnapshot(m, order)
    decreases |m|
  {
    if m == map[] {
      order := [];
    } else {
      var k :| k in m;
      assert |m - {k}| < |m| by {
        assert m == (m - {k})[k := m[k]];
        assert (m - {k}).Keys == m.Keys - {k};
        assert |m| == |m.Keys| && |m - {k}| == |(m - {k}).Keys|;
      }
      var rest := Enumerate(m - {k});
      order := [(k, m[k])] + rest;
      EnumerateOneMore(m, k, rest);
    }
  }

  lemma EnumerateOneMore(m: map<Key, Id>, k: Key, rest: seq<(Key, Id)>)
    requires k in m && IsSnapshot(m - {k}, rest)
    ensures IsSnapshot(m, [(k, m[k])] + rest)
  {
    var order := [(k, m[k])] + rest;
    forall k' | k' in m ensures exists i :: 0 <= i < |order| && order[i].0 == k' {
      if k' == k {
        assert order[0].0 == k';
      } else {
        assert k' in m - {k};
        var i :| 0 <= i < |rest| && rest[i].0 == k';
        assert order[i + 1].0 == k';
      }
    }
  }

  // A goroutine that is not waiting for a lock can go on.
  lemma Unblocked(env: Env, s: Sys, t: Tid)
    requires t in s.threads && s.threads[t] != Outside && !s.threads[t].ReadLocking? && !s.threads[t].WriteLocking?
    ensures Enabled(env, s, Step(t))
  {
    hide NoWriter, NoReader, Bucket;
  }

  // When all goroutines under way wait for locks, the rotator can go on ...
  lemma RotatorUnblocked(env: Env, s: Sys) returns (a: Action)
    requires Routed(env, s) && RotatorOk(env, s) && s.rotator != Resting
    requires forall t :: t in s.threads ==> !InWriteSection(s.threads[t]) && !s.threads[t].Looking?
    ensures Continues(a) && Enabled(env, s, a)
  {
    hide IsSnapshot, Bucket, StaleOk, TodoOk, InPlace;
    var order := [];
    if s.rotator.Snapping? {
      order := Enumerate(s.shards[s.rotator.b]);
    }
    a := StepRotator(order);
  }

  // ... and when it rests, any of them can.
  lemma WaiterUnblocked(env: Env, s: Sys, t: Tid)
    requires s.rotator == Resting && t in s.threads && s.threads[t] != Outside
    requires forall u :: u in s.threads ==> !InWriteSection(s.threads[u]) && !s.threads[u].Looking?
    ensures Enabled(env, s, Step(t))
  {
    hide Bucket;
  }

  // Unless nobody is under way, somebody who is can go on.
  lemma NoDeadlock(env: Env, s: Sys) returns (a: Action)
    requires Sound(env, s) && !AtRest(s)
    ensures Continues(a) && Enabled(env, s, a)
  {
    hide Exclusive, Routed, RotatorOk, PcOk, Enabled;
    if t :| t in s.threads && (InWriteSection(s.threads[t]) || s.threads[t].Looking?) {
      Unblocked(env, s, t);
      a := Step(t);
    } else if s.rotator != Resting {
      a := RotatorUnblocked(env, s);
    } else {
      var t :| t in s.threads && s.threads[t] != Outside;
      WaiterUnblocked(env, s, t);
      a := Step(t);
    }
  }

  // ---------------------------------------------------------------------------------------------
  // What is left to do.

  // At most so many steps to the end of the call.
  function Rank(pc: Pc): nat {
    match pc
    case Outside => 0
    case ReadLocking(_) => 9
    case Looking(_) => 8
    case WriteLocking(_) => 7
    case LookingAgain(_) => 6
    case Checking(_) => 5
    case Refusing(_) => 1
    case Creating(_) => 4
    case Counting(_, _) => 3
    case WriteUnlocking(_, _) => 2
    case Inserting(_, _) => 1
  }

  ghost function Work(threads: map<Tid, Pc>): nat {
    if threads == map[] then 0 else
    var t :| t in threads;
    Rank(threads[t]) + Work(threads - {t})
  }

  lemma {:induction false} WorkOfOne(threads: map<Tid, Pc>, t: Tid)
    requires t in threads
    ensures Work(threads) == Rank(threads[t]) + Work(threads - {t})
    decreases |threads|
  {
    hide Rank;
    var u :| u in threads && Work(threads) == Rank(threads[u]) + Work(threads - {u});
    if u != t {
      var rest := threads - {u};
      Smaller(threads, u);
      WorkOfOne(rest, t);
      assert rest - {t} == threads - {t} - {u};
      Smaller(threads, t);
      WorkOfOne(threads - {t}, u);
    }
  }

  lemma Smaller(threads: map<Tid, Pc>, t: Tid)
    requires t in threads
    ensures |threads - {t}| < |threads|
  {
    assert (threads - {t}).Keys == threads.Keys - {t};
    assert |threads| == |threads.Keys| && |threads - {t}| == |(threads - {t}).Keys|;
  }

  lemma WorkUpdate(threads: map<Tid, Pc>, t: Tid, pc: Pc)
    requires t in threads
    ensures Work(threads[t := pc]) == Work(threads) - Rank(threads[t]) + Rank(pc)
  {
    hide Rank;
    WorkOfOne(threads, t);
    WorkOfOne(threads[t := pc], t);
    assert threads[t := pc] - {t} == threads - {t};
  }

  // Shards left, phases left of this shard, keys left in this phase.
  function RotatorWork(rot: RotatorPc): (int, nat, nat) {
    match rot
    case Resting => (0, 0, 0)
    case SnapLocking(b) => (NUM_SHARDS - b, 5, 0)
    case Snapping(b) => (NUM_SHARDS - b, 4, 0)
    case Turning(b, todo, _) => (NUM_SHARDS - b, 3, |todo|)
    case SweepLocking(b, _) => (NUM_SHARDS - b, 2, 0)
    case Deleting(b, stale) => (NUM_SHARDS - b, 1, 2 * |stale|)
    case Uncounting(b, stale) => (NUM_SHARDS - b, 1, 2 * |stale| + 1)
  }

  predicate Less(a: (int, nat, nat), b: (int, nat, nat)) {
    a.0 < b.0 || (a.0 == b.0 && (a.1 < b.1 || (a.1 == b.1 && a.2 < b.2)))
  }

  // A step of a goroutine brings its call closer to the end and leaves the rotator where it is; a step
  // of the rotator brings the rotation closer to its end and leaves the goroutines where they are.
  lemma Advances(env: Env, cfg: Config, s: Sys, a: Action)
    requires Sound(env, s) && Enabled(env, s, a) && Continues(a)
    ensures
      var s' := Next(env, cfg, s, a);
      && s'.calls == s.calls
      && if a.Step? then Work(s'.threads) < Work(s.threads) && s'.rotator == s.rotator
         else s'.threads == s.threads && RotatorWork(s'.rotator).0 >= 0 && Less(RotatorWork(s'.rotator), RotatorWork(s.rotator))
  {
    if a.Step? {
      StepAdvances(env, cfg, s, a.t);
    } else {
      hide Sound, Next, Enabled, Work, RotatorWork;
      RotatorAdvances(env, cfg, s, a);
    }
  }

  lemma RotatorAdvances(env: Env, cfg: Config, s: Sys, a: Action)
    requires Sound(env, s) && Enabled(env, s, a) && a.StepRotator?
    ensures
      var s' := Next(env, cfg, s, a);
      && s'.calls == s.calls && s'.threads == s.threads
      && RotatorWork(s'.rotator).0 >= 0 && Less(RotatorWork(s'.rotator), RotatorWork(s.rotator))
  {
    hide Exclusive, PcOk, Routed, TodoOk, StaleOk, Bucket, NoWriter, NoReader, IsSnapshot, Rotate, STALE_SWEEP_EPOCHS;
  }

  lemma StepAdvances(env: Env, cfg: Config, s: Sys, t: Tid)
    requires Sound(env, s) && Enabled(env, s, Step(t))
    ensures
      var s' := Next(env, cfg, s, Step(t));
      s'.calls == s.calls && Work(s'.threads) < Work(s.threads) && s'.rotator == s.rotator
  {
    hide Exclusive, PcOk, Routed, RotatorOk, Bucket, NoWriter, NoReader, Work;
    WorkUpdate(s.threads, t, Next(env, cfg, s, Step(t)).threads[t]);
  }

  lemma EndedAtRest(env: Env, cfg: Config, threads: set<Tid>, s: Sys)
    requires Reachable(env, cfg, threads, s) && AtRest(s)
    ensures forall n :: 0 <= n < |s.calls| ==> Done(s, s.calls[n]) || s.calls[n] in s.refused
  {
    hide Reachable, Done;
    forall n | 0 <= n < |s.calls| ensures Done(s, s.calls[n]) || s.calls[n] in s.refused {
      ExactlyOnce(env, cfg, threads, s, n);
    }
  }

  // From every reachable state the rotation and all calls can be brought to an end, whatever locks are
  // held, without a new call; every call has then been refused or has inserted.
  lemma {:induction false} Drain(env: Env, cfg: Config, threads: set<Tid>, s: Sys) returns (s': Sys)
    requires Reachable(env, cfg, threads, s)
    ensures Reachable(env, cfg, threads, s') && AtRest(s') && s'.calls == s.calls
    ensures forall n :: 0 <= n < |s.calls| ==> Done(s', s.calls[n]) || s.calls[n] in s'.refused
    decreases Work(s.threads), RotatorWork(s.rotator).0, RotatorWork(s.rotator).1, RotatorWork(s.rotator).2
  {
    hide Reachable, Sound, Enabled, Next, Work, RotatorWork, Done;
    if AtRest(s) {
      EndedAtRest(env, cfg, threads, s);
      s' := s;
    } else {
      SoundReachable(env, cfg, threads, s);
      var a := NoDeadlock(env, s);
      Advances(env, cfg, s, a);
      ReachNext(env, cfg, threads, s, a);
      s' := Drain(env, cfg, threads, Next(env, cfg, s, a));
    }
  }

  // In the endless run `f`, somebody under way takes the step `acts(n)` at time `n`.
  ghost predicate ContinuesAt(env: Env, cfg: Config, f: nat -> Sys, acts: nat -> Action, n: nat) {
    && Sound(env, f(n)) && Enabled(env, f(n), acts(n)) && Continues(acts(n))
    && f(n + 1) == Next(env, cfg, f(n), acts(n))
  }

  // No scheduler keeps those under way going for ever: every run comes to a point at which it does not
  // continue by a step of one of them.
  lemma {:induction false} NoEndlessRun(env: Env, cfg: Config, f: nat -> Sys, acts: nat -> Action, n: nat)
    returns (m: nat)
    requires Sound(env, f(n))
    ensures m >= n && Sound(env, f(m)) && !ContinuesAt(env, cfg, f, acts, m)
    decreases Work(f(n).threads), RotatorRank(f(n)), RotatorWork(f(n).rotator).1, RotatorWork(f(n).rotator).2
  {
    hide Sound, Enabled, Next, Work, RotatorWork;
    m := n;
    if ContinuesAt(env, cfg, f, acts, n) {
      Advances(env, cfg, f(n), acts(n));
      SoundAlways(env, cfg, f(n), acts(n));
      m := NoEndlessRun(env, cfg, f, acts, n + 1);
    }
  }

  // The shards left, in a sound state.
  ghost function RotatorRank(s: Sys): nat {
    if RotatorWork(s.rotator).0 >= 0 then RotatorWork(s.rotator).0 else 0
  }
}
