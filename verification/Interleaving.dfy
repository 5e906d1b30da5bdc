// The tracker registry under concurrency: any number of goroutines in shouldDrop and one goroutine in
// rotate, interleaved at the granularity of locks, shared reads and atomic counters.
module Interleaving {
  import opened Hashing
  import opened Settings
  import opened SlidingWindow

  type Tid = nat

  // A tracker object is named by its index in the order of creation.
  type Id = nat

  datatype Object = Object(key: Key, window: Window)

  // A call of shouldDrop: its number in the order in which calls begin, its pair and its value hash.
  datatype Request = Request(no: nat, k: Key, h: Hash)

  // Where a goroutine is in shouldDrop. From LookingAgain to WriteUnlocking it holds the write lock
  // of the shard of its metric; in Looking it holds the read lock.
  datatype Pc =
    | Outside
    | ReadLocking(r: Request)
    | Looking(r: Request)
    | WriteLocking(r: Request)
    | LookingAgain(r: Request)
    | Checking(r: Request)
    | Refusing(r: Request)
    | Creating(r: Request)
    | Counting(r: Request, id: Id)
    | WriteUnlocking(r: Request, id: Id)
    | Inserting(r: Request, id: Id)

  // Where the rotating goroutine is: it holds the read lock of shard `b` in Snapping and its write
  // lock in Deleting and Uncounting.
  datatype RotatorPc =
    | Resting
    | SnapLocking(b: nat)
    | Snapping(b: nat)
    | Turning(b: nat, todo: seq<(Key, Id)>, stale: seq<Key>)
    | SweepLocking(b: nat, stale: seq<Key>)
    | Deleting(b: nat, stale: seq<Key>)
    | Uncounting(b: nat, stale: seq<Key>)

  // What has happened to trackers, in the order of the tracker locks.
  datatype Mark =
    | Inserted(r: Request, id: Id, dropped: bool)
    | Turned(k: Key, id: Id)
    | Evicted(k: Key)

  datatype Sys = Sys(
    threads: map<Tid, Pc>,
    rotator: RotatorPc,
    shards: seq<map<Key, Id>>,
    objects: seq<Object>,
    trackerCount: int,
    history: seq<Mark>,
    calls: seq<Request>,      // every call begun so far
    refused: set<Request>)

  // ---------------------------------------------------------------------------------------------
  // Locks.

  predicate Reads(env: Env, pc: Pc, b: nat) {
    pc.Looking? && Bucket(env, pc.r.k.metric) == b
  }

  predicate InWriteSection(pc: Pc) {
    pc.LookingAgain? || pc.Checking? || pc.Refusing? || pc.Creating? || pc.Counting? || pc.WriteUnlocking?
  }

  predicate Writes(env: Env, pc: Pc, b: nat) {
    InWriteSection(pc) && Bucket(env, pc.r.k.metric) == b
  }

  predicate RotatorReads(rot: RotatorPc, b: nat) {
    rot.Snapping? && rot.b == b
  }

  predicate RotatorWrites(rot: RotatorPc, b: nat) {
    (rot.Deleting? || rot.Uncounting?) && rot.b == b
  }

  ghost predicate NoWriter(env: Env, s: Sys, b: nat) {
    !RotatorWrites(s.rotator, b) && forall t :: t in s.threads ==> !Writes(env, s.threads[t], b)
  }

  ghost predicate NoReader(env: Env, s: Sys, b: nat) {
    !RotatorReads(s.rotator, b) && forall t :: t in s.threads ==> !Reads(env, s.threads[t], b)
  }

  // ---------------------------------------------------------------------------------------------
  // Steps.

  // `Begin` is a call of shouldDrop; `order` is the order in which the map yields a snapshot.
  datatype Action =
    | Begin(t: Tid, k: Key, h: Hash)
    | Step(t: Tid)
    | StartRotation
    | StepRotator(order: seq<(Key, Id)>)

  ghost predicate Enabled(env: Env, s: Sys, a: Action) {
    match a
    case Begin(t, _, _) => t in s.threads && s.threads[t] == Outside
    case Step(t) =>
      t in s.threads && s.threads[t] != Outside &&
      (var pc := s.threads[t];
       var b := Bucket(env, pc.r.k.metric);
       && (pc.ReadLocking? ==> NoWriter(env, s, b))
       && (pc.WriteLocking? ==> NoWriter(env, s, b) && NoReader(env, s, b)))
    case StartRotation => s.rotator == Resting
    case StepRotator(order) =>
      match s.rotator
      case Resting => false
      case SnapLocking(b) => NoWriter(env, s, b)
      case Snapping(b) => b < |s.shards| && IsSnapshot(s.shards[b], order)
      case SweepLocking(b, _) => NoWriter(env, s, b) && NoReader(env, s, b)
      case _ => true
  }

  ghost predicate IsSnapshot(m: map<Key, Id>, order: seq<(Key, Id)>) {
    && (forall i :: 0 <= i < |order| ==> order[i].0 in m && m[order[i].0] == order[i].1)
    && (forall i, j :: 0 <= i < j < |order| ==> order[i].0 != order[j].0)
    && (forall k :: k in m ==> exists i :: 0 <= i < |order| && order[i].0 == k)
  }

  function SetPc(s: Sys, t: Tid, pc: Pc): Sys {
    s.(threads := s.threads[t := pc])
  }

  // One step of a goroutine in shouldDrop.
  function StepThread(env: Env, cfg: Config, s: Sys, t: Tid): Sys
    requires |s.shards| == NUM_SHARDS && t in s.threads && s.threads[t] != Outside
    requires s.threads[t].Inserting? ==> s.threads[t].id < |s.objects|
  {
    var pc := s.threads[t];
    var r := pc.r;
    var k, b := r.k, Bucket(env, r.k.metric);
    match pc
    case ReadLocking(_) => SetPc(s, t, Looking(r))
    case Looking(_) =>
      SetPc(s, t, if k in s.shards[b] then Inserting(r, s.shards[b][k]) else WriteLocking(r))
    case WriteLocking(_) => SetPc(s, t, LookingAgain(r))
    case LookingAgain(_) =>
      SetPc(s, t, if k in s.shards[b] then WriteUnlocking(r, s.shards[b][k]) else Checking(r))
    case Checking(_) =>
      SetPc(s, t, if cfg.maxTrackers > 0 && s.trackerCount >= cfg.maxTrackers then Refusing(r) else Creating(r))
    case Refusing(_) => SetPc(s, t, Outside).(refused := s.refused + {r})
    case Creating(_) =>
      var id: Id := |s.objects|;
      var shard: map<Key, Id> := s.shards[b][k := id];
      SetPc(s, t, Counting(r, id)).(
        shards := s.shards[b := shard],
        objects := s.objects + [Object(k, EMPTY_WINDOW)])
    case Counting(_, id) => SetPc(s, t, WriteUnlocking(r, id)).(trackerCount := s.trackerCount + 1)
    case WriteUnlocking(_, id) => SetPc(s, t, Inserting(r, id))
    case Inserting(_, id) =>
      var w := Insert(env.est, s.objects[id].window, r.h);
      SetPc(s, t, Outside).(
        objects := s.objects[id := s.objects[id].(window := w)],
        history := s.history + [Inserted(r, id, Exceeds(w.cachedCurr, w.cachedPrev, Limit(cfg, k.metric)))])
  }

  function NextShard(b: nat): RotatorPc {
    if b + 1 < NUM_SHARDS then SnapLocking(b + 1) else Resting
  }

  // One step of the rotating goroutine.
  function StepRotation(s: Sys, order: seq<(Key, Id)>): Sys
    requires |s.shards| == NUM_SHARDS
    requires s.rotator.Turning? && s.rotator.todo != [] ==> s.rotator.todo[0].1 < |s.objects|
    requires s.rotator.Deleting? ==> s.rotator.b < NUM_SHARDS
  {
    match s.rotator
    case Resting => s
    case SnapLocking(b) => s.(rotator := Snapping(b))
    case Snapping(b) => s.(rotator := Turning(b, order, []))
    case Turning(b, todo, stale) =>
      if todo == [] then
        s.(rotator := if stale == [] then NextShard(b) else SweepLocking(b, stale))
      else
        var (k, id) := todo[0];
        var w := Rotate(s.objects[id].window);
        s.(rotator := Turning(b, todo[1..], if w.idleEpochs >= STALE_SWEEP_EPOCHS then stale + [k] else stale),
           objects := s.objects[id := s.objects[id].(window := w)],
           history := s.history + [Turned(k, id)])
    case SweepLocking(b, stale) => s.(rotator := Deleting(b, stale))
    case Deleting(b, stale) =>
      if stale == [] then s.(rotator := NextShard(b))
      else s.(rotator := Uncounting(b, stale[1..]),
              shards := s.shards[b := s.shards[b] - {stale[0]}],
              history := s.history + [Evicted(stale[0])])
    case Uncounting(b, stale) => s.(rotator := Deleting(b, stale), trackerCount := s.trackerCount - 1)
  }

  function Initial(threads: set<Tid>): Sys {
    Sys(map t | t in threads :: Outside, Resting, seq(NUM_SHARDS, _ => map[]), [], 0, [], [], {})
  }

  // ---------------------------------------------------------------------------------------------
  // Invariants.

  // Readers-writer locks exclude.
  ghost predicate Exclusive(env: Env, s: Sys) {
    && (forall t, u, b: nat :: t in s.threads && u in s.threads && t != u && Writes(env, s.threads[t], b) ==>
          !Writes(env, s.threads[u], b) && !Reads(env, s.threads[u], b))
    && (forall t, b: nat :: t in s.threads && Writes(env, s.threads[t], b) ==>
          !RotatorWrites(s.rotator, b) && !RotatorReads(s.rotator, b))
    && (forall t, b: nat :: t in s.threads && RotatorWrites(s.rotator, b) ==> !Reads(env, s.threads[t], b))
  }

  ghost predicate InPlace(env: Env, s: Sys, b: nat, k: Key, id: Id) {
    Bucket(env, k.metric) == b && id < |s.objects| && s.objects[id].key == k
  }

  // Each mapped key is in the shard its metric routes to, with a tracker of its own.
  ghost predicate Routed(env: Env, s: Sys) {
    && |s.shards| == NUM_SHARDS
    && forall b: nat, k :: b < NUM_SHARDS && k in s.shards[b] ==> InPlace(env, s, b, k, s.shards[b][k])
  }

  ghost predicate Maps(env: Env, s: Sys, k: Key, id: Id)
    requires |s.shards| == NUM_SHARDS
  {
    var m := s.shards[Bucket(env, k.metric)];
    k in m && m[k] == id
  }

  ghost predicate PcOk(env: Env, s: Sys, pc: Pc)
    requires |s.shards| == NUM_SHARDS
  {
    match pc
    case Checking(r) => r.k !in s.shards[Bucket(env, r.k.metric)]
    case Creating(r) => r.k !in s.shards[Bucket(env, r.k.metric)]
    case Counting(r, id) => Maps(env, s, r.k, id)
    case WriteUnlocking(r, id) => Maps(env, s, r.k, id)
    case Inserting(r, id) => id < |s.objects| && s.objects[id].key == r.k
    case _ => true
  }

  ghost predicate RotatorOk(env: Env, s: Sys)
    requires |s.shards| == NUM_SHARDS
  {
    match s.rotator
    case Resting => true
    case SnapLocking(b) => b < NUM_SHARDS
    case Snapping(b) => b < NUM_SHARDS
    case Turning(b, todo, stale) =>
      b < NUM_SHARDS && TodoOk(s.shards[b], todo, stale) && StaleOk(s.shards[b], stale)
    case SweepLocking(b, stale) => b < NUM_SHARDS && StaleOk(s.shards[b], stale)
    case Deleting(b, stale) => b < NUM_SHARDS && StaleOk(s.shards[b], stale)
    case Uncounting(b, stale) => b < NUM_SHARDS && StaleOk(s.shards[b], stale)
  }

  // The snapshot entries still to be rotated are mapped, once each, and not yet found stale.
  ghost predicate TodoOk(m: map<Key, Id>, todo: seq<(Key, Id)>, stale: seq<Key>) {
    && (forall i :: 0 <= i < |todo| ==> todo[i].0 in m && m[todo[i].0] == todo[i].1)
    && (forall i, j :: 0 <= i < j < |todo| ==> todo[i].0 != todo[j].0)
    && (forall i :: 0 <= i < |todo| ==> todo[i].0 !in stale)
  }

  ghost predicate StaleOk(m: map<Key, Id>, stale: seq<Key>) {
    && (forall i :: 0 <= i < |stale| ==> stale[i] in m)
    && (forall i, j :: 0 <= i < j < |stale| ==> stale[i] != stale[j])
  }

  // Everything but the counting.
  ghost predicate Sound(env: Env, s: Sys) {
    && Exclusive(env, s)
    && Routed(env, s)
    && (forall t :: t in s.threads ==> PcOk(env, s, s.threads[t]))
    && RotatorOk(env, s)
  }

  lemma TodoExists(env: Env, s: Sys)
    requires Routed(env, s) && RotatorOk(env, s)
    ensures s.rotator.Turning? && s.rotator.todo != [] ==> s.rotator.todo[0].1 < |s.objects|
  {
    if s.rotator.Turning? && s.rotator.todo != [] {
      var b, k := s.rotator.b, s.rotator.todo[0].0;
      assert InPlace(env, s, b, k, s.shards[b][k]);
    }
  }

  function Next(env: Env, cfg: Config, s: Sys, a: Action): Sys
    requires Sound(env, s) && Enabled(env, s, a)
  {
    match a
    case Begin(t, k, h) =>
      var r := Request(|s.calls|, k, h);
      SetPc(s, t, ReadLocking(r)).(calls := s.calls + [r])
    case Step(t) => StepThread(env, cfg, s, t)
    case StartRotation => s.(rotator := SnapLocking(0))
    case StepRotator(order) =>
      TodoExists(env, s);
      StepRotation(s, order)
  }

  // A goroutine that moves to `pc` without taking a lock it may not take.
  lemma ThreadExcludes(env: Env, s: Sys, s': Sys, t: Tid, pc: Pc)
    requires Exclusive(env, s) && t in s.threads
    requires s'.threads == s.threads[t := pc] && s'.rotator == s.rotator
    requires forall b: nat :: Writes(env, pc, b) ==>
      Writes(env, s.threads[t], b) || (NoWriter(env, s, b) && NoReader(env, s, b))
    requires forall b: nat :: Reads(env, pc, b) ==> NoWriter(env, s, b)
    ensures Exclusive(env, s')
  {
    hide Writes, Reads, RotatorWrites, RotatorReads;
  }

  lemma RotatorExcludes(env: Env, s: Sys, s': Sys)
    requires Exclusive(env, s)
    requires s'.threads == s.threads
    requires forall b: nat :: RotatorWrites(s'.rotator, b) ==>
      RotatorWrites(s.rotator, b) || (NoWriter(env, s, b) && NoReader(env, s, b))
    requires forall b: nat :: RotatorReads(s'.rotator, b) ==> NoWriter(env, s, b)
    ensures Exclusive(env, s')
  {
    hide Writes, Reads, RotatorWrites, RotatorReads;
  }

  lemma ExclusiveAlways(env: Env, cfg: Config, s: Sys, a: Action)
    requires Sound(env, s) && Enabled(env, s, a)
    ensures Exclusive(env, Next(env, cfg, s, a))
  {
    hide Exclusive, Routed, PcOk, RotatorOk, Insert, Rotate, Bucket, NoWriter, NoReader;
    var s' := Next(env, cfg, s, a);
    if a.Begin? || a.Step? {
      ThreadExcludes(env, s, s', a.t, s'.threads[a.t]);
    } else {
      RotatorExcludes(env, s, s');
    }
  }

  // ---------------------------------------------------------------------------------------------
  // Soundness of the double-checked lookup.

  lemma RoutedAlways(env: Env, cfg: Config, s: Sys, a: Action)
    requires Sound(env, s) && Enabled(env, s, a)
    ensures Routed(env, Next(env, cfg, s, a))
  {
    hide Exclusive, Insert, Rotate, Bucket, NoWriter, NoReader, Exceeds;
    TodoExists(env, s);
  }

  // Objects are only ever added, and keep their key.
  ghost predicate Grows(s: Sys, s': Sys) {
    |s.objects| <= |s'.objects| && forall i :: 0 <= i < |s.objects| ==> s'.objects[i].key == s.objects[i].key
  }

  lemma ObjectsGrow(env: Env, cfg: Config, s: Sys, a: Action)
    requires Sound(env, s) && Enabled(env, s, a)
    ensures Grows(s, Next(env, cfg, s, a))
  {
    hide Exclusive, Insert, Rotate, Bucket, NoWriter, NoReader, Exceeds;
  }

  // While a goroutine is in its write section, nobody else changes its shard.
  lemma ShardIsStable(env: Env, cfg: Config, s: Sys, a: Action, t: Tid, b: nat)
    requires Sound(env, s) && Enabled(env, s, a)
    requires t in s.threads && Writes(env, s.threads[t], b) && a != Step(t)
    ensures b < NUM_SHARDS && Next(env, cfg, s, a).shards[b] == s.shards[b]
  {
    assert !RotatorWrites(s.rotator, b);
    if a.Step? {
      assert !Writes(env, s.threads[a.t], b);
    }
    hide Exclusive, PcOk, Insert, Rotate, NoWriter, NoReader, Exceeds;
  }

  // The step of a goroutine re-establishes its own condition ...
  lemma OwnPcOk(env: Env, cfg: Config, s: Sys, t: Tid)
    requires Sound(env, s) && Enabled(env, s, Step(t))
    ensures var s' := Next(env, cfg, s, Step(t)); |s'.shards| == NUM_SHARDS && PcOk(env, s', s'.threads[t])
  {
    var pc := s.threads[t];
    assert PcOk(env, s, pc);
    hide Exclusive, RotatorOk, Insert, Rotate, Bucket, NoWriter, NoReader, Exceeds;
  }

  // ... and no other step can break it.
  lemma OtherPcOk(env: Env, cfg: Config, s: Sys, a: Action, t: Tid)
    requires Sound(env, s) && Enabled(env, s, a)
    requires t in s.threads && a != Step(t) && !(a.Begin? && a.t == t)
    ensures var s' := Next(env, cfg, s, a); |s'.shards| == NUM_SHARDS && PcOk(env, s', s'.threads[t])
  {
    var pc := s.threads[t];
    assert PcOk(env, s, pc);
    RoutedAlways(env, cfg, s, a);
    ObjectsGrow(env, cfg, s, a);
    if InWriteSection(pc) {
      ShardIsStable(env, cfg, s, a, t, Bucket(env, pc.r.k.metric));
    }
    assert Next(env, cfg, s, a).threads[t] == pc by {
      hide Exclusive, PcOk, RotatorOk, Insert, Rotate, Bucket, NoWriter, NoReader, Exceeds;
    }
    hide Next, Exclusive, RotatorOk, Enabled, Bucket, Routed;
  }

  lemma PcOkAlways(env: Env, cfg: Config, s: Sys, a: Action, t: Tid)
    requires Sound(env, s) && Enabled(env, s, a) && t in s.threads
    ensures var s' := Next(env, cfg, s, a); |s'.shards| == NUM_SHARDS && PcOk(env, s', s'.threads[t])
  {
    if a == Step(t) {
      OwnPcOk(env, cfg, s, t);
    } else if a.Begin? && a.t == t {
    } else {
      OtherPcOk(env, cfg, s, a, t);
    }
  }

  // Goroutines only add to the shards.
  lemma ThreadsOnlyAdd(env: Env, cfg: Config, s: Sys, a: Action, b: nat)
    requires Sound(env, s) && Enabled(env, s, a) && b < NUM_SHARDS
    requires a.Begin? || a.Step?
    ensures Next(env, cfg, s, a).rotator == s.rotator
    ensures |Next(env, cfg, s, a).shards| == NUM_SHARDS
    ensures forall k :: k in s.shards[b] ==>
      k in Next(env, cfg, s, a).shards[b] && Next(env, cfg, s, a).shards[b][k] == s.shards[b][k]
  {
    assert PcOk(env, s, s.threads[a.t]);
    hide Exclusive, RotatorOk, Insert, Rotate, Bucket, NoWriter, NoReader, Exceeds;
  }

  lemma TurnKeepsOk(m: map<Key, Id>, todo: seq<(Key, Id)>, stale: seq<Key>, stale': seq<Key>)
    requires TodoOk(m, todo, stale) && StaleOk(m, stale) && todo != []
    requires stale' == stale || stale' == stale + [todo[0].0]
    ensures TodoOk(m, todo[1..], stale') && StaleOk(m, stale')
  {
  }

  lemma DeleteKeepsOk(m: map<Key, Id>, stale: seq<Key>)
    requires StaleOk(m, stale) && stale != []
    ensures StaleOk(m - {stale[0]}, stale[1..])
  {
  }

  lemma RotatorStepOk(env: Env, cfg: Config, s: Sys, a: Action)
    requires Sound(env, s) && Enabled(env, s, a) && a.StepRotator?
    ensures var s' := Next(env, cfg, s, a); |s'.shards| == NUM_SHARDS && RotatorOk(env, s')
  {
    var s' := Next(env, cfg, s, a);
    match s.rotator {
      case Snapping(b) =>
        assert TodoOk(s.shards[b], a.order, []) && StaleOk(s.shards[b], []);
      case Turning(b, todo, stale) =>
        if todo != [] {
          TurnKeepsOk(s.shards[b], todo, stale, s'.rotator.stale);
        }
      case Deleting(b, stale) =>
        if stale != [] {
          DeleteKeepsOk(s.shards[b], stale);
        }
      case _ =>
    }
    hide Exclusive, PcOk, Routed, TodoOk, StaleOk, Insert, Rotate, Bucket, NoWriter, NoReader, IsSnapshot;
  }

  lemma RotatorOkAlways(env: Env, cfg: Config, s: Sys, a: Action)
    requires Sound(env, s) && Enabled(env, s, a)
    ensures var s' := Next(env, cfg, s, a); |s'.shards| == NUM_SHARDS && RotatorOk(env, s')
  {
    if a.Begin? || a.Step? {
      if s.rotator != Resting {
        ThreadsOnlyAdd(env, cfg, s, a, s.rotator.b);
        hide Next;
      }
    } else if a.StepRotator? {
      RotatorStepOk(env, cfg, s, a);
    }
  }

  lemma SoundAlways(env: Env, cfg: Config, s: Sys, a: Action)
    requires Sound(env, s) && Enabled(env, s, a)
    ensures Sound(env, Next(env, cfg, s, a))
  {
    hide Exclusive, PcOk, Routed, RotatorOk;
    ExclusiveAlways(env, cfg, s, a);
    RoutedAlways(env, cfg, s, a);
    RotatorOkAlways(env, cfg, s, a);
    forall t | t in s.threads { PcOkAlways(env, cfg, s, a, t); }
  }
}
