// What enforcement does to the attributes of a data point and to the counters of the processor.
module Enforcement {
  import opened Attributes
  import opened Hashing
  import opened Registry
  import opened Settings
  import opened SlidingWindow

  const OVERFLOW_TAG := "otel.metric.overflow"
  const OVERFLOW_SENTINEL := "otel.cardinality_overflow"

  // The processor between two calls. `rejectionWarnings` and `dropWarnings` count the warning lines
  // emitted this epoch; the other fields are those of the source.
  datatype State = State(
    live: Live,
    trackersRejected: nat,
    rejectionWarned: bool,
    rejectionWarnings: nat,
    labelsStripped: nat,
    dropsThisEpoch: nat,
    dropLogCount: nat,
    dropWarnings: nat)

  const INITIAL := State(map[], 0, false, 0, 0, 0, 0, 0)

  function ShouldDrop(env: Env, cfg: Config, st: State, metric: string, a: Attribute): (State, bool) {
    var k := Key(metric, a.key);
    if Admits(cfg, st.live, k) then
      var (live, drop) := Observe(env.est, cfg, st.live, k, env.xx(AsString(a.value)));
      (st.(live := live), drop)
    else
      (st.(trackersRejected := st.trackersRejected + 1,
           rejectionWarned := true,
           rejectionWarnings := if st.rejectionWarned then st.rejectionWarnings else st.rejectionWarnings + 1), false)
  }

  // Protected labels are not even observed.
  function Examine(env: Env, cfg: Config, st: State, metric: string, a: Attribute): (State, bool) {
    if a.key in cfg.protected then (st, false) else ShouldDrop(env, cfg, st, metric, a)
  }

  // The counters after one more flagged attribute.
  function Record(cfg: Config, st: State, mode: Mode): State {
    var st' := st.(labelsStripped := st.labelsStripped + 1);
    if mode != StripAndReaggregate then st' else
    var logged := if cfg.dropLogMax == 0 then st.dropLogCount else st.dropLogCount + 1;
    st'.(dropsThisEpoch := st.dropsThisEpoch + 1,
         dropLogCount := logged,
         dropWarnings := if cfg.dropLogMax == 0 || logged <= cfg.dropLogMax then st.dropWarnings + 1 else st.dropWarnings)
  }

  function RotateState(st: State): State {
    st.(live := RotateAll(st.live),
        rejectionWarned := false,
        rejectionWarnings := 0,
        dropsThisEpoch := 0,
        dropLogCount := 0,
        dropWarnings := 0)
  }

  // `PutStr` / `PutBool`: overwrite the first attribute with the key, or append one.
  function Put(attrs: Attrs, key: string, value: Value): Attrs {
    if attrs == [] then [Attribute(key, value)]
    else if attrs[0].key == key then [Attribute(key, value)] + attrs[1..]
    else [attrs[0]] + Put(attrs[1..], key, value)
  }

  function PutAll(attrs: Attrs, keys: seq<string>, value: Value): Attrs {
    if keys == [] then attrs else Put(PutAll(attrs, keys[..|keys| - 1], value), keys[|keys| - 1], value)
  }

  // The callback loop of handleAttributes: what is kept, whether to tag, which values to overwrite.
  datatype Scan = Scan(st: State, kept: Attrs, tag: bool, overflow: seq<string>)

  function ScanStep(env: Env, cfg: Config, s: Scan, metric: string, a: Attribute, mode: Mode): Scan {
    var (st, drop) := Examine(env, cfg, s.st, metric, a);
    if !drop then s.(st := st, kept := s.kept + [a]) else
    var st' := Record(cfg, st, mode);
    match mode
    case TagOnly => s.(st := st', kept := s.kept + [a], tag := true)
    case OverflowAttribute => s.(st := st', kept := s.kept + [a], overflow := s.overflow + [a.key])
    case StripAndReaggregate => s.(st := st')
  }

  function ScanAll(env: Env, cfg: Config, st: State, metric: string, attrs: Attrs, mode: Mode): Scan {
    if attrs == [] then Scan(st, [], false, []) else
    ScanStep(env, cfg, ScanAll(env, cfg, st, metric, attrs[..|attrs| - 1], mode), metric, attrs[|attrs| - 1], mode)
  }

  // The mutations put off until the loop is over.
  function Postponed(kept: Attrs, tag: bool, overflow: seq<string>): Attrs {
    var tagged := if tag then Put(kept, OVERFLOW_TAG, Bool(true)) else kept;
    PutAll(tagged, overflow, Str(OVERFLOW_SENTINEL))
  }

  // ---------------------------------------------------------------------------------------------
  // The flags: which attributes exceed their limit. They do not depend on the mode.

  // The processor after merely observing the attributes.
  function Observed(env: Env, cfg: Config, st: State, metric: string, attrs: Attrs): State {
    if attrs == [] then st else
    Examine(env, cfg, Observed(env, cfg, st, metric, attrs[..|attrs| - 1]), metric, attrs[|attrs| - 1]).0
  }

  predicate Flagged(env: Env, cfg: Config, st: State, metric: string, attrs: Attrs, i: nat)
    requires i < |attrs|
  {
    Examine(env, cfg, Observed(env, cfg, st, metric, attrs[..i]), metric, attrs[i]).1
  }

  ghost function Flags(env: Env, cfg: Config, st: State, metric: string, attrs: Attrs): (fs: seq<bool>)
    ensures |fs| == |attrs|
  {
    seq(|attrs|, i requires 0 <= i < |attrs| => Flagged(env, cfg, st, metric, attrs, i))
  }

  ghost function Count(fs: seq<bool>): nat {
    if fs == [] then 0 else Count(fs[..|fs| - 1]) + if fs[|fs| - 1] then 1 else 0
  }

  ghost function Unflagged(attrs: Attrs, fs: seq<bool>): Attrs
    requires |fs| == |attrs|
  {
    if attrs == [] then [] else
    var n := |attrs| - 1;
    Unflagged(attrs[..n], fs[..n]) + if fs[n] then [] else [attrs[n]]
  }

  ghost function FlaggedKeys(attrs: Attrs, fs: seq<bool>): seq<string>
    requires |fs| == |attrs|
  {
    if attrs == [] then [] else
    var n := |attrs| - 1;
    FlaggedKeys(attrs[..n], fs[..n]) + if fs[n] then [attrs[n].key] else []
  }

  function Overwritten(attrs: Attrs, fs: seq<bool>): (r: Attrs)
    requires |fs| == |attrs|
    ensures |r| == |attrs|
  {
    seq(|attrs|, i requires 0 <= i < |attrs| =>
      if fs[i] then Attribute(attrs[i].key, Str(OVERFLOW_SENTINEL)) else attrs[i])
  }

  // The part of the state that decisions depend on.
  ghost predicate SameTracking(a: State, b: State) {
    a.live == b.live && a.trackersRejected == b.trackersRejected
    && a.rejectionWarned == b.rejectionWarned && a.rejectionWarnings == b.rejectionWarnings
  }

  lemma ExamineSame(env: Env, cfg: Config, a: State, b: State, metric: string, x: Attribute)
    requires SameTracking(a, b)
    ensures
      var (a', d) := Examine(env, cfg, a, metric, x);
      var (b', e) := Examine(env, cfg, b, metric, x);
      && d == e && SameTracking(a', b')
      && a'.labelsStripped == a.labelsStripped && a'.dropsThisEpoch == a.dropsThisEpoch
      && a'.dropLogCount == a.dropLogCount && a'.dropWarnings == a.dropWarnings
  {
    hide Admits, Observe;
  }

  lemma FlagsSnoc(env: Env, cfg: Config, st: State, metric: string, attrs: Attrs)
    requires attrs != []
    ensures
      var n := |attrs| - 1;
      Flags(env, cfg, st, metric, attrs)
        == Flags(env, cfg, st, metric, attrs[..n])
         + [Examine(env, cfg, Observed(env, cfg, st, metric, attrs[..n]), metric, attrs[n]).1]
  {
    hide Examine;
    forall i | 0 <= i < |attrs| - 1 ensures attrs[..|attrs| - 1][..i] == attrs[..i] {
    }
  }

  lemma FlagSnoc(attrs: Attrs, fs: seq<bool>, a: Attribute, f: bool)
    requires |fs| == |attrs|
    ensures Count(fs + [f]) == Count(fs) + if f then 1 else 0
    ensures Unflagged(attrs + [a], fs + [f]) == Unflagged(attrs, fs) + if f then [] else [a]
    ensures FlaggedKeys(attrs + [a], fs + [f]) == FlaggedKeys(attrs, fs) + if f then [a.key] else []
  {
    assert (attrs + [a])[..|attrs|] == attrs && (fs + [f])[..|fs|] == fs;
  }

  lemma {:induction false} StripSize(attrs: Attrs, fs: seq<bool>)
    requires |fs| == |attrs|
    ensures |Unflagged(attrs, fs)| + Count(fs) == |attrs|
  {
    if attrs != [] {
      StripSize(attrs[..|attrs| - 1], fs[..|attrs| - 1]);
    }
  }

  // Stripping takes out the flagged attributes and keeps the others in their order: attribute `i`, if it
  // is not flagged, moves down by the number of flags before it.
  lemma {:induction false} StripTakesFlagged(attrs: Attrs, fs: seq<bool>, i: nat)
    requires |fs| == |attrs| && i < |attrs| && !fs[i]
    ensures |Unflagged(attrs, fs)| == |attrs| - Count(fs)
    ensures 0 <= i - Count(fs[..i]) < |Unflagged(attrs, fs)| && Unflagged(attrs, fs)[i - Count(fs[..i])] == attrs[i]
  {
    hide Unflagged, Count;
    var n := |attrs| - 1;
    StripSize(attrs, fs);
    StripSize(attrs[..n], fs[..n]);
    FlagSnoc(attrs[..n], fs[..n], attrs[n], fs[n]);
    assert attrs == attrs[..n] + [attrs[n]] && fs == fs[..n] + [fs[n]];
    if i < n {
      StripTakesFlagged(attrs[..n], fs[..n], i);
      assert fs[..n][..i] == fs[..i];
    }
  }

  lemma {:induction false} CountIsNumber(fs: seq<bool>)
    ensures Count(fs) == |set i | 0 <= i < |fs| && fs[i]|
  {
    var at := set i | 0 <= i < |fs| && fs[i];
    if fs == [] {
      assert at == {};
    } else {
      var n := |fs| - 1;
      CountIsNumber(fs[..n]);
      var before := set i | 0 <= i < |fs[..n]| && fs[..n][i];
      assert at == if fs[n] then before + {n} else before;
    }
  }

  // The scan after some attributes, in terms of their flags.
  ghost predicate Accounted(st: State, s: Scan, attrs: Attrs, fs: seq<bool>, mode: Mode)
    requires |fs| == |attrs|
  {
    && s.st.labelsStripped == st.labelsStripped + Count(fs)
    && s.st.dropsThisEpoch == st.dropsThisEpoch + (if mode == StripAndReaggregate then Count(fs) else 0)
    && s.kept == (if mode == StripAndReaggregate then Unflagged(attrs, fs) else attrs)
    && s.tag == (mode == TagOnly && Count(fs) > 0)
    && s.overflow == (if mode == OverflowAttribute then FlaggedKeys(attrs, fs) else [])
  }

  lemma AccountedStep(env: Env, cfg: Config, st: State, s: Scan, metric: string,
                      attrs: Attrs, fs: seq<bool>, a: Attribute, mode: Mode)
    requires |fs| == |attrs| && Accounted(st, s, attrs, fs, mode)
    ensures
      var f := Examine(env, cfg, s.st, metric, a).1;
      Accounted(st, ScanStep(env, cfg, s, metric, a, mode), attrs + [a], fs + [f], mode)
  {
    hide Examine, Count, Unflagged, FlaggedKeys;
    ExamineSame(env, cfg, s.st, s.st, metric, a);
    FlagSnoc(attrs, fs, a, Examine(env, cfg, s.st, metric, a).1);
  }

  lemma TrackingStep(env: Env, cfg: Config, s: Scan, o: State, metric: string, a: Attribute, mode: Mode)
    requires SameTracking(s.st, o)
    ensures Examine(env, cfg, s.st, metric, a).1 == Examine(env, cfg, o, metric, a).1
    ensures SameTracking(ScanStep(env, cfg, s, metric, a, mode).st, Examine(env, cfg, o, metric, a).0)
  {
    hide Examine;
    ExamineSame(env, cfg, s.st, o, metric, a);
  }

  // The scan agrees with the flags, and has left the trackers as mere observation leaves them.
  ghost predicate Matches(env: Env, cfg: Config, st: State, metric: string, attrs: Attrs, mode: Mode, s: Scan) {
    && SameTracking(s.st, Observed(env, cfg, st, metric, attrs))
    && Accounted(st, s, attrs, Flags(env, cfg, st, metric, attrs), mode)
  }

  lemma MatchesStep(env: Env, cfg: Config, st: State, metric: string, attrs: Attrs, mode: Mode, s: Scan, a: Attribute)
    requires Matches(env, cfg, st, metric, attrs, mode, s)
    ensures Matches(env, cfg, st, metric, attrs + [a], mode, ScanStep(env, cfg, s, metric, a, mode))
  {
    hide Examine, ScanStep, Accounted, Flags, SameTracking;
    assert (attrs + [a])[..|attrs|] == attrs;
    FlagsSnoc(env, cfg, st, metric, attrs + [a]);
    TrackingStep(env, cfg, s, Observed(env, cfg, st, metric, attrs), metric, a, mode);
    AccountedStep(env, cfg, st, s, metric, attrs, Flags(env, cfg, st, metric, attrs), a, mode);
  }

  lemma ScanSnoc(env: Env, cfg: Config, st: State, metric: string, attrs: Attrs, a: Attribute, mode: Mode)
    ensures ScanAll(env, cfg, st, metric, attrs + [a], mode)
         == ScanStep(env, cfg, ScanAll(env, cfg, st, metric, attrs, mode), metric, a, mode)
  {
    assert (attrs + [a])[..|attrs|] == attrs;
    hide ScanStep;
  }

  lemma MatchesNothing(env: Env, cfg: Config, st: State, metric: string, mode: Mode)
    ensures Matches(env, cfg, st, metric, [], mode, ScanAll(env, cfg, st, metric, [], mode))
  {
    hide Examine, ScanStep;
  }

  lemma {:induction false} ScanByFlags(env: Env, cfg: Config, st: State, metric: string, attrs: Attrs, mode: Mode)
    ensures Matches(env, cfg, st, metric, attrs, mode, ScanAll(env, cfg, st, metric, attrs, mode))
  {
    hide Matches, ScanStep, ScanAll;
    if attrs == [] {
      MatchesNothing(env, cfg, st, metric, mode);
    } else {
      var rest, a := attrs[..|attrs| - 1], attrs[|attrs| - 1];
      ScanByFlags(env, cfg, st, metric, rest, mode);
      MatchesStep(env, cfg, st, metric, rest, mode, ScanAll(env, cfg, st, metric, rest, mode), a);
      ScanSnoc(env, cfg, st, metric, rest, a, mode);
      assert rest + [a] == attrs;
    }
  }

  // ---------------------------------------------------------------------------------------------
  // What each mode leaves of the attributes.

  function Enforce(env: Env, cfg: Config, st: State, metric: string, attrs: Attrs, mode: Mode): (State, Attrs) {
    var s := ScanAll(env, cfg, st, metric, attrs, mode);
    (s.st, Postponed(s.kept, s.tag, s.overflow))
  }

  // `PutStr` finds the first attribute with its key.
  ghost predicate First(attrs: Attrs, i: nat) {
    i < |attrs| && forall j :: 0 <= j < i ==> attrs[j].key != attrs[i].key
  }

  lemma {:induction false} PutExisting(attrs: Attrs, i: nat, v: Value)
    requires First(attrs, i)
    ensures Put(attrs, attrs[i].key, v) == attrs[i := Attribute(attrs[i].key, v)]
  {
    if i > 0 {
      assert attrs[0].key != attrs[i].key;
      PutExisting(attrs[1..], i - 1, v);
      assert attrs == [attrs[0]] + attrs[1..];
    }
  }

  lemma {:induction false} FirstExists(attrs: Attrs, j: nat) returns (i: nat)
    requires j < |attrs|
    ensures i <= j && First(attrs, i) && attrs[i].key == attrs[j].key
  {
    i := j;
    if !First(attrs, j) {
      var j' :| 0 <= j' < j && attrs[j'].key == attrs[j].key;
      i := FirstExists(attrs, j');
    }
  }

  // `r` is `attrs` with the value of the first attribute of each of the `keys` overwritten.
  ghost predicate OverwrittenAt(attrs: Attrs, r: Attrs, keys: seq<string>, v: Value) {
    && |r| == |attrs|
    && forall i :: 0 <= i < |attrs| ==>
         r[i] == if First(attrs, i) && attrs[i].key in keys then Attribute(attrs[i].key, v) else attrs[i]
  }

  ghost predicate HasKey(attrs: Attrs, key: string) {
    exists j :: 0 <= j < |attrs| && attrs[j].key == key
  }

  lemma PutAllNone(attrs: Attrs, v: Value)
    ensures OverwrittenAt(attrs, PutAll(attrs, [], v), [], v)
  {
    hide First;
  }

  lemma PutAllSnoc(attrs: Attrs, keys: seq<string>, key: string, v: Value)
    ensures PutAll(attrs, keys + [key], v) == Put(PutAll(attrs, keys, v), key, v)
  {
    hide Put;
    assert (keys + [key])[..|keys|] == keys;
  }

  lemma {:induction false} PutAllExisting(attrs: Attrs, keys: seq<string>, v: Value)
    requires forall n :: 0 <= n < |keys| ==> HasKey(attrs, keys[n])
    ensures OverwrittenAt(attrs, PutAll(attrs, keys, v), keys, v)
  {
    hide Put, PutAll, First, OverwrittenAt;
    if keys == [] {
      PutAllNone(attrs, v);
    } else {
      var rest, key := keys[..|keys| - 1], keys[|keys| - 1];
      PutAllExisting(attrs, rest, v);
      assert HasKey(attrs, key);
      var j :| 0 <= j < |attrs| && attrs[j].key == key;
      var i := FirstExists(attrs, j);
      PutFirst(attrs, PutAll(attrs, rest, v), rest, i, v);
      PutAllSnoc(attrs, rest, key, v);
      assert rest + [key] == keys;
    }
  }

  lemma PutFirst(attrs: Attrs, before: Attrs, keys: seq<string>, i: nat, v: Value)
    requires OverwrittenAt(attrs, before, keys, v) && First(attrs, i)
    ensures OverwrittenAt(attrs, Put(before, attrs[i].key, v), keys + [attrs[i].key], v)
  {
    hide Put;
    assert forall j :: 0 <= j < |attrs| ==> before[j].key == attrs[j].key;
    assert First(before, i);
    PutExisting(before, i, v);
  }

  ghost predicate FlaggedKey(attrs: Attrs, fs: seq<bool>, key: string)
    requires |fs| == |attrs|
  {
    exists j :: 0 <= j < |attrs| && fs[j] && attrs[j].key == key
  }

  lemma {:induction false} FlaggedKeysAre(attrs: Attrs, fs: seq<bool>, key: string)
    requires |fs| == |attrs|
    ensures key in FlaggedKeys(attrs, fs) <==> FlaggedKey(attrs, fs, key)
  {
    if attrs != [] {
      var n := |attrs| - 1;
      FlaggedKeysAre(attrs[..n], fs[..n], key);
      if j :| 0 <= j < |attrs| && fs[j] && attrs[j].key == key {
        assert j < n ==> attrs[..n][j].key == key && fs[..n][j];
      }
    }
  }

  // Overflow mode keeps all keys, and rewrites the value of the first attribute of each flagged key;
  // when keys are unique, of exactly the flagged attributes.
  ghost predicate Rewritten(attrs: Attrs, r: Attrs, fs: seq<bool>)
    requires |fs| == |attrs|
  {
    && |r| == |attrs|
    && (forall i :: 0 <= i < |attrs| ==>
          r[i] == if First(attrs, i) && FlaggedKey(attrs, fs, attrs[i].key)
                  then Attribute(attrs[i].key, Str(OVERFLOW_SENTINEL)) else attrs[i])
    && (UniqueKeys(attrs) ==> r == Overwritten(attrs, fs))
  }

  lemma FlaggedIsThere(attrs: Attrs, fs: seq<bool>, key: string)
    requires |fs| == |attrs| && FlaggedKey(attrs, fs, key)
    ensures HasKey(attrs, key)
  {
  }

  lemma FirstOfUnique(attrs: Attrs, fs: seq<bool>, i: nat)
    requires i < |fs| == |attrs| && UniqueKeys(attrs)
    ensures First(attrs, i) && (FlaggedKey(attrs, fs, attrs[i].key) <==> fs[i])
  {
  }

  lemma OverwriteFlagged(attrs: Attrs, fs: seq<bool>)
    requires |fs| == |attrs|
    ensures Rewritten(attrs, PutAll(attrs, FlaggedKeys(attrs, fs), Str(OVERFLOW_SENTINEL)), fs)
  {
    hide PutAll, FlaggedKeys, FlaggedKey, HasKey, First, UniqueKeys, OVERFLOW_SENTINEL;
    var keys := FlaggedKeys(attrs, fs);
    forall key ensures key in keys <==> FlaggedKey(attrs, fs, key) {
      FlaggedKeysAre(attrs, fs, key);
    }
    forall n | 0 <= n < |keys| ensures HasKey(attrs, keys[n]) {
      assert keys[n] in keys;
      FlaggedIsThere(attrs, fs, keys[n]);
    }
    PutAllExisting(attrs, keys, Str(OVERFLOW_SENTINEL));
    if UniqueKeys(attrs) {
      forall i | 0 <= i < |attrs| ensures First(attrs, i) && (FlaggedKey(attrs, fs, attrs[i].key) <==> fs[i]) {
        FirstOfUnique(attrs, fs, i);
      }
    }
  }

  lemma EnforceByFlags(env: Env, cfg: Config, st: State, metric: string, attrs: Attrs, mode: Mode)
    ensures
      var (st', r) := Enforce(env, cfg, st, metric, attrs, mode);
      var fs := Flags(env, cfg, st, metric, attrs);
      && SameTracking(st', Observed(env, cfg, st, metric, attrs))
      && st'.labelsStripped == st.labelsStripped + Count(fs)
      && st'.dropsThisEpoch == st.dropsThisEpoch + (if mode == StripAndReaggregate then Count(fs) else 0)
      && match mode
         case TagOnly => r == if Count(fs) > 0 then Put(attrs, OVERFLOW_TAG, Bool(true)) else attrs
         case OverflowAttribute => Rewritten(attrs, r, fs)
         case StripAndReaggregate => r == Unflagged(attrs, fs)
  {
    var fs := Flags(env, cfg, st, metric, attrs);
    ScanByFlags(env, cfg, st, metric, attrs, mode);
    if mode == OverflowAttribute {
      OverwriteFlagged(attrs, fs);
    }
    hide Observed, Flags, Put, Rewritten;
  }

  ghost function Others(attrs: Attrs, key: string): Attrs {
    if attrs == [] then [] else
    (if attrs[0].key == key then [] else [attrs[0]]) + Others(attrs[1..], key)
  }

  // Tagging adds the tag and changes nothing else.
  lemma {:induction false} PutTouchesOneKey(attrs: Attrs, key: string, v: Value)
    ensures Attribute(key, v) in Put(attrs, key, v)
    ensures Others(Put(attrs, key, v), key) == Others(attrs, key)
  {
    if attrs == [] {
      assert [Attribute(key, v)][1..] == [];
    } else if attrs[0].key == key {
      assert ([Attribute(key, v)] + attrs[1..])[1..] == attrs[1..];
    } else {
      PutTouchesOneKey(attrs[1..], key, v);
      assert ([attrs[0]] + Put(attrs[1..], key, v))[1..] == Put(attrs[1..], key, v);
    }
  }

  lemma ProtectedNotFlagged(env: Env, cfg: Config, st: State, metric: string, attrs: Attrs, i: nat)
    requires i < |attrs| && attrs[i].key in cfg.protected
    ensures !Flags(env, cfg, st, metric, attrs)[i]
  {
    hide ShouldDrop, Observed;
  }

  lemma LabelsSnoc(attrs: Attrs, a: Attribute, keys: set<string>)
    ensures Labels(attrs + [a], keys) == Labels(attrs, keys) + if a.key in keys then {(a.key, AsString(a.value))} else {}
  {
    assert Rendered(attrs + [a]) == Rendered(attrs) + [(a.key, AsString(a.value))];
  }

  lemma {:induction false} UnflaggedKeepsLabels(attrs: Attrs, fs: seq<bool>, keys: set<string>)
    requires |fs| == |attrs|
    requires forall i :: 0 <= i < |attrs| && attrs[i].key in keys ==> !fs[i]
    ensures Labels(Unflagged(attrs, fs), keys) == Labels(attrs, keys)
  {
    if attrs != [] {
      var n := |attrs| - 1;
      UnflaggedKeepsLabels(attrs[..n], fs[..n], keys);
      assert attrs == attrs[..n] + [attrs[n]];
      LabelsSnoc(attrs[..n], attrs[n], keys);
      LabelsSnoc(Unflagged(attrs[..n], fs[..n]), attrs[n], keys);
      assert Unflagged(attrs[..n], fs[..n]) + [] == Unflagged(attrs[..n], fs[..n]);
    }
  }

  // Stripping leaves every protected label with its value, whatever was decided for the others.
  lemma StripKeepsProtected(env: Env, cfg: Config, st: State, metric: string, attrs: Attrs)
    ensures Labels(Enforce(env, cfg, st, metric, attrs, StripAndReaggregate).1, cfg.protected)
         == Labels(attrs, cfg.protected)
  {
    EnforceByFlags(env, cfg, st, metric, attrs, StripAndReaggregate);
    forall i | 0 <= i < |attrs| && attrs[i].key in cfg.protected
      ensures !Flags(env, cfg, st, metric, attrs)[i]
    {
      ProtectedNotFlagged(env, cfg, st, metric, attrs, i);
    }
    UnflaggedKeepsLabels(attrs, Flags(env, cfg, st, metric, attrs), cfg.protected);
    hide *;
  }

  // ---------------------------------------------------------------------------------------------
  // Whole runs of the processor.

  datatype Op = Handle(metric: string, attrs: Attrs, mode: Mode) | Rotate

  function RunOps(env: Env, cfg: Config, ops: seq<Op>): State {
    if ops == [] then INITIAL else
    var st := RunOps(env, cfg, ops[..|ops| - 1]);
    match ops[|ops| - 1]
    case Handle(metric, attrs, mode) => Enforce(env, cfg, st, metric, attrs, mode).0
    case Rotate => RotateState(st)
  }

  // The calls of shouldDrop that handling some attributes makes.
  ghost function Calls(env: Env, cfg: Config, metric: string, attrs: Attrs): seq<Event> {
    if attrs == [] then [] else
    var a := attrs[|attrs| - 1];
    Calls(env, cfg, metric, attrs[..|attrs| - 1])
      + if a.key in cfg.protected then [] else [Call(Key(metric, a.key), env.xx(AsString(a.value)))]
  }

  ghost function Events(env: Env, cfg: Config, ops: seq<Op>): seq<Event> {
    if ops == [] then [] else
    Events(env, cfg, ops[..|ops| - 1]) +
      match ops[|ops| - 1]
      case Handle(metric, attrs, _) => Calls(env, cfg, metric, attrs)
      case Rotate => [Rotation]
  }

  lemma RunSnoc(est: Estimator, cfg: Config, events: seq<Event>, e: Event)
    ensures Run(est, cfg, events + [e]) ==
      match e
      case Call(k, h) => Observe(est, cfg, Run(est, cfg, events), k, h).0
      case Rotation => RotateAll(Run(est, cfg, events))
  {
    assert (events + [e])[..|events|] == events;
  }

  lemma {:induction false} ObservedIsRun(env: Env, cfg: Config, st: State, events: seq<Event>, metric: string, attrs: Attrs)
    requires st.live == Run(env.est, cfg, events)
    ensures Observed(env, cfg, st, metric, attrs).live == Run(env.est, cfg, events + Calls(env, cfg, metric, attrs))
  {
    if attrs == [] {
      assert events + [] == events;
    } else {
      var rest, a := attrs[..|attrs| - 1], attrs[|attrs| - 1];
      var calls := Calls(env, cfg, metric, rest);
      ObservedIsRun(env, cfg, st, events, metric, rest);
      if a.key in cfg.protected {
        assert calls + [] == calls;
      } else {
        var e := Call(Key(metric, a.key), env.xx(AsString(a.value)));
        RunSnoc(env.est, cfg, events + calls, e);
        assert events + (calls + [e]) == (events + calls) + [e];
      }
    }
  }

  lemma {:induction false} LiveIsRun(env: Env, cfg: Config, ops: seq<Op>)
    ensures RunOps(env, cfg, ops).live == Run(env.est, cfg, Events(env, cfg, ops))
  {
    if ops != [] {
      hide Enforce, Observed, Run, Flags;
      var rest, st := ops[..|ops| - 1], RunOps(env, cfg, ops[..|ops| - 1]);
      LiveIsRun(env, cfg, rest);
      match ops[|ops| - 1] {
        case Handle(metric, attrs, mode) =>
          EnforceByFlags(env, cfg, st, metric, attrs, mode);
          ObservedIsRun(env, cfg, st, Events(env, cfg, rest), metric, attrs);
        case Rotate =>
          RunSnoc(env.est, cfg, Events(env, cfg, rest), Rotation);
      }
    }
  }

  // In every run, an attribute is flagged exactly when the specification of Registry, applied to the
  // attribute values seen so far, says so; the enforcement modes in between make no difference.
  lemma FlagsAreSpecified(env: Env, cfg: Config, ops: seq<Op>, metric: string, attrs: Attrs, i: nat)
    requires i < |attrs|
    ensures
      var a := attrs[i];
      Flags(env, cfg, RunOps(env, cfg, ops), metric, attrs)[i] <==>
        && a.key !in cfg.protected
        && Specified(env.est, cfg, Events(env, cfg, ops) + Calls(env, cfg, metric, attrs[..i]),
                     Key(metric, a.key), env.xx(AsString(a.value)))
  {
    hide Run, Observed, Specified;
    var events := Events(env, cfg, ops) + Calls(env, cfg, metric, attrs[..i]);
    LiveIsRun(env, cfg, ops);
    ObservedIsRun(env, cfg, RunOps(env, cfg, ops), Events(env, cfg, ops), metric, attrs[..i]);
    DecisionsAreSpecified(env.est, cfg, events, Key(metric, attrs[i].key), env.xx(AsString(attrs[i].value)));
  }

  // ---------------------------------------------------------------------------------------------
  // What the counters count, read off the run.

  // The calls refused by the tracker cap, ever and since the last rotation.
  ghost function RefusedCalls(cfg: Config, events: seq<Event>): nat {
    if events == [] then 0 else
    var rest, e := events[..|events| - 1], events[|events| - 1];
    RefusedCalls(cfg, rest) + if e.Call? && !Admitted(cfg, Accepted(cfg, rest), e.key) then 1 else 0
  }

  ghost function RefusedThisEpoch(cfg: Config, events: seq<Event>): nat {
    if events == [] || events[|events| - 1] == Rotation then 0 else
    var rest, e := events[..|events| - 1], events[|events| - 1];
    RefusedThisEpoch(cfg, rest) + if !Admitted(cfg, Accepted(cfg, rest), e.key) then 1 else 0
  }

  // The attributes flagged, ever and in strip mode since the last rotation.
  ghost function FlagsRaised(env: Env, cfg: Config, ops: seq<Op>): nat {
    if ops == [] then 0 else
    var rest := ops[..|ops| - 1];
    FlagsRaised(env, cfg, rest) +
      match ops[|ops| - 1]
      case Handle(metric, attrs, _) => Count(Flags(env, cfg, RunOps(env, cfg, rest), metric, attrs))
      case Rotate => 0
  }

  ghost function StrippedThisEpoch(env: Env, cfg: Config, ops: seq<Op>): nat {
    if ops == [] then 0 else
    var rest := ops[..|ops| - 1];
    match ops[|ops| - 1]
    case Handle(metric, attrs, StripAndReaggregate) =>
      StrippedThisEpoch(env, cfg, rest) + Count(Flags(env, cfg, RunOps(env, cfg, rest), metric, attrs))
    case Handle(_, _, _) => StrippedThisEpoch(env, cfg, rest)
    case Rotate => 0
  }

  ghost predicate Tallies(cfg: Config, st: State, events: seq<Event>) {
    && st.trackersRejected == RefusedCalls(cfg, events)
    && (st.rejectionWarned <==> RefusedThisEpoch(cfg, events) > 0)
    && st.rejectionWarnings == if RefusedThisEpoch(cfg, events) > 0 then 1 else 0
  }

  lemma AdmitsIsAdmitted(est: Estimator, cfg: Config, events: seq<Event>, k: Key)
    ensures Admits(cfg, Run(est, cfg, events), k) <==> Admitted(cfg, Accepted(cfg, events), k)
  {
    RunIsExact(est, cfg, events);
    ExactKeys(est, Run(est, cfg, events), Accepted(cfg, events));
    hide Run, Accepted, RecentKeys, Exact;
  }

  lemma RefusedSnoc(cfg: Config, events: seq<Event>, e: Event)
    ensures
      var refused := if e.Call? && !Admitted(cfg, Accepted(cfg, events), e.key) then 1 else 0;
      && RefusedCalls(cfg, events + [e]) == RefusedCalls(cfg, events) + refused
      && RefusedThisEpoch(cfg, events + [e]) == if e.Rotation? then 0 else RefusedThisEpoch(cfg, events) + refused
  {
    assert (events + [e])[..|events|] == events;
    hide Admitted, Accepted;
  }

  lemma TalliesOne(env: Env, cfg: Config, st: State, events: seq<Event>, metric: string, a: Attribute)
    requires st.live == Run(env.est, cfg, events) && Tallies(cfg, st, events) && a.key !in cfg.protected
    ensures Tallies(cfg, Examine(env, cfg, st, metric, a).0,
                    events + [Call(Key(metric, a.key), env.xx(AsString(a.value)))])
  {
    hide Run, Observe, Admits, Admitted, Accepted, RefusedCalls, RefusedThisEpoch, AsString;
    var e := Call(Key(metric, a.key), env.xx(AsString(a.value)));
    AdmitsIsAdmitted(env.est, cfg, events, e.key);
    RefusedSnoc(cfg, events, e);
  }

  lemma {:induction false} TalliesObserved(env: Env, cfg: Config, st: State, events: seq<Event>, metric: string, attrs: Attrs)
    requires st.live == Run(env.est, cfg, events) && Tallies(cfg, st, events)
    ensures Tallies(cfg, Observed(env, cfg, st, metric, attrs), events + Calls(env, cfg, metric, attrs))
  {
    hide Run, Tallies, ShouldDrop;
    if attrs == [] {
      assert events + [] == events;
    } else {
      var rest, a := attrs[..|attrs| - 1], attrs[|attrs| - 1];
      var calls := Calls(env, cfg, metric, rest);
      TalliesObserved(env, cfg, st, events, metric, rest);
      ObservedIsRun(env, cfg, st, events, metric, rest);
      if a.key in cfg.protected {
        assert calls + [] == calls;
      } else {
        TalliesOne(env, cfg, Observed(env, cfg, st, metric, rest), events + calls, metric, a);
        assert events + (calls + [Call(Key(metric, a.key), env.xx(AsString(a.value)))])
            == (events + calls) + [Call(Key(metric, a.key), env.xx(AsString(a.value)))];
      }
    }
  }

  lemma SameTallies(cfg: Config, a: State, b: State, events: seq<Event>)
    requires SameTracking(a, b) && Tallies(cfg, b, events)
    ensures Tallies(cfg, a, events)
  {
  }

  // In every sequential run each counter counts what it is named for: refusals by the tracker cap,
  // one warning in each epoch that has any, flagged attributes, and those stripped since the last
  // rotation.
  lemma {:induction false} CountersAreExact(env: Env, cfg: Config, ops: seq<Op>)
    ensures
      var st := RunOps(env, cfg, ops);
      && Tallies(cfg, st, Events(env, cfg, ops))
      && st.labelsStripped == FlagsRaised(env, cfg, ops)
      && st.dropsThisEpoch == StrippedThisEpoch(env, cfg, ops)
  {
    if ops == [] {
      assert Tallies(cfg, INITIAL, []);
    } else {
      hide Enforce, Observed, Run, Flags, Count, Tallies, SameTracking;
      var rest, st := ops[..|ops| - 1], RunOps(env, cfg, ops[..|ops| - 1]);
      CountersAreExact(env, cfg, rest);
      LiveIsRun(env, cfg, rest);
      match ops[|ops| - 1] {
        case Handle(metric, attrs, mode) =>
          EnforceByFlags(env, cfg, st, metric, attrs, mode);
          TalliesObserved(env, cfg, st, Events(env, cfg, rest), metric, attrs);
          SameTallies(cfg, RunOps(env, cfg, ops), Observed(env, cfg, st, metric, attrs), Events(env, cfg, ops));
        case Rotate =>
          TalliesRotated(cfg, st, Events(env, cfg, rest));
      }
    }
  }

  lemma TalliesRotated(cfg: Config, st: State, events: seq<Event>)
    requires Tallies(cfg, st, events)
    ensures Tallies(cfg, RotateState(st), events + [Rotation])
  {
    hide RefusedCalls, RefusedThisEpoch, RotateAll;
    RefusedSnoc(cfg, events, Rotation);
  }

  // ---------------------------------------------------------------------------------------------
  // The warning counters.

  ghost predicate LogInvariant(cfg: Config, st: State) {
    && (cfg.dropLogMax > 0 ==> st.dropLogCount == st.dropsThisEpoch)
    && (cfg.dropLogMax > 0 ==>
          st.dropWarnings == if st.dropsThisEpoch < cfg.dropLogMax then st.dropsThisEpoch else cfg.dropLogMax)
    && (cfg.dropLogMax == 0 ==> st.dropLogCount == 0 && st.dropWarnings == st.dropsThisEpoch)
    && st.rejectionWarnings == if st.rejectionWarned then 1 else 0
  }

  lemma StepKeepsLog(env: Env, cfg: Config, s: Scan, metric: string, a: Attribute, mode: Mode)
    requires LogInvariant(cfg, s.st)
    ensures LogInvariant(cfg, ScanStep(env, cfg, s, metric, a, mode).st)
  {
    hide Observe, Admits;
  }

  lemma {:induction false} ScanKeepsLog(env: Env, cfg: Config, st: State, metric: string, attrs: Attrs, mode: Mode)
    requires LogInvariant(cfg, st)
    ensures LogInvariant(cfg, ScanAll(env, cfg, st, metric, attrs, mode).st)
  {
    if attrs != [] {
      hide LogInvariant, ScanStep;
      var n := |attrs| - 1;
      ScanKeepsLog(env, cfg, st, metric, attrs[..n], mode);
      StepKeepsLog(env, cfg, ScanAll(env, cfg, st, metric, attrs[..n], mode), metric, attrs[n], mode);
    }
  }

  // In every sequential run, the strip warnings of an epoch number min(drops, cap), and at most one
  // rejection warning is emitted per epoch.
  lemma {:induction false} LogAlways(env: Env, cfg: Config, ops: seq<Op>)
    ensures LogInvariant(cfg, RunOps(env, cfg, ops))
  {
    if ops != [] {
      hide LogInvariant, ScanAll;
      var st := RunOps(env, cfg, ops[..|ops| - 1]);
      LogAlways(env, cfg, ops[..|ops| - 1]);
      match ops[|ops| - 1] {
        case Handle(metric, attrs, mode) => ScanKeepsLog(env, cfg, st, metric, attrs, mode);
        case Rotate => RotateKeepsLog(cfg, st);
      }
    } else {
      assert LogInvariant(cfg, INITIAL);
    }
  }

  lemma RotateKeepsLog(cfg: Config, st: State)
    ensures LogInvariant(cfg, RotateState(st))
  {
  }

  // The summary of a rotation, which reports `dropsThisEpoch - dropLogCount` suppressed warnings if
  // that is positive, appears only when there is no cap, and then counts logged drops.
  lemma SummaryIsInverted(env: Env, cfg: Config, ops: seq<Op>)
    ensures
      var st := RunOps(env, cfg, ops);
      && (Summarised(st) <==> cfg.dropLogMax == 0 && st.dropsThisEpoch > 0)
      && (Summarised(st) ==> st.dropWarnings == st.dropsThisEpoch)
  {
    LogAlways(env, cfg, ops);
  }

  ghost predicate Summarised(st: State) {
    st.dropsThisEpoch - st.dropLogCount > 0
  }

  // So it appears just when warnings were suppressed if and only if drops did not exceed the cap,
  // that is if nothing was suppressed and, without a cap, nothing dropped.
  lemma SummaryIsRight(env: Env, cfg: Config, ops: seq<Op>)
    ensures
      var st := RunOps(env, cfg, ops);
      (Summarised(st) <==> st.dropWarnings < st.dropsThisEpoch) <==> st.dropsThisEpoch <= cfg.dropLogMax
  {
    LogAlways(env, cfg, ops);
  }

  // `n` data points with the one attribute `a`.
  function Repeat(metric: string, a: Attribute, n: nat): (ops: seq<Op>)
    ensures |ops| == n
  {
    seq(n, _ => Handle(metric, [a], StripAndReaggregate))
  }

  // The pair of an attribute, and the hash of its value.
  function PairOf(metric: string, a: Attribute): Key {
    Key(metric, a.key)
  }

  function HashOf(env: Env, a: Attribute): Hash {
    env.xx(AsString(a.value))
  }

  lemma EventsSnoc(env: Env, cfg: Config, ops: seq<Op>, metric: string, a: Attribute)
    requires a.key !in cfg.protected
    ensures Events(env, cfg, ops + [Handle(metric, [a], StripAndReaggregate)])
         == Events(env, cfg, ops) + [Call(PairOf(metric, a), HashOf(env, a))]
  {
    assert (ops + [Handle(metric, [a], StripAndReaggregate)])[..|ops|] == ops;
    assert Calls(env, cfg, metric, [a]) == [Call(PairOf(metric, a), HashOf(env, a))] by {
      assert [a][..0] == [];
      assert Calls(env, cfg, metric, []) == [];
    }
    hide Calls;
  }

  // The events of `n` more data points with the attribute `a`.
  lemma {:induction false} EventsOfRepeat(env: Env, cfg: Config, ops: seq<Op>, metric: string, a: Attribute, n: nat)
    requires a.key !in cfg.protected
    ensures Events(env, cfg, ops + Repeat(metric, a, n))
         == Events(env, cfg, ops) + CallsOn(PairOf(metric, a), seq(n, _ => HashOf(env, a)))
  {
    var hs := seq(n, _ => HashOf(env, a));
    if n == 0 {
      assert ops + Repeat(metric, a, n) == ops;
      assert Events(env, cfg, ops) + CallsOn(PairOf(metric, a), hs) == Events(env, cfg, ops);
    } else {
      hide Events;
      EventsOfRepeat(env, cfg, ops, metric, a, n - 1);
      EventsSnoc(env, cfg, ops + Repeat(metric, a, n - 1), metric, a);
      assert ops + Repeat(metric, a, n) == ops + Repeat(metric, a, n - 1) + [Handle(metric, [a], StripAndReaggregate)];
      assert CallsOn(PairOf(metric, a), hs)
          == CallsOn(PairOf(metric, a), seq(n - 1, _ => HashOf(env, a))) + [Call(PairOf(metric, a), HashOf(env, a))];
    }
  }

  lemma StillDropping(cfg: Config, events: seq<Event>, k: Key, h: Hash, n: nat)
    requires Decision(Distinct, cfg, events, k, h)
    ensures Decision(Distinct, cfg, events + CallsOn(k, seq(n, _ => h)), k, h)
  {
    hide Decision;
    if n == 0 {
      assert events + CallsOn(k, seq(n, _ => h)) == events;
    } else {
      var more := CallsOn(k, seq(n - 1, _ => h));
      assert events + CallsOn(k, seq(n, _ => h)) == events + [Call(k, h)] + more;
      DropsUntilRotation(cfg, events, k, h, more, h);
    }
  }

  lemma DropAgain(env: Env, cfg: Config, ops: seq<Op>, metric: string, a: Attribute)
    requires env.est == Distinct && a.key !in cfg.protected
    requires Decision(Distinct, cfg, Events(env, cfg, ops), PairOf(metric, a), HashOf(env, a))
    ensures RunOps(env, cfg, ops + [Handle(metric, [a], StripAndReaggregate)]).dropsThisEpoch
         == RunOps(env, cfg, ops).dropsThisEpoch + 1
  {
    assert (ops + [Handle(metric, [a], StripAndReaggregate)])[..|ops|] == ops;
    var st := RunOps(env, cfg, ops);
    assert RunOps(env, cfg, ops + [Handle(metric, [a], StripAndReaggregate)])
        == Enforce(env, cfg, st, metric, [a], StripAndReaggregate).0 by {
      hide Enforce;
    }
    hide RunOps, Enforce, Flags, Decision, Specified, Events;
    assert [a][..0] == [];
    assert Events(env, cfg, ops) + Calls(env, cfg, metric, []) == Events(env, cfg, ops);
    FlagsAreSpecified(env, cfg, ops, metric, [a], 0);
    DecisionsAreSpecified(Distinct, cfg, Events(env, cfg, ops), PairOf(metric, a), HashOf(env, a));
    EnforceByFlags(env, cfg, st, metric, [a], StripAndReaggregate);
    CountOfOne(Flags(env, cfg, st, metric, [a]));
  }

  lemma CountOfOne(fs: seq<bool>)
    requires |fs| == 1
    ensures Count(fs) == if fs[0] then 1 else 0
  {
    assert fs[..0] == [];
  }

  // Once its pair is over the limit, each further data point with the attribute is a drop.
  lemma {:induction false} RepeatDrops(env: Env, cfg: Config, ops: seq<Op>, metric: string, a: Attribute, n: nat)
    requires env.est == Distinct && a.key !in cfg.protected
    requires Decision(Distinct, cfg, Events(env, cfg, ops), PairOf(metric, a), HashOf(env, a))
    ensures RunOps(env, cfg, ops + Repeat(metric, a, n)).dropsThisEpoch == RunOps(env, cfg, ops).dropsThisEpoch + n
  {
    hide RunOps, Decision, Events;
    if n == 0 {
      assert ops + Repeat(metric, a, n) == ops;
    } else {
      var rest := ops + Repeat(metric, a, n - 1);
      RepeatDrops(env, cfg, ops, metric, a, n - 1);
      EventsOfRepeat(env, cfg, ops, metric, a, n - 1);
      StillDropping(cfg, Events(env, cfg, ops), PairOf(metric, a), HashOf(env, a), n - 1);
      DropAgain(env, cfg, rest, metric, a);
      assert ops + Repeat(metric, a, n) == rest + [Handle(metric, [a], StripAndReaggregate)];
    }
  }

  // With the ideal sketch both failures happen in strip mode, once a pair is over its limit:
  // with a cap, the drops beyond it are suppressed without a summary, and without a cap a summary
  // reports drops that were all logged.
  lemma SummaryIsWrong(env: Env, cfg: Config, ops: seq<Op>, metric: string, a: Attribute)
    requires env.est == Distinct && a.key !in cfg.protected && cfg.mode == StripAndReaggregate
    requires Decision(Distinct, cfg, Events(env, cfg, ops), PairOf(metric, a), HashOf(env, a))
    ensures
      var st := RunOps(env, cfg, ops + Repeat(metric, a, cfg.dropLogMax + 1));
      if cfg.dropLogMax > 0
      then st.dropWarnings < st.dropsThisEpoch && !Summarised(st)
      else st.dropWarnings == st.dropsThisEpoch && Summarised(st)
  {
    RepeatDrops(env, cfg, ops, metric, a, cfg.dropLogMax + 1);
    LogAlways(env, cfg, ops + Repeat(metric, a, cfg.dropLogMax + 1));
    hide RunOps, Decision;
  }

  // In the other modes nothing is ever counted as a drop, so the summary, which never appears, is right.
  lemma {:induction false} OtherModesDropNothing(env: Env, cfg: Config, ops: seq<Op>)
    requires forall op :: op in ops && op.Handle? ==> op.mode != StripAndReaggregate
    ensures var st := RunOps(env, cfg, ops);
      st.dropsThisEpoch == 0 && !Summarised(st) && st.dropWarnings == st.dropsThisEpoch
  {
    LogAlways(env, cfg, ops);
    if ops != [] {
      hide Enforce, Flags, Count;
      var rest, op := ops[..|ops| - 1], ops[|ops| - 1];
      OtherModesDropNothing(env, cfg, rest);
      assert op in ops;
      match op {
        case Handle(metric, attrs, mode) => EnforceByFlags(env, cfg, RunOps(env, cfg, rest), metric, attrs, mode);
        case Rotate =>
      }
    }
  }

  // One data point for each of the values of a label.
  function EachValue(metric: string, key: string, values: seq<string>): (ops: seq<Op>)
    ensures |ops| == |values|
  {
    seq(|values|, i requires 0 <= i < |values| => Handle(metric, [Attribute(key, Str(values[i]))], StripAndReaggregate))
  }

  function HashesOf(env: Env, values: seq<string>): (hs: seq<Hash>)
    ensures |hs| == |values|
  {
    seq(|values|, i requires 0 <= i < |values| => env.xx(values[i]))
  }

  lemma {:induction false} EventsOfValues(env: Env, cfg: Config, metric: string, key: string, values: seq<string>)
    requires key !in cfg.protected
    ensures Events(env, cfg, EachValue(metric, key, values)) == CallsOn(Key(metric, key), HashesOf(env, values))
  {
    if values != [] {
      hide Events;
      var rest, v := values[..|values| - 1], values[|values| - 1];
      var a := Attribute(key, Str(v));
      EventsOfValues(env, cfg, metric, key, rest);
      EventsSnoc(env, cfg, EachValue(metric, key, rest), metric, a);
      assert EachValue(metric, key, values)
          == EachValue(metric, key, rest) + [Handle(metric, [a], StripAndReaggregate)];
      assert CallsOn(Key(metric, key), HashesOf(env, values))
          == CallsOn(Key(metric, key), HashesOf(env, rest)) + [Call(Key(metric, key), env.xx(v))];
    }
  }

  // A pair gets over its limit by more than limit + 63 different values, so that such runs exist.
  lemma ManyValuesDrop(env: Env, cfg: Config, metric: string, values: seq<string>, a: Attribute)
    requires env.est == Distinct && a.key !in cfg.protected
    requires Distinct(HashesOf(env, values)) > Limit(cfg, metric) + 63
    ensures Decision(Distinct, cfg, Events(env, cfg, EachValue(metric, a.key, values)),
                     PairOf(metric, a), HashOf(env, a))
  {
    hide Decision, Events, Epoch, Accepted, Admitted, Drops;
    var k, h, hs := PairOf(metric, a), HashOf(env, a), HashesOf(env, values);
    var events := CallsOn(k, hs);
    EventsOfValues(env, cfg, metric, a.key, values);
    SoloAccepted(cfg, events, k);
    EpochAfterCalls([], k, hs);
    NoEpoch(k);
    assert [] + events == events;
    assert Epoch(events, k, 0) == hs && Epoch(events, k, 1) == [];
    assert Distinct(hs + [h]) >= Distinct(hs) && Distinct([]) == 0 by {
      assert (hs + [h])[..|hs|] == hs;
      PrefixGrowth(hs + [h], |hs|);
      assert Elements([]) == {};
    }
    hide Distinct;
    DropBounds(hs + [h], [], Limit(cfg, metric));
    DecisionsAreSpecified(Distinct, cfg, events, k, h);
  }
}
