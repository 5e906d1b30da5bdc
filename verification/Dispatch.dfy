// What processMetric makes of a batch, by metric type and enforcement mode.
module Dispatch {
  import opened Attributes
  import opened DataPoints
  import opened Enforcement
  import opened Hashing
  import opened MergeLaws
  import opened Pipeline
  import opened Reaggregation
  import opened Registry
  import opened Settings

  // Whether the mode is tag_only or overflow_attribute: enforcement of that mode and nothing else.
  lemma OtherModesOnlyEnforce(env: Env, cfg: Config, floats: Floats, st: State,
                              metric: string, metricType: MetricType, isDelta: bool, ps: seq<Point>)
    requires cfg.mode != StripAndReaggregate
    ensures
      var out, flags := Process(env, cfg, floats, st, metric, metricType, isDelta, ps).1,
                        AllFlags(env, cfg, st, metric, ps, cfg.mode);
      EnforcedAll(ps, out, flags, cfg.mode) && Spares(ps, flags, cfg.protected)
  {
    hide EnforceAll, AllFlags, EnforcedAll, Spares;
    EnforceAllByFlags(env, cfg, st, metric, ps, cfg.mode);
  }

  // In tag mode, and in strip mode for metrics that are neither gauges nor delta sums, all points stay,
  // and every point keeps its value, times, exemplars and attributes; the tag is added where an
  // attribute is flagged.
  lemma FallbackTags(env: Env, cfg: Config, floats: Floats, st: State,
                     metric: string, metricType: MetricType, isDelta: bool, ps: seq<Point>)
    requires cfg.mode == TagOnly
          || (cfg.mode == StripAndReaggregate && metricType != Gauge && !(metricType == Sum && isDelta))
    ensures
      var out, flags := Process(env, cfg, floats, st, metric, metricType, isDelta, ps).1,
                        AllFlags(env, cfg, st, metric, ps, TagOnly);
      && Fits(ps, flags) && |out| == |ps|
      && forall i :: 0 <= i < |ps| ==> Tagged(ps[i], out[i], flags[i])
  {
    hide EnforceAll, AllFlags, EnforcedPoint, Tagged, Spares;
    EnforceAllByFlags(env, cfg, st, metric, ps, TagOnly);
    var out, flags := EnforceAll(env, cfg, st, metric, ps, TagOnly).1, AllFlags(env, cfg, st, metric, ps, TagOnly);
    forall i | 0 <= i < |ps| ensures Tagged(ps[i], out[i], flags[i]) {
      TaggedPoint(ps[i], out[i], flags[i]);
    }
  }

  // In overflow mode all points stay, and every point keeps its value, times, exemplars and keys; the
  // values of the flagged attributes are overwritten.
  lemma OverflowRewrites(env: Env, cfg: Config, floats: Floats, st: State,
                         metric: string, metricType: MetricType, isDelta: bool, ps: seq<Point>, i: nat)
    requires cfg.mode == OverflowAttribute && i < |ps| && UniqueKeys(ps[i].attrs)
    ensures
      var out, flags := Process(env, cfg, floats, st, metric, metricType, isDelta, ps).1,
                        AllFlags(env, cfg, st, metric, ps, OverflowAttribute);
      && |out| == |ps| && |flags[i]| == |ps[i].attrs| == |out[i].attrs|
      && out[i] == ps[i].(attrs := out[i].attrs)
      && forall j :: 0 <= j < |ps[i].attrs| ==>
           out[i].attrs[j] == if flags[i][j] then Attribute(ps[i].attrs[j].key, Str("otel.cardinality_overflow"))
                              else ps[i].attrs[j]
  {
    hide EnforceAll, AllFlags, Spares, First, FlaggedKey, UniqueKeys;
    EnforceAllByFlags(env, cfg, st, metric, ps, OverflowAttribute);
  }

  // `p'` is `p` with the tag if one of its attributes is flagged.
  ghost predicate Tagged(p: Point, p': Point, fs: seq<bool>)
    requires |fs| == |p.attrs|
  {
    && p' == p.(attrs := p'.attrs)
    && Others(p'.attrs, "otel.metric.overflow") == Others(p.attrs, "otel.metric.overflow")
    && if true in fs then Attribute("otel.metric.overflow", Bool(true)) in p'.attrs else p'.attrs == p.attrs
  }

  lemma TaggedPoint(p: Point, p': Point, fs: seq<bool>)
    requires |fs| == |p.attrs| && EnforcedPoint(p, p', fs, TagOnly)
    ensures Tagged(p, p', fs)
  {
    hide Others, Put, Count;
    PutTouchesOneKey(p.attrs, OVERFLOW_TAG, Bool(true));
    CountPositive(fs);
  }

  lemma {:induction false} CountPositive(fs: seq<bool>)
    ensures Count(fs) > 0 <==> true in fs
  {
    if fs != [] {
      CountPositive(fs[..|fs| - 1]);
      assert fs == fs[..|fs| - 1] + [fs[|fs| - 1]];
    }
  }

  // ---------------------------------------------------------------------------------------------
  // Strip mode on gauges and delta sums: every survivor is the merge of the points with its hash.

  // What enforcement leaves before reaggregation.
  ghost function Before(env: Env, cfg: Config, st: State, metric: string, ps: seq<Point>): (out: seq<Point>)
    ensures |out| == |ps|
  {
    EnforceAll(env, cfg, st, metric, ps, StripAndReaggregate).1
  }

  // A group lists its points in index order: point `i` has as many before it in its group as there are
  // points with its hash before it.
  lemma {:induction false} GroupsInOrder(h: Hasher, ps: seq<Point>, i: nat)
    requires i < |ps|
    ensures
      var group, n := Members(h, ps, h(ps[i].attrs)), |Members(h, ps[..i], h(ps[i].attrs))|;
      n < |group| && group[n] == ps[i]
  {
    var n := |ps| - 1;
    if i < n {
      GroupsInOrder(h, ps[..n], i);
      assert ps[..n][..i] == ps[..i];
    }
  }

  // The survivors are in the order of their leaders: point `i`, if its hash is new, leads the survivor
  // after those of the hashes before it.
  lemma {:induction false} SurvivorsInOrder(rule: Rule, h: Hasher, ps: seq<Point>, i: nat)
    requires i < |ps| && forall j :: 0 <= j < i ==> h(ps[j].attrs) != h(ps[i].attrs)
    ensures
      var out, n := GroupBy(rule, h, ps), |GroupBy(rule, h, ps[..i])|;
      n < |out| && out[n].attrs == ps[i].attrs
  {
    hide Members, Fold;
    var x, n := h(ps[i].attrs), |Order(h, ps[..i])|;
    NewHash(h, ps, i);
    GroupByAt(rule, h, ps, n);
    FoldKeepsAttrs(rule, Members(h, ps, x));
    NothingBefore(h, ps[..i], x);
    GroupsInOrder(h, ps, i);
  }

  lemma {:induction false} NothingBefore(h: Hasher, ps: seq<Point>, x: Hash)
    requires forall j :: 0 <= j < |ps| ==> h(ps[j].attrs) != x
    ensures Members(h, ps, x) == [] && x !in Order(h, ps)
  {
    if ps != [] {
      NothingBefore(h, ps[..|ps| - 1], x);
    }
  }

  lemma {:induction false} NewHash(h: Hasher, ps: seq<Point>, i: nat)
    requires i < |ps| && forall j :: 0 <= j < i ==> h(ps[j].attrs) != h(ps[i].attrs)
    ensures |Order(h, ps[..i])| < |Order(h, ps)| && Order(h, ps)[|Order(h, ps[..i])|] == h(ps[i].attrs)
  {
    var n := |ps| - 1;
    if i == n {
      NothingBefore(h, ps[..n], h(ps[n].attrs));
    } else {
      NewHash(h, ps[..n], i);
      assert ps[..n][..i] == ps[..i];
    }
  }

  lemma EveryHashSurvives(rule: Rule, h: Hasher, ps: seq<Point>, i: nat) returns (j: nat)
    requires i < |ps|
    ensures j < |GroupBy(rule, h, ps)| && h(GroupBy(rule, h, ps)[j].attrs) == h(ps[i].attrs)
  {
    var x := h(ps[i].attrs);
    GroupsInOrder(h, ps, i);
    OrderMembers(h, ps, x);
    j :| 0 <= j < |Order(h, ps)| && Order(h, ps)[j] == x;
    GroupByHash(rule, h, ps, j);
  }

  // A gauge survivor has the latest timestamp of its group and, of the points that overtook all before
  // them, the last value and the last start time.
  lemma GaugeSurvivor(env: Env, cfg: Config, floats: Floats, st: State, metric: string, isDelta: bool, ps: seq<Point>, j: nat)
    returns (w: nat, v: int, s: int)
    requires cfg.mode == StripAndReaggregate
    requires j < |Process(env, cfg, floats, st, metric, Gauge, isDelta, ps).1|
    ensures
      var r := Process(env, cfg, floats, st, metric, Gauge, isDelta, ps).1[j];
      var group := Members(AttrHash(env.xx), Before(env, cfg, st, metric, ps), IdentityHash(env.xx, r.attrs));
      && Wins(group, w) && LastOf(group, HasValue, v) && LastOf(group, HasStart, s)
      && r.attrs == group[0].attrs
      && r.timestamp == group[w].timestamp
      && r.value == (if v < 0 then Empty else group[v].value)
      && r.start == (if s < 0 then 0 else group[s].start)
      && r.exemplars == Exemplars(group)
  {
    hide EnforceAll, IdentityHash, Wins, LastOf, Exemplars, Order, Fold;
    var rule, h, before := Rule(floats, Gauge, false), AttrHash(env.xx), Before(env, cfg, st, metric, ps);
    GroupByHash(rule, h, before, j);
    GroupByAt(rule, h, before, j);
    w, v, s := GaugeGroup(rule, Members(h, before, Order(h, before)[j]));
  }

  // A delta survivor has the earliest start, the latest timestamp and the sum of its group.
  lemma DeltaSurvivor(env: Env, cfg: Config, floats: Floats, st: State, metric: string, ps: seq<Point>, j: nat)
    requires cfg.mode == StripAndReaggregate
    requires j < |Process(env, cfg, floats, st, metric, Sum, true, ps).1|
    ensures
      var r := Process(env, cfg, floats, st, metric, Sum, true, ps).1[j];
      var group := Members(AttrHash(env.xx), Before(env, cfg, st, metric, ps), IdentityHash(env.xx, r.attrs));
      && group != [] && r.attrs == group[0].attrs
      && Latest(group, r.timestamp) && EarliestStart(group, r.start) && r.exemplars == Exemplars(group)
      && (AllInt(group) ==> r.value == Int(AddInts(group)))
      && (forall ds: seq<Float64> :: |ds| == |group| && (forall i :: 0 <= i < |ds| ==> group[i].value == Double(ds[i]))
            ==> r.value == Double(AddUp(floats, ds[0], ds[1..])))
  {
    hide EnforceAll, IdentityHash, Latest, EarliestStart, Exemplars, Order, Fold, AddInts, AddUp;
    var rule, h, before := Rule(floats, Sum, true), AttrHash(env.xx), Before(env, cfg, st, metric, ps);
    GroupByHash(rule, h, before, j);
    GroupByAt(rule, h, before, j);
    var group := Members(h, before, Order(h, before)[j]);
    DeltaGroup(rule, group);
    if AllInt(group) {
      IntDelta(rule, group);
    }
    forall ds: seq<Float64> | |ds| == |group| && forall i :: 0 <= i < |ds| ==> group[i].value == Double(ds[i])
      ensures Fold(rule, group).value == Double(AddUp(floats, ds[0], ds[1..]))
    {
      DoubleDelta(rule, group, ds);
    }
  }

  // No enforced hash is lost, whatever the type.
  lemma NoGroupLost(env: Env, cfg: Config, floats: Floats, st: State,
                    metric: string, metricType: MetricType, isDelta: bool, ps: seq<Point>, i: nat) returns (j: nat)
    requires cfg.mode == StripAndReaggregate && (metricType == Gauge || (metricType == Sum && isDelta)) && i < |ps|
    ensures
      var out := Process(env, cfg, floats, st, metric, metricType, isDelta, ps).1;
      j < |out| && IdentityHash(env.xx, out[j].attrs) == IdentityHash(env.xx, Before(env, cfg, st, metric, ps)[i].attrs)
  {
    hide EnforceAll, IdentityHash, GroupBy;
    j := EveryHashSurvives(RuleFor(floats, metricType), AttrHash(env.xx), Before(env, cfg, st, metric, ps), i);
  }

  lemma ProcessMerges(env: Env, cfg: Config, floats: Floats, st: State,
                      metric: string, metricType: MetricType, isDelta: bool, ps: seq<Point>)
    requires cfg.mode == StripAndReaggregate && (metricType == Gauge || (metricType == Sum && isDelta))
    ensures Process(env, cfg, floats, st, metric, metricType, isDelta, ps).1
         == GroupBy(RuleFor(floats, metricType), AttrHash(env.xx), Before(env, cfg, st, metric, ps))
  {
    hide EnforceAll, GroupBy, AttrHash;
  }

  // Two points that differ in one label, which xxhash tells apart, both survive as they are.
  lemma ApartSurvive(env: Env, cfg: Config, floats: Floats, st: State,
                     metric: string, metricType: MetricType, isDelta: bool, ps: seq<Point>, i: nat, b: Attribute)
    requires cfg.mode == StripAndReaggregate && (metricType == Gauge || (metricType == Sum && isDelta)) && |ps| == 2
    requires
      var before := Before(env, cfg, st, metric, ps);
      && i < |before[0].attrs| && before[1].attrs == before[0].attrs[i := b]
      && var a := before[0].attrs[i];
         env.xx(a.key + ['\0'] + AsString(a.value)) as bv64 != env.xx(b.key + ['\0'] + AsString(b.value)) as bv64
    ensures Process(env, cfg, floats, st, metric, metricType, isDelta, ps).1 == Before(env, cfg, st, metric, ps)
  {
    hide Before, EnforceAll, IdentityHash, GroupBy, AsString;
    var before := Before(env, cfg, st, metric, ps);
    OneLabelTells(env.xx, before[0].attrs, i, b);
    ProcessMerges(env, cfg, floats, st, metric, metricType, isDelta, ps);
    FastPath(RuleFor(floats, metricType), AttrHash(env.xx), before);
  }

  // ---------------------------------------------------------------------------------------------
  // Batches in whole runs.

  // A batch as operations of a run.
  function Handles(metric: string, ps: seq<Point>, mode: Mode): (ops: seq<Op>)
    ensures |ops| == |ps|
  {
    seq(|ps|, i requires 0 <= i < |ps| => Handle(metric, ps[i].attrs, mode))
  }

  lemma RunOneMore(env: Env, cfg: Config, ops: seq<Op>, metric: string, attrs: Attrs, mode: Mode)
    ensures RunOps(env, cfg, ops + [Handle(metric, attrs, mode)])
         == Enforce(env, cfg, RunOps(env, cfg, ops), metric, attrs, mode).0
  {
    hide Enforce;
    assert (ops + [Handle(metric, attrs, mode)])[..|ops|] == ops;
  }

  lemma HandlesSnoc(ops: seq<Op>, metric: string, ps: seq<Point>, p: Point, mode: Mode)
    ensures ops + Handles(metric, ps + [p], mode)
         == ops + Handles(metric, ps, mode) + [Handle(metric, p.attrs, mode)]
    ensures ops + Handles(metric, [], mode) == ops
  {
  }

  lemma {:induction false} BatchIsRun(env: Env, cfg: Config, ops: seq<Op>, metric: string, ps: seq<Point>, mode: Mode)
    ensures EnforceAll(env, cfg, RunOps(env, cfg, ops), metric, ps, mode).0
         == RunOps(env, cfg, ops + Handles(metric, ps, mode))
  {
    hide Enforce, RunOps, EnforceAll, Handles;
    if ps == [] {
      HandlesSnoc(ops, metric, [], Point([], Empty, 0, 0, []), mode);
      EnforceNothing(env, cfg, RunOps(env, cfg, ops), metric, mode);
    } else {
      var rest, p := ps[..|ps| - 1], ps[|ps| - 1];
      BatchIsRun(env, cfg, ops, metric, rest, mode);
      HandlesSnoc(ops, metric, rest, p, mode);
      RunOneMore(env, cfg, ops + Handles(metric, rest, mode), metric, p.attrs, mode);
      EnforceAllSnoc(env, cfg, RunOps(env, cfg, ops), metric, rest, p, mode);
      assert rest + [p] == ps;
    }
  }

  lemma EnforceNothing(env: Env, cfg: Config, st: State, metric: string, mode: Mode)
    ensures EnforceAll(env, cfg, st, metric, [], mode).0 == st
  {
  }

  // Where the mode is strip but the metric cannot be reaggregated, its points are handled in tag mode.
  lemma ProcessIsRun(env: Env, cfg: Config, floats: Floats, ops: seq<Op>,
                     metric: string, metricType: MetricType, isDelta: bool, ps: seq<Point>)
    ensures
      var fallback := cfg.mode == StripAndReaggregate && metricType != Gauge && !(metricType == Sum && isDelta);
      Process(env, cfg, floats, RunOps(env, cfg, ops), metric, metricType, isDelta, ps).0
        == RunOps(env, cfg, ops + Handles(metric, ps, if fallback then TagOnly else cfg.mode))
  {
    hide EnforceAll, RunOps, Handles, GroupBy;
    BatchIsRun(env, cfg, ops, metric, ps, EffectiveMode(cfg.mode, metricType, isDelta));
  }

  lemma {:induction false} AllFlagsAt(env: Env, cfg: Config, st: State, metric: string, ps: seq<Point>, mode: Mode, i: nat)
    requires i < |ps|
    ensures AllFlags(env, cfg, st, metric, ps, mode)[i]
         == Flags(env, cfg, EnforceAll(env, cfg, st, metric, ps[..i], mode).0, metric, ps[i].attrs)
  {
    hide Flags, EnforceAll;
    if i < |ps| - 1 {
      AllFlagsAt(env, cfg, st, metric, ps[..|ps| - 1], mode, i);
      assert ps[..|ps| - 1][..i] == ps[..i];
    }
  }

  // In every run, attribute `j` of point `i` of a batch is flagged exactly when it is unprotected and
  // the specification, applied to all values seen before it, drops it.
  lemma BatchFlagsAreSpecified(env: Env, cfg: Config, ops: seq<Op>, metric: string, ps: seq<Point>, mode: Mode, i: nat, j: nat)
    requires i < |ps| && j < |ps[i].attrs|
    ensures
      var flags, a := AllFlags(env, cfg, RunOps(env, cfg, ops), metric, ps, mode), ps[i].attrs[j];
      |flags[i]| == |ps[i].attrs| &&
      (flags[i][j] <==>
        && a.key !in cfg.protected
        && Specified(env.est, cfg,
                     Events(env, cfg, ops + Handles(metric, ps[..i], mode)) + Calls(env, cfg, metric, ps[i].attrs[..j]),
                     Key(metric, a.key), env.xx(AsString(a.value))))
  {
    hide Specified, Events, Calls, RunOps, EnforceAll, AllFlags, Flags, AsString;
    AllFlagsAt(env, cfg, RunOps(env, cfg, ops), metric, ps, mode, i);
    BatchIsRun(env, cfg, ops, metric, ps[..i], mode);
    FlagsAreSpecified(env, cfg, ops + Handles(metric, ps[..i], mode), metric, ps[i].attrs, j);
  }
}
