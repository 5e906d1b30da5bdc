// processMetric on values: enforcement on every data point, then reaggregation, and the promise the
// two make together.
module Pipeline {
  import opened Attributes
  import opened DataPoints
  import opened Enforcement
  import opened MergeLaws
  import opened Reaggregation
  import opened Settings

  predicate CanReaggregate(metricType: MetricType, isDelta: bool) {
    metricType == Gauge || (metricType == Sum && isDelta)
  }

  // Metric types that cannot be reaggregated fall back to tagging.
  function EffectiveMode(mode: Mode, metricType: MetricType, isDelta: bool): Mode {
    if mode == StripAndReaggregate && !CanReaggregate(metricType, isDelta) then TagOnly else mode
  }

  // The merge rule of a type that can be reaggregated.
  function RuleFor(floats: Floats, metricType: MetricType): Rule {
    Rule(floats, metricType, metricType == Sum)
  }

  ghost function EnforceAll(env: Env, cfg: Config, st: State, metric: string, ps: seq<Point>, mode: Mode)
    : (r: (State, seq<Point>))
    ensures |r.1| == |ps|
  {
    if ps == [] then (st, []) else
    var p := ps[|ps| - 1];
    var (st', out) := EnforceAll(env, cfg, st, metric, ps[..|ps| - 1], mode);
    var (st'', attrs) := Enforce(env, cfg, st', metric, p.attrs, mode);
    (st'', out + [p.(attrs := attrs)])
  }

  ghost function Process(env: Env, cfg: Config, floats: Floats, st: State,
                         metric: string, metricType: MetricType, isDelta: bool, ps: seq<Point>): (State, seq<Point>) {
    var (st', out) := EnforceAll(env, cfg, st, metric, ps, EffectiveMode(cfg.mode, metricType, isDelta));
    if cfg.mode == StripAndReaggregate && CanReaggregate(metricType, isDelta)
    then (st', GroupBy(RuleFor(floats, metricType), AttrHash(env.xx), out))
    else (st', out)
  }

  // ---------------------------------------------------------------------------------------------
  // Query preservation.

  // A query by the protected labels selects the points that carry exactly these labels.
  ghost function Selects(keys: set<string>, labels: set<(string, string)>): Attrs -> bool {
    attrs => Labels(attrs, keys) == labels
  }

  ghost function AttrsOf(ps: seq<Point>): (attrs: seq<Attrs>)
    ensures Carries(ps, attrs)
  {
    seq(|ps|, i requires 0 <= i < |ps| => ps[i].attrs)
  }

  // Points that hash alike carry the same of these labels.
  ghost predicate LabelsAgree(h: Hasher, keys: set<string>, attrs: seq<Attrs>) {
    forall i, j :: 0 <= i < |attrs| && 0 <= j < |attrs| && h(attrs[i]) == h(attrs[j]) ==>
      Labels(attrs[i], keys) == Labels(attrs[j], keys)
  }

  // As they do if no two with different attribute sets hash alike.
  lemma CollisionFreeLabelsAgree(h: Hasher, keys: set<string>, attrs: seq<Attrs>)
    requires forall i, j :: 0 <= i < |attrs| && 0 <= j < |attrs| && h(attrs[i]) == h(attrs[j]) ==>
      Identity(attrs[i]) == Identity(attrs[j])
    ensures LabelsAgree(h, keys, attrs)
  {
    hide Identity, Labels;
    forall i, j | 0 <= i < |attrs| && 0 <= j < |attrs| && h(attrs[i]) == h(attrs[j])
      ensures Labels(attrs[i], keys) == Labels(attrs[j], keys)
    {
      IdentityDeterminesLabels(attrs[i], attrs[j], keys);
    }
  }

  // Which is to say that no query splits a hash class.
  lemma LabelsAgreeUnsplit(h: Hasher, keys: set<string>, attrs: seq<Attrs>)
    ensures LabelsAgree(h, keys, attrs) <==> forall labels :: Unsplit(h, Selects(keys, labels), attrs)
  {
    hide Labels;
    if !LabelsAgree(h, keys, attrs) {
      var i, j :| 0 <= i < |attrs| && 0 <= j < |attrs| && h(attrs[i]) == h(attrs[j])
               && Labels(attrs[i], keys) != Labels(attrs[j], keys);
      var q := Selects(keys, Labels(attrs[i], keys));
      assert q(attrs[i]) && !q(attrs[j]);
      assert !Unsplit(h, q, attrs);
    }
  }

  // Flags for every attribute of every point.
  ghost predicate Fits(ps: seq<Point>, flags: seq<seq<bool>>) {
    |flags| == |ps| && forall i :: 0 <= i < |ps| ==> |flags[i]| == |ps[i].attrs|
  }

  ghost predicate Spares(ps: seq<Point>, flags: seq<seq<bool>>, keys: set<string>)
    requires Fits(ps, flags)
  {
    forall i, j :: 0 <= i < |ps| && 0 <= j < |ps[i].attrs| && flags[i][j] ==> ps[i].attrs[j].key !in keys
  }

  // The points without their flagged attributes.
  ghost function Strip(ps: seq<Point>, flags: seq<seq<bool>>): (out: seq<Point>)
    requires Fits(ps, flags)
    ensures |out| == |ps|
  {
    seq(|ps|, i requires 0 <= i < |ps| => ps[i].(attrs := Unflagged(ps[i].attrs, flags[i])))
  }

  lemma StrippingKeepsSums(ps: seq<Point>, flags: seq<seq<bool>>, keys: set<string>, labels: set<(string, string)>)
    requires Fits(ps, flags) && Spares(ps, flags, keys)
    ensures SumWhere(Selects(keys, labels), Strip(ps, flags)) == SumWhere(Selects(keys, labels), ps)
  {
    hide Unflagged, Labels;
    var q, out := Selects(keys, labels), Strip(ps, flags);
    forall i | 0 <= i < |ps| ensures q(out[i].attrs) == q(ps[i].attrs) {
      UnflaggedKeepsLabels(ps[i].attrs, flags[i], keys);
    }
    SameSelectionSameSum(q, out, q, ps);
  }

  // For every int delta sum and every choice of attributes to strip that spares some labels, whoever
  // made it and in whatever order: if points that then hash alike agree on these labels, the sum
  // (mod 2^64) of the points carrying any assignment of the labels is the same before and after.
  lemma StripAndMergeKeepsQueries(floats: Floats, h: Hasher, ps: seq<Point>, flags: seq<seq<bool>>,
                                  keys: set<string>, labels: set<(string, string)>)
    requires AllInt(ps) && Fits(ps, flags) && Spares(ps, flags, keys)
    requires LabelsAgree(h, keys, AttrsOf(Strip(ps, flags)))
    ensures
      var q := Selects(keys, labels);
      SumWhere(q, GroupBy(Rule(floats, Sum, true), h, Strip(ps, flags))) == SumWhere(q, ps)
  {
    StrippingKeepsSums(ps, flags, keys, labels);
    LabelsAgreeUnsplit(h, keys, AttrsOf(Strip(ps, flags)));
    SumsPreservedExactly(floats, h, Selects(keys, labels), AttrsOf(Strip(ps, flags)));
    assert AllInt(Strip(ps, flags));
    hide *;
  }

  // Points with these attributes and no value to speak of.
  ghost function Bare(attrs: seq<Attrs>): (ps: seq<Point>)
    ensures Carries(ps, attrs) && AllInt(ps)
  {
    Unit(attrs, -1)
  }

  ghost function Stripped(attrs: seq<Attrs>, flags: seq<seq<bool>>): seq<Attrs>
    requires Fits(Bare(attrs), flags)
  {
    AttrsOf(Strip(Bare(attrs), flags))
  }

  lemma StripCarries(ps: seq<Point>, attrs: seq<Attrs>, flags: seq<seq<bool>>, keys: set<string>)
    requires Carries(ps, attrs) && Fits(Bare(attrs), flags) && Spares(Bare(attrs), flags, keys)
    ensures Fits(ps, flags) && Spares(ps, flags, keys) && AttrsOf(Strip(ps, flags)) == Stripped(attrs, flags)
  {
    hide Unflagged;
  }

  ghost predicate KeepsQueries(floats: Floats, h: Hasher, ps: seq<Point>, flags: seq<seq<bool>>, keys: set<string>)
    requires Fits(ps, flags)
  {
    forall labels :: var q := Selects(keys, labels);
      SumWhere(q, GroupBy(Rule(floats, Sum, true), h, Strip(ps, flags))) == SumWhere(q, ps)
  }

  // The condition is exact. For points with given attributes, stripping and merging keeps the answer
  // of every query by the labels, whatever int deltas the points carry, if and only if no two of them
  // that hash alike after stripping differ in these labels.
  lemma StripAndMergeExactly(floats: Floats, h: Hasher, attrs: seq<Attrs>, flags: seq<seq<bool>>, keys: set<string>)
    requires Fits(Bare(attrs), flags) && Spares(Bare(attrs), flags, keys)
    ensures (forall ps :: Carries(ps, attrs) && AllInt(ps) ==>
              Fits(ps, flags) && KeepsQueries(floats, h, ps, flags, keys))
       <==> LabelsAgree(h, keys, Stripped(attrs, flags))
  {
    hide GroupBy, SumWhere, LabelsAgree, Stripped, Strip, Spares, Unsplit;
    if LabelsAgree(h, keys, Stripped(attrs, flags)) {
      forall ps | Carries(ps, attrs) && AllInt(ps) ensures Fits(ps, flags) && KeepsQueries(floats, h, ps, flags, keys) {
        StripCarries(ps, attrs, flags, keys);
        forall labels {
          StripAndMergeKeepsQueries(floats, h, ps, flags, keys, labels);
        }
      }
    } else {
      var m := LostQuery(floats, h, attrs, flags, keys);
      assert Carries(Unit(attrs, m), attrs) && AllInt(Unit(attrs, m));
    }
  }

  // When two points that hash alike differ in the labels, a query misses or gains the value of one.
  lemma LostQuery(floats: Floats, h: Hasher, attrs: seq<Attrs>, flags: seq<seq<bool>>, keys: set<string>)
    returns (m: nat)
    requires Fits(Bare(attrs), flags) && Spares(Bare(attrs), flags, keys)
    requires !LabelsAgree(h, keys, Stripped(attrs, flags))
    ensures Fits(Unit(attrs, m), flags) && !KeepsQueries(floats, h, Unit(attrs, m), flags, keys)
  {
    hide GroupBy, SumWhere, LabelsAgree, Unsplit, Spares;
    var attrs' := Stripped(attrs, flags);
    LabelsAgreeUnsplit(h, keys, attrs');
    var labels :| !Unsplit(h, Selects(keys, labels), attrs');
    m := SplitClass(floats, h, Selects(keys, labels), attrs');
    StripCarries(Unit(attrs, m), attrs, flags, keys);
    assert Strip(Unit(attrs, m), flags) == Unit(attrs', m);
    StrippingKeepsSums(Unit(attrs, m), flags, keys, labels);
  }

  // The total needs no assumption on the hash, nor on what is stripped.
  lemma StripAndMergeKeepsTotal(floats: Floats, h: Hasher, ps: seq<Point>, flags: seq<seq<bool>>)
    requires AllInt(ps) && Fits(ps, flags)
    ensures SumWhere(Everything, GroupBy(Rule(floats, Sum, true), h, Strip(ps, flags))) == SumWhere(Everything, ps)
  {
    SameSelectionSameSum(Everything, Strip(ps, flags), Everything, ps);
    TotalPreserved(Rule(floats, Sum, true), h, Strip(ps, flags));
  }

  // The flags one processor raises on a batch, attribute after attribute.
  ghost function AllFlags(env: Env, cfg: Config, st: State, metric: string, ps: seq<Point>, mode: Mode)
    : (flags: seq<seq<bool>>)
    ensures |flags| == |ps|
  {
    if ps == [] then [] else
    var before := EnforceAll(env, cfg, st, metric, ps[..|ps| - 1], mode).0;
    AllFlags(env, cfg, st, metric, ps[..|ps| - 1], mode) + [Flags(env, cfg, before, metric, ps[|ps| - 1].attrs)]
  }

  ghost function CountAll(flags: seq<seq<bool>>): nat {
    if flags == [] then 0 else CountAll(flags[..|flags| - 1]) + Count(flags[|flags| - 1])
  }

  // What enforcement makes of point `p` with flags `fs`.
  ghost predicate EnforcedPoint(p: Point, p': Point, fs: seq<bool>, mode: Mode)
    requires |fs| == |p.attrs|
  {
    && p' == p.(attrs := p'.attrs)
    && match mode
       case TagOnly => p'.attrs == if Count(fs) > 0 then Put(p.attrs, OVERFLOW_TAG, Bool(true)) else p.attrs
       case OverflowAttribute => Rewritten(p.attrs, p'.attrs, fs)
       case StripAndReaggregate => p'.attrs == Unflagged(p.attrs, fs)
  }

  ghost predicate EnforcedAll(ps: seq<Point>, out: seq<Point>, flags: seq<seq<bool>>, mode: Mode) {
    && Fits(ps, flags) && |out| == |ps|
    && forall i :: 0 <= i < |ps| ==> EnforcedPoint(ps[i], out[i], flags[i], mode)
  }

  lemma EnforceOne(env: Env, cfg: Config, st: State, metric: string, p: Point, mode: Mode)
    ensures
      var (st', attrs) := Enforce(env, cfg, st, metric, p.attrs, mode);
      var fs := Flags(env, cfg, st, metric, p.attrs);
      && EnforcedPoint(p, p.(attrs := attrs), fs, mode)
      && st'.labelsStripped == st.labelsStripped + Count(fs)
      && forall j :: 0 <= j < |p.attrs| && p.attrs[j].key in cfg.protected ==> !fs[j]
  {
    hide Enforce, Flags, Count, Put, Rewritten, Unflagged;
    EnforceByFlags(env, cfg, st, metric, p.attrs, mode);
    forall j | 0 <= j < |p.attrs| && p.attrs[j].key in cfg.protected
      ensures !Flags(env, cfg, st, metric, p.attrs)[j]
    {
      ProtectedNotFlagged(env, cfg, st, metric, p.attrs, j);
    }
  }

  lemma AllSnoc(ps: seq<Point>, out: seq<Point>, flags: seq<seq<bool>>, mode: Mode, keys: set<string>,
                p: Point, p': Point, fs: seq<bool>)
    requires EnforcedAll(ps, out, flags, mode) && Spares(ps, flags, keys)
    requires |fs| == |p.attrs| && EnforcedPoint(p, p', fs, mode)
    requires forall j :: 0 <= j < |p.attrs| && p.attrs[j].key in keys ==> !fs[j]
    ensures EnforcedAll(ps + [p], out + [p'], flags + [fs], mode) && Spares(ps + [p], flags + [fs], keys)
    ensures CountAll(flags + [fs]) == CountAll(flags) + Count(fs)
  {
    hide EnforcedPoint;
    assert (flags + [fs])[..|flags|] == flags;
  }

  lemma EnforceAllSnoc(env: Env, cfg: Config, st: State, metric: string, ps: seq<Point>, p: Point, mode: Mode)
    ensures EnforceAll(env, cfg, st, metric, [], mode) == (st, [])
    ensures
      var (st', out) := EnforceAll(env, cfg, st, metric, ps, mode);
      var (st'', attrs) := Enforce(env, cfg, st', metric, p.attrs, mode);
      EnforceAll(env, cfg, st, metric, ps + [p], mode) == (st'', out + [p.(attrs := attrs)])
  {
    hide Enforce;
    assert (ps + [p])[..|ps|] == ps;
  }

  lemma AllFlagsSnoc(env: Env, cfg: Config, st: State, metric: string, ps: seq<Point>, p: Point, mode: Mode)
    ensures AllFlags(env, cfg, st, metric, ps + [p], mode)
         == AllFlags(env, cfg, st, metric, ps, mode)
          + [Flags(env, cfg, EnforceAll(env, cfg, st, metric, ps, mode).0, metric, p.attrs)]
  {
    hide Flags, EnforceAll;
    assert (ps + [p])[..|ps|] == ps;
  }

  lemma NothingEnforced(env: Env, cfg: Config, st: State, metric: string, mode: Mode)
    ensures EnforceAll(env, cfg, st, metric, [], mode) == (st, []) && AllFlags(env, cfg, st, metric, [], mode) == []
    ensures EnforcedAll([], [], [], mode) && Spares([], [], cfg.protected) && CountAll([]) == 0
  {
    hide EnforcedPoint;
  }

  // Over a batch, in every mode: `labelsStripped` grows by the number of flags, no protected attribute
  // is flagged, and each point is changed as its flags say.
  lemma {:induction false} EnforceAllByFlags(env: Env, cfg: Config, st: State, metric: string, ps: seq<Point>, mode: Mode)
    ensures
      var (st', out) := EnforceAll(env, cfg, st, metric, ps, mode);
      var flags := AllFlags(env, cfg, st, metric, ps, mode);
      && EnforcedAll(ps, out, flags, mode) && Spares(ps, flags, cfg.protected)
      && st'.labelsStripped == st.labelsStripped + CountAll(flags)
  {
    hide EnforceAll, AllFlags, Enforce, Flags, Count, CountAll, EnforcedAll, EnforcedPoint, Spares, Fits;
    if ps == [] {
      NothingEnforced(env, cfg, st, metric, mode);
    } else {
      var rest, p := ps[..|ps| - 1], ps[|ps| - 1];
      EnforceAllByFlags(env, cfg, st, metric, rest, mode);
      var (before, out) := EnforceAll(env, cfg, st, metric, rest, mode);
      EnforceOne(env, cfg, before, metric, p, mode);
      AllSnoc(rest, out, AllFlags(env, cfg, st, metric, rest, mode), mode, cfg.protected,
              p, p.(attrs := Enforce(env, cfg, before, metric, p.attrs, mode).1),
              Flags(env, cfg, before, metric, p.attrs));
      EnforceAllSnoc(env, cfg, st, metric, rest, p, mode);
      AllFlagsSnoc(env, cfg, st, metric, rest, p, mode);
      assert rest + [p] == ps;
    }
  }

  lemma StrippedByFlags(env: Env, cfg: Config, st: State, metric: string, ps: seq<Point>)
    ensures
      var flags := AllFlags(env, cfg, st, metric, ps, StripAndReaggregate);
      && Fits(ps, flags) && Spares(ps, flags, cfg.protected)
      && EnforceAll(env, cfg, st, metric, ps, StripAndReaggregate).1 == Strip(ps, flags)
  {
    hide EnforceAll, AllFlags, Unflagged, Spares;
    EnforceAllByFlags(env, cfg, st, metric, ps, StripAndReaggregate);
  }

  // So the processor, in every state, keeps the answer of every query by the protected labels.
  lemma QueryPreserved(env: Env, cfg: Config, floats: Floats, st: State, metric: string, ps: seq<Point>,
                       labels: set<(string, string)>)
    requires cfg.mode == StripAndReaggregate && AllInt(ps)
    requires LabelsAgree(AttrHash(env.xx), cfg.protected,
                         AttrsOf(EnforceAll(env, cfg, st, metric, ps, StripAndReaggregate).1))
    ensures
      var q := Selects(cfg.protected, labels);
      SumWhere(q, Process(env, cfg, floats, st, metric, Sum, true, ps).1) == SumWhere(q, ps)
  {
    hide EnforceAll, AllFlags, Spares, Strip, GroupBy, AttrHash, LabelsAgree;
    var flags := AllFlags(env, cfg, st, metric, ps, StripAndReaggregate);
    StrippedByFlags(env, cfg, st, metric, ps);
    StripAndMergeKeepsQueries(floats, AttrHash(env.xx), ps, flags, cfg.protected, labels);
  }

  // What is decided about a batch depends on its attributes alone.
  lemma {:induction false} FlagsByAttrs(env: Env, cfg: Config, st: State, metric: string,
                                        ps: seq<Point>, ps': seq<Point>, mode: Mode)
    requires |ps| == |ps'| && forall i :: 0 <= i < |ps| ==> ps[i].attrs == ps'[i].attrs
    ensures EnforceAll(env, cfg, st, metric, ps, mode).0 == EnforceAll(env, cfg, st, metric, ps', mode).0
    ensures AllFlags(env, cfg, st, metric, ps, mode) == AllFlags(env, cfg, st, metric, ps', mode)
  {
    if ps != [] {
      hide Enforce, Flags;
      FlagsByAttrs(env, cfg, st, metric, ps[..|ps| - 1], ps'[..|ps| - 1], mode);
    }
  }

  // The attributes the processor leaves to points with these attributes.
  ghost function Enforced(env: Env, cfg: Config, st: State, metric: string, attrs: seq<Attrs>): seq<Attrs> {
    AttrsOf(EnforceAll(env, cfg, st, metric, Bare(attrs), StripAndReaggregate).1)
  }

  ghost predicate Answers(env: Env, cfg: Config, floats: Floats, st: State, metric: string, ps: seq<Point>) {
    forall labels :: var q := Selects(cfg.protected, labels);
      SumWhere(q, Process(env, cfg, floats, st, metric, Sum, true, ps).1) == SumWhere(q, ps)
  }

  // And it does so for all int deltas that points with given attributes may carry, if and only if no
  // two of them that hash alike after enforcement differ in a protected label.
  lemma QueryPreservedExactly(env: Env, cfg: Config, floats: Floats, st: State, metric: string, attrs: seq<Attrs>)
    requires cfg.mode == StripAndReaggregate
    ensures (forall ps :: Carries(ps, attrs) && AllInt(ps) ==> Answers(env, cfg, floats, st, metric, ps))
       <==> LabelsAgree(AttrHash(env.xx), cfg.protected, Enforced(env, cfg, st, metric, attrs))
  {
    hide EnforceAll, AllFlags, Spares, Strip, GroupBy, SumWhere, AttrHash, LabelsAgree, Fits, Unflagged;
    var flags := AllFlags(env, cfg, st, metric, Bare(attrs), StripAndReaggregate);
    StrippedByFlags(env, cfg, st, metric, Bare(attrs));
    StripAndMergeExactly(floats, AttrHash(env.xx), attrs, flags, cfg.protected);
    forall ps | Carries(ps, attrs) && AllInt(ps)
      ensures Fits(ps, flags)
      ensures Answers(env, cfg, floats, st, metric, ps)
         <==> KeepsQueries(floats, AttrHash(env.xx), ps, flags, cfg.protected)
    {
      FlagsByAttrs(env, cfg, st, metric, ps, Bare(attrs), StripAndReaggregate);
      StrippedByFlags(env, cfg, st, metric, ps);
    }
  }

  // ---------------------------------------------------------------------------------------------
  // Labels that do not agree.

  lemma EnforceProtected(env: Env, cfg: Config, st: State, metric: string, a: Attribute)
    requires a.key in cfg.protected
    ensures Enforce(env, cfg, st, metric, [a], StripAndReaggregate) == (st, [a])
  {
    hide ShouldDrop;
    ScanSnoc(env, cfg, st, metric, [], a, StripAndReaggregate);
    assert [] + [a] == [a];
    assert ScanAll(env, cfg, st, metric, [a], StripAndReaggregate) == Scan(st, [] + [a], false, []);
  }

  lemma EnforceUnflagged(env: Env, cfg: Config, st: State, metric: string, a: Attribute)
    requires !Flags(env, cfg, st, metric, [a])[0]
    ensures Enforce(env, cfg, st, metric, [a], StripAndReaggregate).1 == [a]
  {
    hide Enforce, Flags;
    EnforceByFlags(env, cfg, st, metric, [a], StripAndReaggregate);
    var fs := Flags(env, cfg, st, metric, [a]);
    assert [a][..0] == [] && fs[..0] == [];
    assert Unflagged([a], fs) == [a];
  }

  // Two labels that encode alike, of which only the first is protected: whatever xxhash is, a point
  // with the second loses its value to one with the first, even when neither is flagged.
  lemma CollisionBreaksQuery(env: Env, cfg: Config, floats: Floats, st: State, metric: string,
                             p: (string, string), p': (string, string))
    requires cfg.mode == StripAndReaggregate
    requires Encode(p) == Encode(p') && p.0 in cfg.protected && p'.0 !in cfg.protected
    requires !Flags(env, cfg, st, metric, Only(p'))[0]
    ensures
      var q := Selects(cfg.protected, {});
      var ps := [Point(Only(p), Int(1), 0, 0, []), Point(Only(p'), Int(1), 0, 0, [])];
      SumWhere(q, ps) == 1 && SumWhere(q, Process(env, cfg, floats, st, metric, Sum, true, ps).1) == 0
  {
    var q := Selects(cfg.protected, {});
    var ps := [Point(Only(p), Int(1), 0, 0, []), Point(Only(p'), Int(1), 0, 0, [])];
    NothingStripped(env, cfg, st, metric, ps[0], ps[1], p, p');
    assert [ps[0], ps[1]] == ps;
    hide Only, Encode, GroupBy, SumWhere, IdentityHash, Identity, Labels, EnforceAll, Flags;
    LabelsOfOne(p, cfg.protected);
    LabelsOfOne(p', cfg.protected);
    SameEncodingSameHash(env.xx, p, p');
    CollisionMovesSums(floats, AttrHash(env.xx), q, Only(p), Only(p'));
  }

  lemma NothingStripped(env: Env, cfg: Config, st: State, metric: string, x: Point, x': Point,
                        p: (string, string), p': (string, string))
    requires x.attrs == Only(p) && x'.attrs == Only(p') && p.0 in cfg.protected
    requires !Flags(env, cfg, st, metric, Only(p'))[0]
    ensures EnforceAll(env, cfg, st, metric, [x, x'], StripAndReaggregate).1 == [x, x']
  {
    EnforceProtected(env, cfg, st, metric, Only(p)[0]);
    EnforceUnflagged(env, cfg, st, metric, Only(p')[0]);
    assert [Only(p)[0]] == Only(p) && [Only(p')[0]] == Only(p');
    hide Enforce, Flags, Only, EnforceAll;
    EnforceAllSnoc(env, cfg, st, metric, [], x, StripAndReaggregate);
    EnforceAllSnoc(env, cfg, st, metric, [x], x', StripAndReaggregate);
    assert [] + [x] == [x] && [x] + [x'] == [x, x'];
  }

  // There are such labels when a key contains NUL: with "a" protected, the sum over the points without
  // a label "a" goes from 1 to 0.
  lemma NulBreaksQuery(env: Env, cfg: Config, floats: Floats, st: State, metric: string)
    requires cfg.mode == StripAndReaggregate && cfg.protected == {NUL_IN_VALUE.0}
    requires !Flags(env, cfg, st, metric, Only(NUL_IN_KEY))[0]
    ensures
      var q := Selects({NUL_IN_VALUE.0}, {});
      var ps := [Point(Only(NUL_IN_VALUE), Int(1), 0, 0, []), Point(Only(NUL_IN_KEY), Int(1), 0, 0, [])];
      SumWhere(q, ps) == 1 && SumWhere(q, Process(env, cfg, floats, st, metric, Sum, true, ps).1) == 0
  {
    hide NUL_IN_KEY, NUL_IN_VALUE, Encode, SumWhere, Identity, IdentityHash, Only, Selects, Process, Flags;
    EncodeAmbiguous(env.xx);
    CollisionBreaksQuery(env, cfg, floats, st, metric, NUL_IN_VALUE, NUL_IN_KEY);
  }

  lemma BatchTotalPreserved(env: Env, cfg: Config, floats: Floats, st: State, metric: string, ps: seq<Point>)
    requires cfg.mode == StripAndReaggregate && AllInt(ps)
    ensures SumWhere(Everything, Process(env, cfg, floats, st, metric, Sum, true, ps).1) == SumWhere(Everything, ps)
  {
    hide EnforceAll, AllFlags, Spares, Strip, GroupBy, AttrHash;
    var flags := AllFlags(env, cfg, st, metric, ps, StripAndReaggregate);
    StrippedByFlags(env, cfg, st, metric, ps);
    StripAndMergeKeepsTotal(floats, AttrHash(env.xx), ps, flags);
  }

  // What leaves the processor in strip mode has one point per attribute set.
  lemma OneWriterPerIdentity(env: Env, cfg: Config, floats: Floats, st: State,
                             metric: string, metricType: MetricType, isDelta: bool, ps: seq<Point>, i: nat, j: nat)
    requires cfg.mode == StripAndReaggregate && CanReaggregate(metricType, isDelta)
    requires i < j < |Process(env, cfg, floats, st, metric, metricType, isDelta, ps).1|
    ensures
      var out := Process(env, cfg, floats, st, metric, metricType, isDelta, ps).1;
      Identity(out[i].attrs) != Identity(out[j].attrs)
  {
    var enforced := EnforceAll(env, cfg, st, metric, ps, StripAndReaggregate).1;
    DistinctIdentities(RuleFor(floats, metricType), env.xx, enforced, i, j);
  }

  lemma TaggingKeepsOthers(env: Env, cfg: Config, st: State, metric: string, attrs: Attrs)
    ensures Others(Enforce(env, cfg, st, metric, attrs, TagOnly).1, OVERFLOW_TAG) == Others(attrs, OVERFLOW_TAG)
  {
    hide Enforce, Flags, Count, Others, Put;
    EnforceByFlags(env, cfg, st, metric, attrs, TagOnly);
    PutTouchesOneKey(attrs, OVERFLOW_TAG, Bool(true));
  }

  lemma {:induction false} LabelsOfOthers(attrs: Attrs, key: string, keys: set<string>)
    requires key !in keys
    ensures Labels(attrs, keys) == Labels(Others(attrs, key), keys)
  {
    if attrs != [] {
      var a, rest := attrs[0], attrs[1..];
      LabelsOfOthers(rest, key, keys);
      LabelsCons(a, rest, keys);
      LabelsCons(a, Others(rest, key), keys);
      assert [a] + rest == attrs && [] + Others(rest, key) == Others(rest, key);
    }
  }

  lemma LabelsCons(a: Attribute, rest: Attrs, keys: set<string>)
    ensures Labels([a] + rest, keys) == Labels(rest, keys) + if a.key in keys then {(a.key, AsString(a.value))} else {}
  {
    assert Rendered([a] + rest) == [(a.key, AsString(a.value))] + Rendered(rest);
  }

  // Of labels that are spared, a tag can only replace the one that has its key.
  ghost function Lasting(keys: set<string>, mode: Mode): set<string> {
    if mode == TagOnly then keys - {OVERFLOW_TAG} else keys
  }

  lemma RewrittenKeepsLabels(attrs: Attrs, r: Attrs, fs: seq<bool>, keys: set<string>)
    requires |fs| == |attrs| && Rewritten(attrs, r, fs)
    requires forall j :: 0 <= j < |attrs| && fs[j] ==> attrs[j].key !in keys
    ensures Labels(r, keys) == Labels(attrs, keys)
  {
    hide First, Overwritten, UniqueKeys, OVERFLOW_SENTINEL;
    forall i | 0 <= i < |attrs| ensures r[i].key == attrs[i].key && (attrs[i].key in keys ==> r[i] == attrs[i]) {
    }
    forall p ensures p in Labels(r, keys) <==> p in Labels(attrs, keys) {
      if p in Labels(r, keys) {
        var i :| 0 <= i < |r| && Rendered(r)[i] == p;
        assert Rendered(attrs)[i] == p;
      }
      if p in Labels(attrs, keys) {
        var i :| 0 <= i < |attrs| && Rendered(attrs)[i] == p;
        assert Rendered(r)[i] == p;
      }
    }
  }

  lemma EnforcedKeepsLabels(p: Point, p': Point, fs: seq<bool>, mode: Mode, keys: set<string>)
    requires |fs| == |p.attrs| && EnforcedPoint(p, p', fs, mode)
    requires forall j :: 0 <= j < |p.attrs| && fs[j] ==> p.attrs[j].key !in keys
    ensures Labels(p'.attrs, Lasting(keys, mode)) == Labels(p.attrs, Lasting(keys, mode))
  {
    hide Labels, Others, Put, Rewritten, Unflagged, Count, OVERFLOW_TAG;
    match mode
    case TagOnly =>
      PutTouchesOneKey(p.attrs, OVERFLOW_TAG, Bool(true));
      LabelsOfOthers(p.attrs, OVERFLOW_TAG, Lasting(keys, mode));
      LabelsOfOthers(p'.attrs, OVERFLOW_TAG, Lasting(keys, mode));
    case OverflowAttribute => RewrittenKeepsLabels(p.attrs, p'.attrs, fs, keys);
    case StripAndReaggregate => UnflaggedKeepsLabels(p.attrs, fs, keys);
  }

  // In every mode and at every point of a batch, the protected labels survive with their values, but
  // for one with the key of the tag in tag mode.
  lemma ProtectedLabelsSurvive(env: Env, cfg: Config, st: State, metric: string, ps: seq<Point>, mode: Mode, i: nat)
    requires i < |ps|
    ensures
      var out, keys := EnforceAll(env, cfg, st, metric, ps, mode).1, Lasting(cfg.protected, mode);
      Labels(out[i].attrs, keys) == Labels(ps[i].attrs, keys)
  {
    hide EnforceAll, AllFlags, EnforcedPoint, Labels, Lasting;
    EnforceAllByFlags(env, cfg, st, metric, ps, mode);
    var flags := AllFlags(env, cfg, st, metric, ps, mode);
    EnforcedKeepsLabels(ps[i], EnforceAll(env, cfg, st, metric, ps, mode).1[i], flags[i], mode, cfg.protected);
  }

  // Types that cannot be reaggregated lose nothing: every point keeps its value, times and
  // exemplars, and its attributes other than the tag.
  lemma {:induction false} FallbackOnlyTags(env: Env, cfg: Config, st: State, metric: string, ps: seq<Point>)
    ensures
      var out := EnforceAll(env, cfg, st, metric, ps, TagOnly).1;
      forall i :: 0 <= i < |ps| ==>
        && out[i] == ps[i].(attrs := out[i].attrs)
        && Others(out[i].attrs, OVERFLOW_TAG) == Others(ps[i].attrs, OVERFLOW_TAG)
  {
    if ps != [] {
      hide Enforce, Others;
      var n := |ps| - 1;
      FallbackOnlyTags(env, cfg, st, metric, ps[..n]);
      TaggingKeepsOthers(env, cfg, EnforceAll(env, cfg, st, metric, ps[..n], TagOnly).0, metric, ps[n].attrs);
    }
  }
}
