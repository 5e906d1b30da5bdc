// What a merged group is, field by field, and what no merge can lose.
module MergeLaws {
  import opened Attributes
  import opened DataPoints
  import opened Hashing
  import opened Reaggregation

  ghost function Exemplars(ps: seq<Point>): seq<Exemplar> {
    if ps == [] then [] else Exemplars(ps[..|ps| - 1]) + ps[|ps| - 1].exemplars
  }

  lemma MergeExemplars(rule: Rule, leader: Point, p: Point)
    requires Merges(rule)
    ensures Merge(rule, leader, p).exemplars == leader.exemplars + p.exemplars
  {
    hide CopyNumber, AddNumber;
  }

  lemma ExemplarsStep(ps: seq<Point>, n: nat)
    requires |ps| == n + 1
    ensures Exemplars(ps) == if n == 0 then ps[0].exemplars else Exemplars(ps[..n]) + ps[n].exemplars
  {
    assert Exemplars([]) + ps[n].exemplars == ps[n].exemplars;
  }

  lemma FoldOfOne(rule: Rule, group: seq<Point>)
    requires |group| == 1
    ensures Fold(rule, group) == group[0]
  {
  }

  lemma {:induction false} GroupExemplars(rule: Rule, group: seq<Point>)
    requires Merges(rule) && group != []
    ensures Fold(rule, group).exemplars == Exemplars(group)
  {
    hide Merge, Merges, Exemplars, Fold;
    var n := |group| - 1;
    ExemplarsStep(group, n);
    if n == 0 {
      FoldOfOne(rule, group);
    } else {
      GroupExemplars(rule, group[..n]);
      MergeExemplars(rule, Fold(rule, group[..n]), group[n]);
      FoldSnoc(rule, group[..n], group[n]);
      assert group[..n] + [group[n]] == group;
    }
  }

  ghost predicate IsDelta(rule: Rule) {
    rule.metricType == Sum && rule.isDelta
  }

  // ---------------------------------------------------------------------------------------------
  // Delta sums.

  // The left fold of addNumberValue over the group, in index order.
  ghost function Added(floats: Floats, group: seq<Point>): Number
    requires group != []
  {
    var n := |group| - 1;
    if n == 0 then group[0].value else AddNumber(floats, group[n].value, Added(floats, group[..n]))
  }

  ghost predicate Latest(group: seq<Point>, t: nat) {
    (exists p :: p in group && p.timestamp == t) && forall p :: p in group ==> p.timestamp <= t
  }

  ghost predicate EarliestStart(group: seq<Point>, t: nat) {
    (exists p :: p in group && p.start == t) && forall p :: p in group ==> t <= p.start
  }

  lemma {:induction false} DeltaGroup(rule: Rule, group: seq<Point>)
    requires IsDelta(rule) && group != []
    ensures
      var r := Fold(rule, group);
      && r.attrs == group[0].attrs
      && r.value == Added(rule.floats, group)
      && Latest(group, r.timestamp)
      && EarliestStart(group, r.start)
      && r.exemplars == Exemplars(group)
  {
    hide Plus;
    var n := |group| - 1;
    assert group == group[..n] + [group[n]];
    GroupExemplars(rule, group);
    if n == 0 {
      assert group[..0] == [];
      assert group[0] in group;
    } else {
      DeltaGroup(rule, group[..n]);
      var r := Fold(rule, group[..n]);
      assert forall p :: p in group <==> p in group[..n] || p == group[n];
      if group[n].timestamp <= r.timestamp {
        var p :| p in group[..n] && p.timestamp == r.timestamp;
      }
      if group[n].start >= r.start {
        var p :| p in group[..n] && p.start == r.start;
      }
    }
  }

  // The float64 that `v` counts as in a sum.
  ghost predicate ReadsAs(floats: Floats, v: Number, d: Float64) {
    match v
    case Int(i) => d == floats.ofInt(i)
    case Double(d') => d == d'
    case Empty => d == 0
  }

  ghost predicate Reads(floats: Floats, group: seq<Point>, ds: seq<Float64>) {
    && |ds| == |group|
    && forall i :: 0 <= i < |group| ==> ReadsAs(floats, group[i].value, ds[i])
  }

  // ((d + ds[0]) + ds[1]) + ...
  ghost function AddUp(floats: Floats, d: Float64, ds: seq<Float64>): Float64 {
    if ds == [] then d else floats.add(AddUp(floats, d, ds[..|ds| - 1]), ds[|ds| - 1])
  }

  // (x + i0) + i1 ..., in int64.
  ghost function AddInts(group: seq<Point>): Int64 {
    if group == [] then 0 else
    Plus(AddInts(group[..|group| - 1]), match group[|group| - 1].value case Int(i) => i case _ => 0)
  }

  // A delta group adds up in int64 for as long as it consists of ints ...
  lemma {:induction false} IntDelta(rule: Rule, group: seq<Point>)
    requires IsDelta(rule) && group != []
    requires forall i :: 0 <= i < |group| ==> group[i].value.Int?
    ensures Fold(rule, group).value == Int(AddInts(group))
  {
    hide Plus;
    var n := |group| - 1;
    if n == 0 {
      PlusZero(group[0].value.i);
      PlusCommutes(0, group[0].value.i);
      assert AddInts(group[..0]) == 0;
    } else {
      IntDelta(rule, group[..n]);
    }
  }

  lemma AddUpSnoc(floats: Floats, d: Float64, ds: seq<Float64>, x: Float64)
    ensures AddUp(floats, d, ds + [x]) == floats.add(AddUp(floats, d, ds), x)
  {
    assert (ds + [x])[..|ds|] == ds;
  }

  lemma MixedStep(rule: Rule, group: seq<Point>, d: Float64, x: Float64)
    requires IsDelta(rule) && |group| > 1
    requires
      var n := |group| - 1;
      var v := Fold(rule, group[..n]).value;
      && ReadsAs(rule.floats, v, d) && ReadsAs(rule.floats, group[n].value, x)
      && !(v.Int? && group[n].value.Int?)
    ensures Fold(rule, group).value == Double(rule.floats.add(d, x))
  {
    hide Plus;
  }

  // ... and in float64 from the first other value `group[f]` on, left to right: an empty value counts
  // as zero, an int by its conversion, and the ints before `f` by the conversion of their sum.
  lemma {:induction false} MixedDelta(rule: Rule, group: seq<Point>, f: nat, ds: seq<Float64>)
    requires IsDelta(rule) && |group| > 1 && f < |group| && Reads(rule.floats, group, ds)
    requires !group[f].value.Int? && forall i :: 0 <= i < f ==> group[i].value.Int?
    ensures
      var sum := if f == 0 then AddUp(rule.floats, ds[0], ds[1..])
                 else AddUp(rule.floats, rule.floats.ofInt(AddInts(group[..f])), ds[f..]);
      Fold(rule, group).value == Double(sum)
  {
    hide Plus, Fold, AddUp, AddInts;
    var n, floats := |group| - 1, rule.floats;
    var from, d := if f == 0 then 1 else f, if f == 0 then ds[0] else floats.ofInt(AddInts(group[..f]));
    var before := AddUp(floats, d, ds[..n][from..]);
    assert ds[from..] == ds[..n][from..] + [ds[n]];
    AddUpSnoc(floats, d, ds[..n][from..], ds[n]);
    if n == from {
      assert ds[..n][from..] == [];
      NothingAdded(floats, d);
      if f == 0 {
        FoldOfOne(rule, group[..1]);
      } else {
        IntDelta(rule, group[..n]);
      }
    } else {
      MixedDelta(rule, group[..n], f, ds[..n]);
      assert group[..n][..f] == group[..f];
    }
    MixedStep(rule, group, before, ds[n]);
  }

  lemma NothingAdded(floats: Floats, d: Float64)
    ensures AddUp(floats, d, []) == d
  {
  }

  // In particular doubles add up in index order.
  lemma DoubleDelta(rule: Rule, group: seq<Point>, ds: seq<Float64>)
    requires IsDelta(rule) && group != [] && |ds| == |group|
    requires forall i :: 0 <= i < |group| ==> group[i].value == Double(ds[i])
    ensures Fold(rule, group).value == Double(AddUp(rule.floats, ds[0], ds[1..]))
  {
    if |group| > 1 {
      MixedDelta(rule, group, 0, ds);
    } else {
      FoldOfOne(rule, group);
    }
  }

  // ---------------------------------------------------------------------------------------------
  // Gauges.

  // Later than every point before it in the group.
  ghost predicate Overtakes(group: seq<Point>, i: nat) {
    i < |group| && forall j :: 0 <= j < i ==> group[j].timestamp < group[i].timestamp
  }

  // The earliest-indexed point with the latest timestamp.
  ghost predicate Wins(group: seq<Point>, w: nat) {
    Overtakes(group, w) && forall j :: 0 <= j < |group| ==> group[j].timestamp <= group[w].timestamp
  }

  predicate HasValue(p: Point) {
    !p.value.Empty?
  }

  predicate HasStart(p: Point) {
    p.start > 0
  }

  // `i` is the last overtaking point with property `f`, or -1 if none has it.
  ghost predicate LastOf(group: seq<Point>, f: Point -> bool, i: int) {
    && -1 <= i < |group|
    && (i >= 0 ==> Overtakes(group, i) && f(group[i]))
    && forall j: nat :: i < j < |group| && Overtakes(group, j) ==> !f(group[j])
  }

  lemma OvertakesSnoc(group: seq<Point>, p: Point, j: nat)
    requires j < |group|
    ensures Overtakes(group + [p], j) <==> Overtakes(group, j)
  {
    var group' := group + [p];
    assert forall k :: 0 <= k <= j ==> group'[k] == group[k];
    if Overtakes(group', j) {
      forall k | 0 <= k < j ensures group[k].timestamp < group[j].timestamp {
        assert group'[k].timestamp < group'[j].timestamp;
      }
    }
  }

  lemma LastOfSnoc(group: seq<Point>, p: Point, f: Point -> bool, i: int)
    requires LastOf(group, f, i)
    ensures LastOf(group + [p], f, if Overtakes(group + [p], |group|) && f(p) then |group| else i)
  {
    forall j: nat | j < |group| ensures Overtakes(group + [p], j) <==> Overtakes(group, j) {
      OvertakesSnoc(group, p, j);
    }
  }

  lemma {:induction false} GaugeWinner(rule: Rule, group: seq<Point>) returns (w: nat)
    requires rule.metricType == Gauge && group != []
    ensures Wins(group, w)
    ensures Fold(rule, group).timestamp == group[w].timestamp
  {
    var n := |group| - 1;
    if n == 0 {
      w := 0;
    } else {
      w := GaugeWinner(rule, group[..n]);
      assert forall j :: 0 <= j < n ==> group[..n][j] == group[j];
      if group[n].timestamp > group[w].timestamp {
        w := n;
      }
    }
  }

  // Does the last point of the group replace the leader's value and times?
  lemma LastOvertakes(rule: Rule, group: seq<Point>)
    requires rule.metricType == Gauge && |group| > 1
    ensures
      var n := |group| - 1;
      Overtakes(group, n) <==> group[n].timestamp > Fold(rule, group[..n]).timestamp
  {
    var n := |group| - 1;
    var w := GaugeWinner(rule, group[..n]);
    assert forall j :: 0 <= j < n ==> group[..n][j] == group[j];
  }

  lemma {:induction false} GaugeValue(rule: Rule, group: seq<Point>) returns (v: int)
    requires rule.metricType == Gauge && group != []
    ensures LastOf(group, HasValue, v)
    ensures Fold(rule, group).value == if v < 0 then Empty else group[v].value
  {
    var n := |group| - 1;
    var p := group[n];
    if n == 0 {
      v := if HasValue(p) then 0 else -1;
    } else {
      hide LastOf, Overtakes, Fold;
      FoldSnoc(rule, group[..n], p);
      v := GaugeValue(rule, group[..n]);
      LastOvertakes(rule, group);
      LastOfSnoc(group[..n], p, HasValue, v);
      assert group == group[..n] + [p];
      v := if Overtakes(group, n) && HasValue(p) then n else v;
    }
  }

  lemma {:induction false} GaugeStart(rule: Rule, group: seq<Point>) returns (s: int)
    requires rule.metricType == Gauge && group != []
    ensures LastOf(group, HasStart, s)
    ensures Fold(rule, group).start == if s < 0 then 0 else group[s].start
  {
    var n := |group| - 1;
    var p := group[n];
    if n == 0 {
      s := if HasStart(p) then 0 else -1;
    } else {
      hide LastOf, Overtakes, Fold;
      FoldSnoc(rule, group[..n], p);
      s := GaugeStart(rule, group[..n]);
      LastOvertakes(rule, group);
      LastOfSnoc(group[..n], p, HasStart, s);
      assert group == group[..n] + [p];
      s := if Overtakes(group, n) && HasStart(p) then n else s;
    }
  }

  // A gauge group: the value and the start time of the last overtaking point that has one, the
  // latest timestamp, and all exemplars.
  lemma GaugeGroup(rule: Rule, group: seq<Point>) returns (w: nat, v: int, s: int)
    requires rule.metricType == Gauge && group != []
    ensures Wins(group, w) && LastOf(group, HasValue, v) && LastOf(group, HasStart, s)
    ensures
      var r := Fold(rule, group);
      && r.attrs == group[0].attrs
      && r.timestamp == group[w].timestamp
      && r.value == (if v < 0 then Empty else group[v].value)
      && r.start == (if s < 0 then 0 else group[s].start)
      && r.exemplars == Exemplars(group)
  {
    w := GaugeWinner(rule, group);
    v := GaugeValue(rule, group);
    s := GaugeStart(rule, group);
    FoldKeepsAttrs(rule, group);
    GroupExemplars(rule, group);
  }

  lemma WinnerIsUnique(group: seq<Point>, w: nat, w': nat)
    requires Wins(group, w) && Wins(group, w')
    ensures w == w'
  {
    assert group[w].timestamp == group[w'].timestamp;
  }

  // Last value wins exactly when the winner carries a value or no point that overtook on the way
  // to it did: an empty winner keeps the value of an older point under its own timestamp.
  lemma LastValueWins(rule: Rule, group: seq<Point>, w: nat)
    requires rule.metricType == Gauge && Wins(group, w)
    ensures Fold(rule, group).timestamp == group[w].timestamp
    ensures Fold(rule, group).value == group[w].value
       <==> !group[w].value.Empty? || forall i: nat :: Overtakes(group, i) ==> group[i].value.Empty?
  {
    var w' := GaugeWinner(rule, group);
    WinnerIsUnique(group, w, w');
    var v := GaugeValue(rule, group);
    forall i: nat | w < i < |group| ensures !Overtakes(group, i) {
      assert group[i].timestamp <= group[w].timestamp;
    }
    assert v <= w;
  }

  // A group on which it fails: an empty point, later than one that carries a value.
  lemma EmptyWinnerKeepsOldValue(floats: Floats)
    ensures
      var rule := Rule(floats, Gauge, false);
      Fold(rule, [Point([], Int(7), 1, 1, []), Point([], Empty, 2, 1, [])]) == Point([], Int(7), 2, 1, [])
  {
    var rule := Rule(floats, Gauge, false);
    FoldSnoc(rule, [Point([], Int(7), 1, 1, [])], Point([], Empty, 2, 1, []));
  }

  // ---------------------------------------------------------------------------------------------
  // One more point: either a new survivor, or a merge into one.

  lemma GroupBySnocAt(rule: Rule, h: Hasher, ps: seq<Point>, p: Point, i: nat)
    requires i < |Order(h, ps)| && |Order(h, ps)| <= |Order(h, ps + [p])|
    requires Order(h, ps + [p])[i] == Order(h, ps)[i]
    ensures
      var out, out' := GroupBy(rule, h, ps), GroupBy(rule, h, ps + [p]);
      out'[i] == if Order(h, ps)[i] == h(p.attrs) then Merge(rule, out[i], p) else out[i]
  {
    hide Merge;
    var x := Order(h, ps)[i];
    var group := Members(h, ps, x);
    GroupByAt(rule, h, ps, i);
    GroupByAt(rule, h, ps + [p], i);
    MembersSnoc(h, ps, p, x);
    FoldSnoc(rule, group, p);
    assert group + [] == group;
  }

  lemma GroupBySnoc(rule: Rule, h: Hasher, ps: seq<Point>, p: Point) returns (j: nat)
    ensures
      var out, out' := GroupBy(rule, h, ps), GroupBy(rule, h, ps + [p]);
      if j < |out|
      then h(out[j].attrs) == h(p.attrs) && out' == out[j := Merge(rule, out[j], p)]
      else j == |out| && out' == out + [p]
  {
    hide Order, Members, Merge;
    var out, out' := GroupBy(rule, h, ps), GroupBy(rule, h, ps + [p]);
    var xs, x := Order(h, ps), h(p.attrs);
    OrderSnoc(h, ps, p);
    forall i | 0 <= i < |out| ensures out'[i] == if xs[i] == x then Merge(rule, out[i], p) else out[i] {
      GroupBySnocAt(rule, h, ps, p, i);
    }
    if x in xs {
      j :| 0 <= j < |xs| && xs[j] == x;
      GroupByHash(rule, h, ps, j);
      OrderDistinct(h, ps);
    } else {
      j := |xs|;
      OrderMembers(h, ps, x);
      GroupByAt(rule, h, ps + [p], j);
      MembersSnoc(h, ps, p, x);
    }
  }

  // ---------------------------------------------------------------------------------------------
  // Conservation.

  ghost function IntOf(p: Point): Int64 {
    if p.value.Int? then p.value.i else 0
  }

  ghost function Share(q: Attrs -> bool, p: Point): Int64 {
    if q(p.attrs) then IntOf(p) else 0
  }

  // The sum, modulo 2^64, of the points selected by `q`.
  ghost function SumWhere(q: Attrs -> bool, ps: seq<Point>): Int64 {
    if ps == [] then 0 else Plus(SumWhere(q, ps[..|ps| - 1]), Share(q, ps[|ps| - 1]))
  }

  predicate Everything(attrs: Attrs) {
    true
  }

  ghost predicate AllInt(ps: seq<Point>) {
    forall i :: 0 <= i < |ps| ==> ps[i].value.Int?
  }

  // Points that share a hash are selected together.
  ghost predicate Respects(h: Hasher, q: Attrs -> bool, ps: seq<Point>) {
    forall i, j :: 0 <= i < |ps| && 0 <= j < |ps| && h(ps[i].attrs) == h(ps[j].attrs) ==>
      q(ps[i].attrs) == q(ps[j].attrs)
  }

  lemma {:induction false} SumUpdate(q: Attrs -> bool, ps: seq<Point>, j: nat, p: Point, gain: Int64)
    requires j < |ps|
    requires Share(q, p) == Plus(Share(q, ps[j]), gain)
    ensures SumWhere(q, ps[j := p]) == Plus(SumWhere(q, ps), gain)
  {
    hide Plus, Share;
    var n := |ps| - 1;
    var front := SumWhere(q, ps[..n]);
    if j == n {
      assert ps[j := p][..n] == ps[..n];
      PlusAssociates(front, Share(q, ps[n]), gain);
    } else {
      assert ps[j := p][..n] == ps[..n][j := p];
      SumUpdate(q, ps[..n], j, p, gain);
      PlusAssociates(front, gain, Share(q, ps[n]));
      PlusCommutes(gain, Share(q, ps[n]));
      PlusAssociates(front, Share(q, ps[n]), gain);
    }
  }

  lemma PlusZero(a: Int64)
    ensures Plus(a, 0) == a
  {
  }

  lemma FirstMember(h: Hasher, ps: seq<Point>, rule: Rule, j: nat)
    requires j < |GroupBy(rule, h, ps)|
    ensures exists i :: 0 <= i < |ps| && ps[i].attrs == GroupBy(rule, h, ps)[j].attrs
  {
    var x := Order(h, ps)[j];
    GroupByAt(rule, h, ps, j);
    FoldKeepsAttrs(rule, Members(h, ps, x));
    MembersHaveHash(h, ps, x);
    assert Members(h, ps, x)[0] in ps;
  }

  lemma {:induction false} GroupByAllInt(rule: Rule, h: Hasher, ps: seq<Point>)
    requires IsDelta(rule) && AllInt(ps)
    ensures AllInt(GroupBy(rule, h, ps))
  {
    if ps != [] {
      var n := |ps| - 1;
      GroupByAllInt(rule, h, ps[..n]);
      var j := GroupBySnoc(rule, h, ps[..n], ps[n]);
      assert ps == ps[..n] + [ps[n]];
    }
  }

  // Merging int deltas changes no sum over a selection that does not split a hash class.
  lemma {:induction false} SumPreserved(rule: Rule, h: Hasher, q: Attrs -> bool, ps: seq<Point>)
    requires IsDelta(rule) && AllInt(ps) && Respects(h, q, ps)
    ensures SumWhere(q, GroupBy(rule, h, ps)) == SumWhere(q, ps)
  {
    if ps == [] {
      return;
    }
    hide Plus;
    var n := |ps| - 1;
    var p, out := ps[n], GroupBy(rule, h, ps[..n]);
    assert ps == ps[..n] + [p];
    SumPreserved(rule, h, q, ps[..n]);
    var j := GroupBySnoc(rule, h, ps[..n], p);
    if j < |out| {
      GroupByAllInt(rule, h, ps[..n]);
      FirstMember(h, ps[..n], rule, j);
      var i :| 0 <= i < n && ps[i].attrs == out[j].attrs;
      assert q(ps[i].attrs) == q(p.attrs);
      PlusZero(0);
      SumUpdate(q, out, j, Merge(rule, out[j], p), Share(q, p));
    } else {
      assert (out + [p])[..|out|] == out;
    }
  }

  lemma {:induction false} SameSelectionSameSum(q: Attrs -> bool, a: seq<Point>, q': Attrs -> bool, b: seq<Point>)
    requires |a| == |b|
    requires forall i :: 0 <= i < |a| ==> a[i].value == b[i].value && q(a[i].attrs) == q'(b[i].attrs)
    ensures SumWhere(q, a) == SumWhere(q', b)
  {
    if a != [] {
      hide Plus, IntOf;
      SameSelectionSameSum(q, a[..|a| - 1], q', b[..|b| - 1]);
      SameShare(q, a[|a| - 1], q', b[|b| - 1]);
    }
  }

  lemma SameShare(q: Attrs -> bool, p: Point, q': Attrs -> bool, p': Point)
    requires p.value == p'.value && q(p.attrs) == q'(p'.attrs)
    ensures Share(q, p) == Share(q', p')
  {
  }

  // The attributes of the first point with hash `x`.
  ghost function Leader(h: Hasher, ps: seq<Point>, x: Hash): Attrs {
    var group := Members(h, ps, x);
    if group == [] then [] else group[0].attrs
  }

  // Selects a point if `q` selects the leader of its group.
  ghost function Led(q: Attrs -> bool, h: Hasher, ps: seq<Point>): Attrs -> bool {
    attrs => q(Leader(h, ps, h(attrs)))
  }

  // In every int delta batch, whatever the hash does: after the merge a query gets the sum of the
  // points whose leaders it selects.
  lemma MergedSum(rule: Rule, h: Hasher, q: Attrs -> bool, ps: seq<Point>)
    requires IsDelta(rule) && AllInt(ps)
    ensures SumWhere(q, GroupBy(rule, h, ps)) == SumWhere(Led(q, h, ps), ps)
  {
    var out := GroupBy(rule, h, ps);
    forall j | 0 <= j < |out| ensures q(out[j].attrs) == Led(q, h, ps)(out[j].attrs) {
      GroupByHash(rule, h, ps, j);
      GroupByAt(rule, h, ps, j);
      FoldKeepsAttrs(rule, Members(h, ps, Order(h, ps)[j]));
    }
    SameSelectionSameSum(q, out, Led(q, h, ps), out);
    SumPreserved(rule, h, Led(q, h, ps), ps);
  }

  // ---------------------------------------------------------------------------------------------
  // Which queries survive, by the attributes of the points alone.

  ghost predicate Carries(ps: seq<Point>, attrs: seq<Attrs>) {
    |ps| == |attrs| && forall i :: 0 <= i < |ps| ==> ps[i].attrs == attrs[i]
  }

  // Points with these attributes, of which the one at `m` has value 1 and the others 0.
  ghost function Unit(attrs: seq<Attrs>, m: int): (ps: seq<Point>)
    ensures Carries(ps, attrs) && AllInt(ps)
  {
    seq(|attrs|, i requires 0 <= i < |attrs| => Point(attrs[i], Int(if i == m then 1 else 0), 0, 0, []))
  }

  lemma SumStep(q: Attrs -> bool, ps: seq<Point>, i: nat)
    requires i < |ps|
    ensures SumWhere(q, ps[..i + 1]) == Plus(SumWhere(q, ps[..i]), Share(q, ps[i]))
  {
    hide Plus, Share;
    assert ps[..i + 1][..i] == ps[..i];
  }

  function Bit(b: bool): Int64 {
    if b then 1 else 0
  }

  lemma PlusBits(a: bool, b: bool)
    requires !(a && b)
    ensures Plus(Bit(a), Bit(b)) == Bit(a || b)
  {
    PlusZero(0);
    PlusZero(1);
    PlusCommutes(0, 1);
  }

  lemma UnitShare(q: Attrs -> bool, attrs: seq<Attrs>, m: int, i: nat)
    requires i < |attrs|
    ensures Share(q, Unit(attrs, m)[i]) == Bit(i == m && q(attrs[i]))
  {
  }

  lemma NoSum(q: Attrs -> bool, ps: seq<Point>)
    ensures SumWhere(q, ps[..0]) == Bit(false)
  {
  }

  lemma {:induction false} UnitSum(q: Attrs -> bool, attrs: seq<Attrs>, m: int, n: nat)
    requires n <= |attrs|
    ensures SumWhere(q, Unit(attrs, m)[..n]) == Bit(0 <= m < n && q(attrs[m]))
  {
    hide Plus, SumWhere, Share, Bit, Unit;
    if n == 0 {
      NoSum(q, Unit(attrs, m));
    } else {
      UnitSum(q, attrs, m, n - 1);
      SumStep(q, Unit(attrs, m), n - 1);
      UnitShare(q, attrs, m, n - 1);
      PlusBits(0 <= m < n - 1 && q(attrs[m]), n - 1 == m && q(attrs[n - 1]));
    }
  }

  // A point whose leader is selected otherwise than it is changes the sum with its value.
  lemma StrayUnit(floats: Floats, h: Hasher, q: Attrs -> bool, attrs: seq<Attrs>, m: nat)
    requires m < |attrs| && q(Leader(h, Unit(attrs, m), h(attrs[m]))) != q(attrs[m])
    ensures SumWhere(q, GroupBy(Rule(floats, Sum, true), h, Unit(attrs, m))) != SumWhere(q, Unit(attrs, m))
  {
    hide GroupBy, SumWhere, Leader;
    var ps := Unit(attrs, m);
    assert ps[..|ps|] == ps;
    MergedSum(Rule(floats, Sum, true), h, q, ps);
    UnitSum(q, attrs, m, |attrs|);
    UnitSum(Led(q, h, ps), attrs, m, |attrs|);
  }

  lemma {:induction false} SameLeaders(h: Hasher, ps: seq<Point>, ps': seq<Point>, x: Hash)
    requires |ps| == |ps'| && forall i :: 0 <= i < |ps| ==> ps[i].attrs == ps'[i].attrs
    ensures |Members(h, ps, x)| == |Members(h, ps', x)| && Leader(h, ps, x) == Leader(h, ps', x)
  {
    if ps != [] {
      SameLeaders(h, ps[..|ps| - 1], ps'[..|ps| - 1], x);
    }
  }

  // The points of a hash class are selected together.
  ghost predicate Unsplit(h: Hasher, q: Attrs -> bool, attrs: seq<Attrs>) {
    forall i, j :: 0 <= i < |attrs| && 0 <= j < |attrs| && h(attrs[i]) == h(attrs[j]) ==> q(attrs[i]) == q(attrs[j])
  }

  // When two points of a class are selected differently, one of them differs from the leader.
  lemma SplitClass(floats: Floats, h: Hasher, q: Attrs -> bool, attrs: seq<Attrs>) returns (m: nat)
    requires !Unsplit(h, q, attrs)
    ensures m < |attrs|
    ensures SumWhere(q, GroupBy(Rule(floats, Sum, true), h, Unit(attrs, m))) != SumWhere(q, Unit(attrs, m))
  {
    hide GroupBy, SumWhere, Leader;
    var i, j :| 0 <= i < |attrs| && 0 <= j < |attrs| && h(attrs[i]) == h(attrs[j]) && q(attrs[i]) != q(attrs[j]);
    SameLeaders(h, Unit(attrs, i), Unit(attrs, j), h(attrs[i]));
    m := if q(Leader(h, Unit(attrs, i), h(attrs[i]))) != q(attrs[i]) then i else j;
    StrayUnit(floats, h, q, attrs, m);
  }

  // For points with given attributes: a selection keeps its sum whatever int deltas they carry, if and
  // only if no two of them that hash alike are selected differently.
  lemma SumsPreservedExactly(floats: Floats, h: Hasher, q: Attrs -> bool, attrs: seq<Attrs>)
    ensures
      var rule := Rule(floats, Sum, true);
      (forall ps :: Carries(ps, attrs) && AllInt(ps) ==> SumWhere(q, GroupBy(rule, h, ps)) == SumWhere(q, ps))
        <==> Unsplit(h, q, attrs)
  {
    hide GroupBy, SumWhere;
    if Unsplit(h, q, attrs) {
      forall ps | Carries(ps, attrs) && AllInt(ps)
        ensures SumWhere(q, GroupBy(Rule(floats, Sum, true), h, ps)) == SumWhere(q, ps)
      {
        SumPreserved(Rule(floats, Sum, true), h, q, ps);
      }
    } else {
      var m := SplitClass(floats, h, q, attrs);
      assert Carries(Unit(attrs, m), attrs) && AllInt(Unit(attrs, m));
    }
  }

  // Of two points that hash alike, the later passes its value to the earlier.
  lemma CollisionMovesSums(floats: Floats, h: Hasher, q: Attrs -> bool, a: Attrs, b: Attrs)
    requires h(a) == h(b)
    ensures
      var ps := [Point(a, Int(1), 0, 0, []), Point(b, Int(1), 0, 0, [])];
      && SumWhere(q, ps) == (if q(a) && q(b) then 2 else if q(a) || q(b) then 1 else 0)
      && SumWhere(q, GroupBy(Rule(floats, Sum, true), h, ps)) == (if q(a) then 2 else 0)
  {
    var rule := Rule(floats, Sum, true);
    var p, p' := Point(a, Int(1), 0, 0, []), Point(b, Int(1), 0, 0, []);
    FastPath(rule, h, [p]);
    var j := GroupBySnoc(rule, h, [p], p');
    assert [p] + [p'] == [p, p'];
    var m := Merge(rule, p, p');
    assert [p][0 := m] == [m] && m.attrs == a && m.value == Int(2);
    assert [p, p'][..1] == [p] && [p][..0] == [] && [m][..0] == [];
    assert SumWhere(q, [p]) == if q(a) then 1 else 0;
  }

  // In particular the total, with no assumption on the hash at all.
  lemma TotalPreserved(rule: Rule, h: Hasher, ps: seq<Point>)
    requires IsDelta(rule) && AllInt(ps)
    ensures SumWhere(Everything, GroupBy(rule, h, ps)) == SumWhere(Everything, ps)
  {
    SumPreserved(rule, h, Everything, ps);
  }

  lemma {:induction false} ExemplarsUpdate(ps: seq<Point>, j: nat, p: Point, gain: seq<Exemplar>)
    requires j < |ps|
    requires p.exemplars == ps[j].exemplars + gain
    ensures multiset(Exemplars(ps[j := p])) == multiset(Exemplars(ps)) + multiset(gain)
  {
    var n := |ps| - 1;
    var front := Exemplars(ps[..n]);
    if j == n {
      assert ps[j := p][..n] == ps[..n];
      assert Exemplars(ps[j := p]) == front + ps[n].exemplars + gain;
    } else {
      assert ps[j := p][..n] == ps[..n][j := p];
      ExemplarsUpdate(ps[..n], j, p, gain);
      assert Exemplars(ps[j := p]) == Exemplars(ps[..n][j := p]) + ps[n].exemplars;
    }
  }

  // No exemplar is lost or duplicated.
  lemma {:induction false} ExemplarsPreserved(rule: Rule, h: Hasher, ps: seq<Point>)
    requires Merges(rule)
    ensures multiset(Exemplars(GroupBy(rule, h, ps))) == multiset(Exemplars(ps))
  {
    if ps != [] {
      var n := |ps| - 1;
      var p, out := ps[n], GroupBy(rule, h, ps[..n]);
      assert ps == ps[..n] + [p];
      ExemplarsPreserved(rule, h, ps[..n]);
      var j := GroupBySnoc(rule, h, ps[..n], p);
      if j < |out| {
        ExemplarsUpdate(out, j, Merge(rule, out[j], p), p.exemplars);
      } else {
        assert (out + [p])[..|out|] == out;
      }
    }
  }
}
