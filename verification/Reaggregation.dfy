// Spatial reaggregation as a group-by and fold, for any identity hash whatever, and its laws.
module Reaggregation {
  import opened Attributes
  import opened DataPoints
  import opened Hashing

  type Hasher = Attrs -> Hash

  // The points with hash `x`, in index order.
  ghost function Members(h: Hasher, ps: seq<Point>, x: Hash): seq<Point> {
    if ps == [] then [] else
    var p := ps[|ps| - 1];
    Members(h, ps[..|ps| - 1], x) + if h(p.attrs) == x then [p] else []
  }

  // The hashes that occur, by first occurrence.
  ghost function Order(h: Hasher, ps: seq<Point>): seq<Hash> {
    if ps == [] then [] else
    var xs := Order(h, ps[..|ps| - 1]);
    var x := h(ps[|ps| - 1].attrs);
    if x in xs then xs else xs + [x]
  }

  lemma {:induction false} OrderMembers(h: Hasher, ps: seq<Point>, x: Hash)
    ensures x in Order(h, ps) <==> Members(h, ps, x) != []
  {
    if ps != [] {
      OrderMembers(h, ps[..|ps| - 1], x);
    }
  }

  lemma {:induction false} OrderDistinct(h: Hasher, ps: seq<Point>)
    ensures forall i, j :: 0 <= i < j < |Order(h, ps)| ==> Order(h, ps)[i] != Order(h, ps)[j]
  {
    if ps != [] {
      OrderDistinct(h, ps[..|ps| - 1]);
    }
  }

  // The first point of a group with the others merged into it, left to right.
  ghost function Fold(rule: Rule, group: seq<Point>): Point
    requires group != []
  {
    var n := |group| - 1;
    if n == 0 then group[0] else Merge(rule, Fold(rule, group[..n]), group[n])
  }

  // The specification of reaggregation.
  ghost function GroupBy(rule: Rule, h: Hasher, ps: seq<Point>): (out: seq<Point>)
    ensures |out| == |Order(h, ps)|
  {
    var xs := Order(h, ps);
    seq(|xs|, j requires 0 <= j < |xs| => OrderMembers(h, ps, xs[j]); Fold(rule, Members(h, ps, xs[j])))
  }

  lemma GroupByAt(rule: Rule, h: Hasher, ps: seq<Point>, j: nat)
    requires j < |Order(h, ps)|
    ensures Members(h, ps, Order(h, ps)[j]) != []
    ensures GroupBy(rule, h, ps)[j] == Fold(rule, Members(h, ps, Order(h, ps)[j]))
  {
    OrderMembers(h, ps, Order(h, ps)[j]);
  }

  // ---------------------------------------------------------------------------------------------
  // Basic facts.

  lemma {:induction false} MembersHaveHash(h: Hasher, ps: seq<Point>, x: Hash)
    ensures forall p :: p in Members(h, ps, x) ==> p in ps && h(p.attrs) == x
  {
    if ps != [] {
      MembersHaveHash(h, ps[..|ps| - 1], x);
    }
  }

  lemma {:induction false} FoldKeepsAttrs(rule: Rule, group: seq<Point>)
    requires group != []
    ensures Fold(rule, group).attrs == group[0].attrs
  {
    if |group| > 1 {
      FoldKeepsAttrs(rule, group[..|group| - 1]);
    }
  }

  lemma FoldSnoc(rule: Rule, group: seq<Point>, p: Point)
    requires group != []
    ensures Fold(rule, group + [p]) == Merge(rule, Fold(rule, group), p)
  {
    assert (group + [p])[..|group|] == group;
  }

  lemma MembersSnoc(h: Hasher, ps: seq<Point>, p: Point, x: Hash)
    ensures Members(h, ps + [p], x) == Members(h, ps, x) + if h(p.attrs) == x then [p] else []
  {
    assert (ps + [p])[..|ps|] == ps;
  }

  lemma OrderSnoc(h: Hasher, ps: seq<Point>, p: Point)
    ensures Order(h, ps + [p]) == Order(h, ps) + if h(p.attrs) in Order(h, ps) then [] else [h(p.attrs)]
  {
    assert (ps + [p])[..|ps|] == ps;
  }

  lemma GroupByHash(rule: Rule, h: Hasher, ps: seq<Point>, j: nat)
    requires j < |GroupBy(rule, h, ps)|
    ensures h(GroupBy(rule, h, ps)[j].attrs) == Order(h, ps)[j]
  {
    var x := Order(h, ps)[j];
    GroupByAt(rule, h, ps, j);
    FoldKeepsAttrs(rule, Members(h, ps, x));
    MembersHaveHash(h, ps, x);
  }

  // ---------------------------------------------------------------------------------------------
  // Single writer: whatever the hash function, no two surviving points have the same hash.

  ghost predicate DistinctHashes(h: Hasher, ps: seq<Point>) {
    forall i, j :: 0 <= i < j < |ps| ==> h(ps[i].attrs) != h(ps[j].attrs)
  }

  lemma SingleWriter(rule: Rule, h: Hasher, ps: seq<Point>)
    ensures DistinctHashes(h, GroupBy(rule, h, ps))
  {
    var out := GroupBy(rule, h, ps);
    OrderDistinct(h, ps);
    forall i, j | 0 <= i < j < |out| ensures h(out[i].attrs) != h(out[j].attrs) {
      GroupByHash(rule, h, ps, i);
      GroupByHash(rule, h, ps, j);
    }
  }

  // Nor, with the XOR hash of the source, the same attribute set.
  lemma DistinctIdentities(rule: Rule, xx: StringHash, ps: seq<Point>, i: nat, j: nat)
    requires i < j < |GroupBy(rule, AttrHash(xx), ps)|
    ensures
      var out := GroupBy(rule, AttrHash(xx), ps);
      Identity(out[i].attrs) != Identity(out[j].attrs)
  {
    var h := AttrHash(xx);
    var out := GroupBy(rule, h, ps);
    SingleWriter(rule, h, ps);
    if Identity(out[i].attrs) == Identity(out[j].attrs) {
      SameIdentitySameHash(xx, out[i].attrs, out[j].attrs);
    }
  }

  // ---------------------------------------------------------------------------------------------
  // Fast path and idempotence.

  lemma {:induction false} MembersAbsent(h: Hasher, ps: seq<Point>, x: Hash)
    requires forall i :: 0 <= i < |ps| ==> h(ps[i].attrs) != x
    ensures Members(h, ps, x) == []
  {
    if ps != [] {
      MembersAbsent(h, ps[..|ps| - 1], x);
    }
  }

  lemma {:induction false} MembersAlone(h: Hasher, ps: seq<Point>, i: nat)
    requires i < |ps| && DistinctHashes(h, ps)
    ensures Members(h, ps, h(ps[i].attrs)) == [ps[i]]
  {
    var n := |ps| - 1;
    if i == n {
      MembersAbsent(h, ps[..n], h(ps[n].attrs));
    } else {
      MembersAlone(h, ps[..n], i);
    }
  }

  lemma {:induction false} DistinctOrder(h: Hasher, ps: seq<Point>)
    requires DistinctHashes(h, ps)
    ensures |Order(h, ps)| == |ps|
    ensures forall i :: 0 <= i < |ps| ==> Order(h, ps)[i] == h(ps[i].attrs)
  {
    if ps != [] {
      var n := |ps| - 1;
      DistinctOrder(h, ps[..n]);
      MembersAbsent(h, ps[..n], h(ps[n].attrs));
      OrderMembers(h, ps[..n], h(ps[n].attrs));
    }
  }

  // Without a collision the group-by changes nothing, so returning early is right.
  lemma FastPath(rule: Rule, h: Hasher, ps: seq<Point>)
    requires DistinctHashes(h, ps)
    ensures GroupBy(rule, h, ps) == ps
  {
    DistinctOrder(h, ps);
    forall i | 0 <= i < |ps| ensures GroupBy(rule, h, ps)[i] == ps[i] {
      MembersAlone(h, ps, i);
      GroupByAt(rule, h, ps, i);
    }
  }

  lemma Idempotent(rule: Rule, h: Hasher, ps: seq<Point>)
    ensures GroupBy(rule, h, GroupBy(rule, h, ps)) == GroupBy(rule, h, ps)
  {
    SingleWriter(rule, h, ps);
    FastPath(rule, h, GroupBy(rule, h, ps));
  }

  // ---------------------------------------------------------------------------------------------
  // Batches can be reaggregated piecewise.

  // When merging is associative: for int deltas, and for gauge points that all have a start time or
  // all have none, and all have a value or all have none.
  ghost predicate Alike(rule: Rule, p: Point, p': Point) {
    match rule.metricType
    case Gauge => p.value.Empty? == p'.value.Empty? && (p.start > 0) == (p'.start > 0)
    case Sum => rule.isDelta ==> p.value.Int? && p'.value.Int?
    case _ => true
  }

  lemma MergeAssociates(rule: Rule, l: Point, m: Point, r: Point)
    requires Alike(rule, l, m) && Alike(rule, l, r)
    ensures Merge(rule, Merge(rule, l, m), r) == Merge(rule, l, Merge(rule, m, r))
  {
    hide Plus;
    assert l.exemplars + m.exemplars + r.exemplars == l.exemplars + (m.exemplars + r.exemplars);
    if rule.metricType == Sum && rule.isDelta {
      PlusAssociates(l.value.i, m.value.i, r.value.i);
    }
  }

  lemma {:induction false} FoldAlike(rule: Rule, like: Point, group: seq<Point>)
    requires group != []
    requires forall p :: p in group ==> Alike(rule, like, p)
    ensures Alike(rule, like, Fold(rule, group))
  {
    var n := |group| - 1;
    assert group[n] in group;
    if n > 0 {
      FoldAlike(rule, like, group[..n]);
    }
  }

  lemma {:induction false} FoldConcat(rule: Rule, like: Point, a: seq<Point>, b: seq<Point>)
    requires a != [] && b != []
    requires forall p :: p in a + b ==> Alike(rule, like, p)
    ensures Fold(rule, a + b) == Merge(rule, Fold(rule, a), Fold(rule, b))
  {
    var n := |b| - 1;
    assert a + b == (a + b[..n]) + [b[n]];
    if n == 0 {
      assert a + b[..n] == a;
      FoldSnoc(rule, a, b[n]);
    } else {
      FoldSnoc(rule, a + b[..n], b[n]);
      FoldConcat(rule, like, a, b[..n]);
      FoldAlike(rule, like, a);
      FoldAlike(rule, like, b[..n]);
      assert b[n] in a + b;
      MergeAssociates(rule, Fold(rule, a), Fold(rule, b[..n]), b[n]);
    }
  }

  lemma {:induction false} MembersConcat(h: Hasher, a: seq<Point>, b: seq<Point>, x: Hash)
    ensures Members(h, a + b, x) == Members(h, a, x) + Members(h, b, x)
  {
    if b == [] {
      assert a + b == a;
    } else {
      var n := |b| - 1;
      MembersConcat(h, a, b[..n], x);
      assert a + b == (a + b[..n]) + [b[n]];
      MembersSnoc(h, a + b[..n], b[n], x);
    }
  }

  // `xs` followed by the elements of `ys` that are not in it.
  ghost function Join(xs: seq<Hash>, ys: seq<Hash>): seq<Hash> {
    if ys == [] then xs else
    var zs := Join(xs, ys[..|ys| - 1]);
    var y := ys[|ys| - 1];
    if y in zs then zs else zs + [y]
  }

  lemma {:induction false} JoinMembers(xs: seq<Hash>, ys: seq<Hash>, z: Hash)
    ensures z in Join(xs, ys) <==> z in xs || z in ys
  {
    if ys != [] {
      JoinMembers(xs, ys[..|ys| - 1], z);
    }
  }

  lemma JoinSnoc(xs: seq<Hash>, ys: seq<Hash>, y: Hash)
    ensures Join(xs, ys + [y]) == Join(xs, ys) + if y in Join(xs, ys) then [] else [y]
  {
    assert (ys + [y])[..|ys|] == ys;
  }

  lemma {:induction false} OrderConcat(h: Hasher, a: seq<Point>, b: seq<Point>)
    ensures Order(h, a + b) == Join(Order(h, a), Order(h, b))
  {
    if b == [] {
      assert a + b == a;
    } else {
      hide Order, Join, Members;
      var rest, p := b[..|b| - 1], b[|b| - 1];
      OrderConcat(h, a, rest);
      assert a + b == (a + rest) + [p];
      OrderSnoc(h, a + rest, p);
      assert b == rest + [p];
      OrderSnoc(h, rest, p);
      JoinSnoc(Order(h, a), Order(h, rest), h(p.attrs));
      JoinMembers(Order(h, a), Order(h, rest), h(p.attrs));
    }
  }

  lemma OrderOfGroupBy(rule: Rule, h: Hasher, ps: seq<Point>)
    ensures Order(h, GroupBy(rule, h, ps)) == Order(h, ps)
  {
    SingleWriter(rule, h, ps);
    var out := GroupBy(rule, h, ps);
    DistinctOrder(h, out);
    forall j | 0 <= j < |out| ensures Order(h, out)[j] == Order(h, ps)[j] {
      GroupByHash(rule, h, ps, j);
    }
  }

  lemma MembersOfGroupBy(rule: Rule, h: Hasher, ps: seq<Point>, x: Hash)
    ensures Members(h, GroupBy(rule, h, ps), x)
         == var group := Members(h, ps, x); if group == [] then [] else [Fold(rule, group)]
  {
    var out, xs := GroupBy(rule, h, ps), Order(h, ps);
    SingleWriter(rule, h, ps);
    OrderMembers(h, ps, x);
    if x in xs {
      var j :| 0 <= j < |xs| && xs[j] == x;
      GroupByHash(rule, h, ps, j);
      GroupByAt(rule, h, ps, j);
      MembersAlone(h, out, j);
    } else {
      forall j | 0 <= j < |out| ensures h(out[j].attrs) != x {
        GroupByHash(rule, h, ps, j);
      }
      MembersAbsent(h, out, x);
    }
  }

  // Reaggregating two batches and then their concatenation is reaggregating all at once, if points
  // that merge are alike.
  lemma SplitIndependent(rule: Rule, h: Hasher, a: seq<Point>, b: seq<Point>)
    requires forall p, p' :: p in a + b && p' in a + b && h(p.attrs) == h(p'.attrs) ==> Alike(rule, p, p')
    ensures GroupBy(rule, h, GroupBy(rule, h, a) + GroupBy(rule, h, b)) == GroupBy(rule, h, a + b)
  {
    var parts := GroupBy(rule, h, a) + GroupBy(rule, h, b);
    OrderOfGroupBy(rule, h, a);
    OrderOfGroupBy(rule, h, b);
    OrderConcat(h, GroupBy(rule, h, a), GroupBy(rule, h, b));
    OrderConcat(h, a, b);
    forall j | 0 <= j < |Order(h, a + b)|
      ensures GroupBy(rule, h, parts)[j] == GroupBy(rule, h, a + b)[j]
    {
      GroupByAt(rule, h, a + b, j);
      GroupByAt(rule, h, parts, j);
      SplitGroup(rule, h, a, b, Order(h, a + b)[j]);
    }
  }

  lemma SplitGroup(rule: Rule, h: Hasher, a: seq<Point>, b: seq<Point>, x: Hash)
    requires forall p, p' :: p in a + b && p' in a + b && h(p.attrs) == h(p'.attrs) ==> Alike(rule, p, p')
    requires Members(h, a + b, x) != []
    ensures
      var parts := Members(h, GroupBy(rule, h, a) + GroupBy(rule, h, b), x);
      parts != [] && Fold(rule, parts) == Fold(rule, Members(h, a + b, x))
  {
    var ga, gb := Members(h, a, x), Members(h, b, x);
    MembersConcat(h, a, b, x);
    MembersConcat(h, GroupBy(rule, h, a), GroupBy(rule, h, b), x);
    MembersOfGroupBy(rule, h, a, x);
    MembersOfGroupBy(rule, h, b, x);
    if ga == [] {
      assert ga + gb == gb;
    } else if gb == [] {
      assert ga + gb == ga;
    } else {
      MembersHaveHash(h, a, x);
      MembersHaveHash(h, b, x);
      assert ga[0] in a + b;
      FoldConcat(rule, ga[0], ga, gb);
      var fa, fb := Fold(rule, ga), Fold(rule, gb);
      FoldSnoc(rule, [fa], fb);
    }
  }
}
